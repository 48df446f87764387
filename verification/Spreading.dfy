/** Rumours and gossiped clocks reach random members, each with the same probability. */
module Spreading {
  import opened Types
  import opened Rings
  import opened ClockOrder
  import opened DataLogs
  import opened Codec
  import opened Reservoirs
  import opened Members
  import opened Outbound
  import opened Tracking
  import opened Nodes
  import opened NodeInvariants
  import opened NodeEffects
  import opened Handlers
  import opened Ticking

  /** What makes a node spread a message to random members. */
  datatype Cause = OwnData(data: Bytes) | NewData(src: Address, datagram: Bytes) | OwnClock(now: nat)

  function EventOf(c: Cause, random: seq<nat>): Event {
    match c
    case OwnData(data) => Sends(data, random)
    case NewData(src, datagram) => Receives(src, datagram, random)
    case OwnClock(now) => Ticks(now, random)
  }

  /** The message that a connected node spreads for a cause: its own new data, data new to it, or its clock. */
  ghost predicate Spreads(n: Node, c: Cause, f: Frame) {
    match c
    case OwnData(data) =>
      |data| <= 486 && f == Frame(0, 0, Data(Entry(n.id, (n.dataCounter + 1) % 0x1_0000_0000), data))
    case NewData(_, datagram) =>
      |datagram| <= 512 && f.body.Data? && DecodeAs(DATA, datagram) == Ok(f)
      && Lacks(n.clock.items, f.body.version) && |f.body.payload| <= 486
    case OwnClock(now) =>
      n.lastGossipTs + 1000 <= now && |n.clock.items| <= 20 && f == Frame(0, 0, Status(n.clock.items))
  }

  /** What an event enqueues. */
  ghost function Enqueues(n: Node, ev: Event): seq<Posting>
    requires Supplied(n, ev)
  {
    var created := Apply(n, ev).created;
    if |n.created| <= |created| then created[|n.created|..] else []
  }

  lemma CauseSupplied(n: Node, c: Cause, f: Frame, random: seq<nat>)
    requires Spreads(n, c, f) && |random| >= |n.members|
    ensures Supplied(n, EventOf(c, random))
  {
    hide DecodeAs;
  }

  lemma Suffix<T>(a: seq<T>, b: seq<T>)
    ensures (a + b)[|a|..] == b
  {
  }

  /** The message is enqueued, behind an acknowledgement if it was relayed, for exactly the members at the positions that
      the residue stream of the random numbers leaves in the reservoir, in that order; for all members if they are at
      most three. */
  lemma SpreadGoesToPicked(n: Node, c: Cause, f: Frame, random: seq<nat>) returns (rumour: seq<Posting>)
    requires n.phase == Connected && |random| >= |n.members| && Spreads(n, c, f)
    ensures Supplied(n, EventOf(c, random))
    ensures Enqueues(n, EventOf(c, random)) ==
            (if c.NewData? then [Posting(c.src, Frame(0, 0, Ack(f.seqNum)))] else []) + rumour
    ensures SpreadTo(rumour, f, n.members, Picked(|n.members|, random))
  {
    hide DecodeAs, SpreadTo, Picked, SendData, Tick, Receive, Put, Lacks;
    CauseSupplied(n, c, f, random);
    match c {
      case OwnData(data) =>
        rumour := DataSent(n, data, random);
        Suffix(n.created, rumour);
      case NewData(src, datagram) =>
        rumour := DataHandled(n, src, datagram, f, random);
        assert n.created + [Posting(src, Frame(0, 0, Ack(f.seqNum)))] + rumour ==
               n.created + ([Posting(src, Frame(0, 0, Ack(f.seqNum)))] + rumour);
        Suffix(n.created, [Posting(src, Frame(0, 0, Ack(f.seqNum)))] + rumour);
      case OwnClock(now) =>
        rumour := TickDone(n, now, random);
        Suffix(n.created, rumour);
    }
    assert [] + rumour == rumour;
  }

  // ----- how often each member is reached -----

  /** With the residue stream `t`, the member at position `j` gets an envelope. */
  ghost predicate Hears(n: Node, c: Cause, f: Frame, j: nat, t: seq<nat>)
    requires j < |n.members|
  {
    var ev := EventOf(c, [0, 0, 0] + t);
    Supplied(n, ev) && Posting(n.members[j].address, f) in Enqueues(n, ev)
  }

  lemma SpreadReaches(ps: seq<Posting>, f: Frame, members: seq<Member>, at: seq<nat>, j: nat)
    requires SpreadTo(ps, f, members, at) && j < |members|
    requires forall i :: 0 <= i < |members| && i != j ==> members[i].address != members[j].address
    ensures Posting(members[j].address, f) in ps <==> j in at
  {
    if j in at {
      var i :| 0 <= i < |at| && at[i] == j;
      assert ps[i] == Posting(members[j].address, f);
    }
  }

  lemma HearsIf(n: Node, c: Cause, f: Frame, j: nat, t: seq<nat>)
    requires n.phase == Connected && 3 < |n.members| && j < |n.members| && Spreads(n, c, f)
    requires forall i :: 0 <= i < |n.members| && i != j ==> n.members[i].address != n.members[j].address
    requires t in Tails(3, |n.members|)
    ensures Hears(n, c, f, j, t) <==> j in Continue(FirstPositions(3), 3, t)
  {
    hide Spreads, Continue, Tails, SpreadTo, Enqueues, Residues, Supplied;
    var random := [0, 0, 0] + t;
    TailsAre(3, |n.members|, t);
    assert random[3..] == t;
    DrawnStream(3, |n.members|, random);
    var rumour := SpreadGoesToPicked(n, c, f, random);
    SpreadReaches(rumour, f, n.members, Continue(FirstPositions(3), 3, t), j);
    NotAck(n, c, f);
  }

  lemma NotAck(n: Node, c: Cause, f: Frame)
    requires Spreads(n, c, f)
    ensures !f.body.Ack?
  {
    hide DecodeAs, Lacks;
  }

  /** Fair spreading: with more than three members, exactly 3/n of all the residue streams enqueue the message for any
      given member, no other member having its address. */
  lemma SpreadingIsFair(n: Node, c: Cause, f: Frame, j: nat)
    requires n.phase == Connected && 3 < |n.members| && j < |n.members| && Spreads(n, c, f)
    requires forall i :: 0 <= i < |n.members| && i != j ==> n.members[i].address != n.members[j].address
    ensures var streams := Tails(3, |n.members|);
      |set t | t in streams && Hears(n, c, f, j, t)| * |n.members| == 3 * |streams|
    ensures forall t: seq<nat> :: t in Tails(3, |n.members|) <==>
              |t| == |n.members| - 3 && forall i :: 0 <= i < |t| ==> t[i] <= 3 + i
  {
    hide Spreads, Hears, Tails, Continue;
    var streams := Tails(3, |n.members|);
    ReservoirIsFair(3, |n.members|, j);
    forall t | t in streams ensures Hears(n, c, f, j, t) <==> j in Continue(FirstPositions(3), 3, t) {
      HearsIf(n, c, f, j, t);
    }
    assert (set t | t in streams && Hears(n, c, f, j, t)) == Choosers(FirstPositions(3), 3, j, streams);
  }
}
