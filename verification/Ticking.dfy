/** The gossip timer: when a tick gossips the clock, to whom, and how long it tells the caller to wait. */
module Ticking {
  import opened Types
  import opened Rings
  import opened ClockOrder
  import opened DataLogs
  import opened Codec
  import opened Reservoirs
  import opened Members
  import opened Outbound
  import opened Tracking
  import opened Nodes
  import opened NodeInvariants
  import opened NodeEffects
  import opened Handlers

  /** A tick that does anything at all. */
  ghost predicate Gossips(n: Node, ev: Event)
    requires Supplied(n, ev)
  {
    ev.Ticks? && Apply(n, ev) != n
  }

  /** One tick: nothing before the node is connected or before 1000 ms are over, otherwise the node's clock goes to
      random members and the time is noted. */
  lemma TickDone(n: Node, now: nat, random: seq<nat>) returns (gossip: seq<Posting>)
    requires |random| >= |n.members| && |n.clock.items| <= 20
    ensures n.phase != Connected ==> Tick(n, now, random) == Outcome(n, 1000)
    ensures n.phase == Connected && now < n.lastGossipTs + 1000 ==>
              Tick(n, now, random) == Outcome(n, n.lastGossipTs + 1000 - now)
    ensures var r := Tick(n, now, random);
      n.phase == Connected && now >= n.lastGossipTs + 1000 ==>
        && r.code == 1000 && r.node.lastGossipTs == now
        && r.node.created == n.created + gossip
        && SpreadTo(gossip, Frame(0, 0, Status(n.clock.items)), n.members, Picked(|n.members|, random))
        && OnlyQueued(n, r.node.(lastGossipTs := n.lastGossipTs))
  {
    hide PostAll, Fits, Sent, PostingsOf, RandomRecipients, FromSome, SpreadTo, Picked;
    var p := Post(Plain(Status(n.clock.items)), RandomRecipients(n.members, random));
    PostAllFrame(n, [p]);
    PostAllCreates(n, [p]);
    OnePostSent(p);
    RandomSpread(p.frame, n.members, random);
    ReplyFits(p.frame.body);
    gossip := Postings(p.frame, p.recipients);
  }

  // ----- the timer over a run -----

  lemma HandleKeepsTimer(n: Node, src: Address, f: Frame, random: seq<nat>)
    requires |random| >= |n.members|
    ensures Handle(n, src, f, random).node.lastGossipTs == n.lastGossipTs
  {
    hide PostAll, HelloPosts, RandomRecipients, StatusReplies, DirectAll, Put, AddAll, Acknowledged, CompareRecord, NewFrom;
    match f.body {
      case Hello(m) => PostAllFrame(n, HelloPosts(n, src, f));
      case Welcome(_, _) =>
      case MemberList(ms) => PostAllFrame(n.(members := AddAll(n.members, ms)), [Direct(Ack(f.seqNum), src)]);
      case Data(version, payload) =>
        PostAllFrame(n, [Direct(Ack(f.seqNum), src)]);
        PostAllFrame(Accepting(n, version, payload),
                     [Direct(Ack(f.seqNum), src), Post(f, RandomRecipients(n.members, random))]);
      case Ack(_) =>
      case Status(version) =>
        PostAllFrame(n, [Direct(Ack(f.seqNum), src)] + DirectAll(StatusReplies(n.clock, n.log, version), src));
    }
  }

  /** No event but a gossiping tick moves the timer, and that one moves it to its own time, 1000 ms on at least. */
  lemma TimerMoves(n: Node, ev: Event)
    requires Supplied(n, ev) && |n.clock.items| <= 20
    ensures Apply(n, ev).lastGossipTs == if Gossips(n, ev) then ev.now else n.lastGossipTs
    ensures ev.Ticks? ==> (Gossips(n, ev) <==> n.phase == Connected && n.lastGossipTs + 1000 <= ev.now)
  {
    hide PostAll, RandomRecipients, Handle, DecodeAs, Pass, Tick, Put, Picked, SpreadTo;
    match ev {
      case Joins(seeds) => JoinDone(n, seeds);
      case Sends(data, random) => var _ := DataSent(n, data, random);
      case Receives(src, datagram, random) =>
        if Delivers(n, datagram) { HandleKeepsTimer(n, src, DecodeAs(datagram[5], datagram).value, random); }
      case Flushes(_, _) =>
      case Ticks(now, random) => var _ := TickDone(n, now, random);
    }
  }

  lemma RunTimer(self: Member, id: MemberId, states: seq<Node>, events: seq<Event>, k: nat)
    requires NewRun(self, id, states, events) && k < |events|
    ensures |states| == |events| + 1 && Supplied(states[k], events[k]) && states[k + 1] == Apply(states[k], events[k])
    ensures states[k + 1].lastGossipTs == if Gossips(states[k], events[k]) then events[k].now else states[k].lastGossipTs
    ensures events[k].Ticks? ==>
              (Gossips(states[k], events[k]) <==>
               states[k].phase == Connected && states[k].lastGossipTs + 1000 <= events[k].now)
    ensures |states[k].clock.items| <= 20 && (Gossips(states[k], events[k]) ==> events[k].Ticks?)
  {
    hide Apply, QueueInv, JoinInv;
    RunKeeps(self, id, states, events, k);
    assert Steps(states[k], events[k], states[k + 1]);
    TimerMoves(states[k], events[k]);
  }

  /** The timer never goes back. */
  lemma {:induction false} TimerRises(self: Member, id: MemberId, states: seq<Node>, events: seq<Event>, j: nat, k: nat)
    requires NewRun(self, id, states, events) && j <= k < |states|
    ensures states[j].lastGossipTs <= states[k].lastGossipTs
  {
    hide NewRun, Apply, Gossips;
    if j < k {
      RunEvents(self, id, states, events);
      RunTimer(self, id, states, events, k - 1);
      TimerRises(self, id, states, events, j, k - 1);
    }
  }

  lemma RunEvents(self: Member, id: MemberId, states: seq<Node>, events: seq<Event>)
    requires NewRun(self, id, states, events)
    ensures |states| == |events| + 1
    ensures forall k :: 0 <= k < |events| ==> Supplied(states[k], events[k])
  {
    forall k | 0 <= k < |events| ensures Supplied(states[k], events[k]) {
      assert Steps(states[k], events[k], states[k + 1]);
    }
  }

  /** Over any run, two ticks that gossip are at least 1000 ms apart, whatever the clock readings in between. */
  lemma GossipsAreSpaced(self: Member, id: MemberId, states: seq<Node>, events: seq<Event>, i: nat, j: nat)
    requires NewRun(self, id, states, events) && i < j < |events|
    requires Supplied(states[i], events[i]) && Gossips(states[i], events[i])
    requires Supplied(states[j], events[j]) && Gossips(states[j], events[j])
    ensures events[i].now + 1000 <= events[j].now
  {
    hide NewRun, Apply;
    RunTimer(self, id, states, events, i);
    TimerRises(self, id, states, events, i + 1, j);
    RunTimer(self, id, states, events, j);
  }

  /** The wait a tick returns is exact: until some tick has gossiped, the next one does if and only if it comes no
      earlier than the wait said. */
  lemma WaitIsExact(self: Member, id: MemberId, states: seq<Node>, events: seq<Event>, i: nat, j: nat)
    requires NewRun(self, id, states, events) && i < j < |events|
    requires events[i].Ticks? && events[j].Ticks? && states[i].phase == Connected
    requires forall k :: i <= k <= j ==> Supplied(states[k], events[k])
    requires forall k :: i < k < j ==> !Gossips(states[k], events[k])
    ensures Gossips(states[j], events[j]) <==>
            events[i].now + Tick(states[i], events[i].now, events[i].random).code <= events[j].now
  {
    hide NewRun, Apply, Gossips, Tick, Picked, SpreadTo;
    RunTimer(self, id, states, events, i);
    var _ := TickDone(states[i], events[i].now, events[i].random);
    TimerStands(self, id, states, events, i + 1, j);
    RunTimer(self, id, states, events, j);
    JoinProtocol(self, id, states, events, i, j);
  }

  lemma {:induction false} TimerStands(self: Member, id: MemberId, states: seq<Node>, events: seq<Event>, j: nat, k: nat)
    requires NewRun(self, id, states, events) && j <= k < |events|
    requires forall l :: j <= l < k ==> Supplied(states[l], events[l]) && !Gossips(states[l], events[l])
    ensures states[k].lastGossipTs == states[j].lastGossipTs
  {
    hide NewRun, Apply, Gossips;
    if j < k {
      RunTimer(self, id, states, events, k - 1);
      TimerStands(self, id, states, events, j, k - 1);
    }
  }

  /** Until some tick has gossiped, a connected node's tick does if and only if it comes at 1000 or later. */
  lemma FirstGossip(self: Member, id: MemberId, states: seq<Node>, events: seq<Event>, j: nat)
    requires NewRun(self, id, states, events) && j < |events| && events[j].Ticks?
    requires forall k :: 0 <= k <= j ==> Supplied(states[k], events[k])
    requires forall k :: 0 <= k < j ==> !Gossips(states[k], events[k])
    ensures Gossips(states[j], events[j]) <==> states[j].phase == Connected && 1000 <= events[j].now
  {
    hide Apply, Gossips, Run;
    TimerStands(self, id, states, events, 0, j);
    RunTimer(self, id, states, events, j);
  }
}
