/** Two runs in which the clock readings of a pass matter. */
module ClockRuns {
  import opened Types
  import opened Codec
  import opened DataLogs
  import opened Reservoirs
  import opened Members
  import opened Outbound
  import opened SendingPass
  import opened Tracking
  import opened Nodes
  import opened NodeInvariants
  import opened NodeEffects
  import opened LooseRuns

  // ----- a pass that leaves an available message unsent -----

  function HelloEvents(seed: Address): seq<Event> {
    [Joins([seed]), Flushes([0], 1), Flushes([5000], 1)]
  }

  lemma HelloIsQueued(n: Node, seed: Address)
    requires n.phase == Initialized && n.queue == []
    ensures var n' := Join(n, [seed]).node;
      && n'.phase == Joining && n'.latest == n.latest && |n'.created| == |n.created| + 1 && n'.published == n.published
      && |n'.queue| == 1 && n'.queue[0].attempts == 0 && n'.queue[0].maxAttempts == MESSAGE_RETRY_ATTEMPTS
  {
    hide Acquire, Encode, Enqueued, Stored, PostAll;
    var p := Direct(Hello(n.self), seed);
    assert HelloToAll(n.self, [seed]) == [p];
    PostFirst(n, p);
    EncodedFits(p.frame);
    EmptyPool();
    EnqueuedSlots([], n.sequenceNum, p.frame, 0, |Encode(p.frame)|, [seed]);
  }

  /** For any new node and any seed: the second pass, 5000 ms after the first, finds the hello queued with attempts
      left, and writes nothing. */
  lemma WaitingIsNotWritten(self: Member, id: MemberId, seed: Address) returns (states: seq<Node>)
    ensures NewRun(self, id, states, HelloEvents(seed))
    ensures |states[2].queue| == 1 && states[3].writes == states[2].writes
    ensures states[2].queue[0].attempts < states[2].queue[0].maxAttempts
  {
    hide Join, InitialNode, Pass;
    var n := InitialNode(self, id);
    InitialIsEmpty(self, id);
    HelloIsQueued(n, seed);
    var s1 := Apply(n, Joins([seed]));
    FlushOne(s1, 0);
    var s2 := Apply(s1, Flushes([0], 1));
    FlushOne(s2, 5000);
    assert Steady([0], 0) && Steady([5000], 5000);
    states := [n, s1, s2, Apply(s2, Flushes([5000], 1))];
  }

  lemma InitialIsEmpty(self: Member, id: MemberId)
    ensures var n := InitialNode(self, id);
      n.phase == Initialized && n.queue == [] && n.latest == 0 && n.created == [] && n.published == []
  {
  }

  /** A pass over one envelope that is not yet out of attempts. */
  lemma FlushOne(n: Node, now: nat)
    requires n.phase != Initialized && now >= n.latest
    requires |n.queue| == 1 && !Exhausted(n.queue[0]) && n.queue[0].maxAttempts > 1
    ensures var n' := Apply(n, Flushes([now], 1));
      && n'.phase == n.phase && n'.created == n.created && n'.published == n.published && n'.latest == now
      && n'.queue == [if Waiting(n.queue[0], now) then n.queue[0] else Attempted(n.queue[0], now)]
      && (Waiting(n.queue[0], now) ==> n'.writes == n.writes)
  {
    hide Patched, RemoveByAddress, Waiting, Exhausted;
    var c := Cursor([], n.queue, n.slots, n.members, n.writes, false);
    var c' := if Waiting(n.queue[0], now) then Skip(c) else Transmit(c, now, true);
    assert Pass(c, [now], 1) == Pass(c', [now][1..], if Waiting(n.queue[0], now) then 1 else 0) == c';
  }

  // ----- a pass that breaks the pool -----

  const ENVELOPES: nat := 2 * MAX_OUTPUT_MESSAGES

  /** Two members are announced to a lone node. */
  function Announcement(m1: Member, m2: Member): (b: Bytes)
    ensures |b| <= MESSAGE_MAX_SIZE
  {
    var f := Frame(0, 1, MemberList([m1, m2]));
    EncodedFits(f);
    Encode(f)
  }

  function Zeros(n: nat): (s: seq<nat>)
    ensures |s| == n && forall i :: 0 <= i < n ==> s[i] == 0
  {
    seq(n, _ => 0)
  }

  /** The clock stands at 9999 for the first envelope and reads 10000 from the second on. */
  function LateReadings(n: nat): (times: seq<nat>)
    ensures |times| == n && forall i :: 0 <= i < n ==> times[i] == if i == 0 then 9999 else 10000
  {
    seq(n, i => if i == 0 then 9999 else 10000)
  }

  /** The events: join alone, learn of two members, send the acknowledgement, send 100 empty payloads, and two passes. */
  ghost function EventAt(m1: Member, m2: Member, src: Address, i: nat, n: Node): (ev: Event)
    ensures Supplied(n, ev)
  {
    if i == 0 then Joins([])
    else if i == 1 then Receives(src, Announcement(m1, m2), Zeros(|n.members|))
    else if 3 <= i < 3 + MAX_OUTPUT_MESSAGES then Sends([], Zeros(|n.members|))
    else if i == 4 + MAX_OUTPUT_MESSAGES then Flushes(LateReadings(|n.queue|), |n.queue|)
    else Flushes(Zeros(|n.queue|), |n.queue|)
  }

  ghost function StateAt(self: Member, id: MemberId, m1: Member, m2: Member, src: Address, i: nat): Node {
    if i == 0 then InitialNode(self, id)
    else
      var n := StateAt(self, id, m1, m2, src, i - 1);
      Apply(n, EventAt(m1, m2, src, i - 1, n))
  }

  const EVENTS: nat := 5 + MAX_OUTPUT_MESSAGES

  ghost function States(self: Member, id: MemberId, m1: Member, m2: Member, src: Address): seq<Node> {
    seq(EVENTS + 1, i requires 0 <= i => StateAt(self, id, m1, m2, src, i))
  }

  ghost function Events(self: Member, id: MemberId, m1: Member, m2: Member, src: Address): seq<Event> {
    seq(EVENTS, i requires 0 <= i => EventAt(m1, m2, src, i, StateAt(self, id, m1, m2, src, i)))
  }

  // ----- filling the pool -----

  /** `i` messages are queued for two members each, slot by slot, with the same number of attempts. */
  ghost predicate Paired(q: seq<Envelope>, i: nat, attempts: nat) {
    |q| == 2 * i && forall j :: 0 <= j < |q| ==>
      q[j].slot == j / 2 && q[j].attempts == attempts && q[j].maxAttempts == MESSAGE_RETRY_ATTEMPTS && q[j].attemptTs == 0
  }

  lemma NextPair(q: seq<Envelope>, i: nat)
    requires Paired(q, i, 0) && i < MAX_OUTPUT_MESSAGES
    ensures Acquire(q) == Acquired(q, i) && !Occupied(q, i)
  {
    forall k | 0 <= k < i ensures Occupied(q, k) { assert q[2 * k].slot == k; }
    assert !Occupied(q, i);
    assert FreeSlotFrom(q, 0) == i;
  }

  lemma SendPairs(n: Node, i: nat)
    requires n.phase == Connected && |n.members| == 2 && Paired(n.queue, i, 0) && i < MAX_OUTPUT_MESSAGES
    ensures var n' := SendData(n, [], Zeros(|n.members|)).node;
      n'.phase == Connected && n'.members == n.members && Paired(n'.queue, i + 1, 0)
  {
    hide Acquire, Encode, Enqueued, Stored, Recorded, Occupied, OldestUpTo, FreeSlotFrom, PostAll;
    var m := Publishing(n, []);
    var f := Plain(Data(Entry(n.id, Increment(n.dataCounter)), []));
    var p := Post(f, RandomRecipients(n.members, Zeros(|n.members|)));
    PostFirst(m, p);
    NextPair(n.queue, i);
    EncodedFits(f);
    EnqueuedSlots(n.queue, n.sequenceNum, f, i, |Encode(f)|, p.recipients);
  }

  lemma AnnouncementReads(m1: Member, m2: Member)
    ensures var b, f := Announcement(m1, m2), Frame(0, 1, MemberList([m1, m2]));
      |b| >= HEADER_SIZE && b[5] == MEMBER_LIST && DecodeAs(b[5], b) == Ok(f)
  {
    hide Encode, DecodeAs;
    var f := Frame(0, 1, MemberList([m1, m2]));
    HeaderReadsBack(f);
    RoundTrip(f, MEMBER_LIST);
  }

  lemma TwoMembers(m1: Member, m2: Member)
    requires m1 != m2
    ensures AddAll([], [m1, m2]) == [m1, m2]
  {
    assert [m1, m2][..1] == [m1] && [m1][..0] == [];
    assert AddAll([], [m1]) == AddOne([], m1) == [m1];
    assert AddOne([m1], m2) == [m1, m2];
  }

  lemma AnnouncementArrives(n: Node, m1: Member, m2: Member, src: Address, random: seq<nat>)
    requires n.phase == Connected && n.members == [] && n.queue == [] && m1 != m2
    ensures var n' := Receive(n, src, Announcement(m1, m2), random).node;
      && n'.phase == Connected && n'.members == [m1, m2] && |n'.queue| == 1
      && n'.queue[0].attempts == 0 && n'.queue[0].maxAttempts == 1
  {
    hide Acquire, Encode, Enqueued, Stored, PostAll, DecodeAs, Announcement, AddAll, Fits;
    AnnouncementReads(m1, m2);
    TwoMembers(m1, m2);
    var p := Direct(Ack(1), src);
    PostFirst(n.(members := [m1, m2]), p);
    EncodedFits(p.frame);
    EmptyPool();
    EnqueuedSlots([], n.sequenceNum, p.frame, 0, |Encode(p.frame)|, [src]);
  }

  lemma Announced(self: Member, id: MemberId, m1: Member, m2: Member, src: Address)
    requires m1 != m2
    ensures var n := StateAt(self, id, m1, m2, src, 2);
      && n.phase == Connected && n.members == [m1, m2] && |n.queue| == 1
      && n.queue[0].attempts == 0 && n.queue[0].maxAttempts == 1
  {
    hide StateAt, Receive, Announcement;
    NextState(self, id, m1, m2, src, 0);
    NextState(self, id, m1, m2, src, 1);
    FirstState(self, id, m1, m2, src);
    var n := StateAt(self, id, m1, m2, src, 1);
    assert n.phase == Connected && n.members == [] && n.queue == [];
    AnnouncementArrives(n, m1, m2, src, Zeros(|n.members|));
    assert StateAt(self, id, m1, m2, src, 2) == Apply(n, EventAt(m1, m2, src, 1, n));
    assert EventAt(m1, m2, src, 1, n) == Receives(src, Announcement(m1, m2), Zeros(|n.members|));
  }

  /** A pass whose writes succeed. */
  lemma FlushLeaves(n: Node, times: seq<nat>)
    requires n.phase != Initialized && |times| == |n.queue|
    ensures var n' := Apply(n, Flushes(times, |n.queue|));
      n'.queue == Staying(n.queue, times, 0, |n.queue|) && n'.phase == n.phase
  {
    hide Pass, Staying, Going, Goes, Remaining, StopAt;
    PassWritesExactly(n.queue, n.slots, n.members, n.writes, times, |n.queue|);
    GoingCount(n.queue, times, 0);
    AllOf(Staying(n.queue, times, 0, |n.queue|), n.queue);
  }

  /** The acknowledgement is sent once, and is gone. */
  lemma Started(self: Member, id: MemberId, m1: Member, m2: Member, src: Address)
    requires m1 != m2
    ensures var n := StateAt(self, id, m1, m2, src, 3);
      n.phase == Connected && n.members == [m1, m2] && n.queue == []
  {
    hide Patched, RemoveByAddress;
    Announced(self, id, m1, m2, src);
    var n := StateAt(self, id, m1, m2, src, 2);
    hide StateAt;
    var times := Zeros(|n.queue|);
    var c := Cursor([], n.queue, n.slots, n.members, n.writes, false);
    assert StateAt(self, id, m1, m2, src, 3) == Apply(n, Flushes(times, 1)) by { NextState(self, id, m1, m2, src, 2); }
    assert Pass(c, times, 1) == Pass(Transmit(c, 0, true), times[1..], 0) == Transmit(c, 0, true);
  }

  lemma NextState(self: Member, id: MemberId, m1: Member, m2: Member, src: Address, i: nat)
    ensures var n := StateAt(self, id, m1, m2, src, i);
      StateAt(self, id, m1, m2, src, i + 1) == Apply(n, EventAt(m1, m2, src, i, n))
  {
    hide Apply, EventAt;
  }

  lemma {:induction false} Filled(self: Member, id: MemberId, m1: Member, m2: Member, src: Address, i: nat)
    requires m1 != m2 && i <= MAX_OUTPUT_MESSAGES
    ensures var n := StateAt(self, id, m1, m2, src, 3 + i);
      n.phase == Connected && |n.members| == 2 && Paired(n.queue, i, 0)
    decreases i
  {
    hide StateAt, SendData, Announcement;
    if i == 0 {
      Started(self, id, m1, m2, src);
    } else {
      Filled(self, id, m1, m2, src, i - 1);
      NextState(self, id, m1, m2, src, 2 + i);
      SendPairs(StateAt(self, id, m1, m2, src, 2 + i), i - 1);
    }
  }

  // ----- the two passes -----

  /** Everything is sent at time 0. */
  lemma FirstPass(self: Member, id: MemberId, m1: Member, m2: Member, src: Address)
    requires m1 != m2
    ensures var n := StateAt(self, id, m1, m2, src, 4 + MAX_OUTPUT_MESSAGES);
      n.phase == Connected && Paired(n.queue, MAX_OUTPUT_MESSAGES, 1)
  {
    hide StateAt, Apply, Announcement, Staying, Again;
    var i := 3 + MAX_OUTPUT_MESSAGES;
    Filled(self, id, m1, m2, src, MAX_OUTPUT_MESSAGES);
    NextState(self, id, m1, m2, src, i);
    var n := StateAt(self, id, m1, m2, src, i);
    var times := Zeros(|n.queue|);
    FlushLeaves(n, times);
    AllStay(n.queue, times, 0);
  }

  /** The first envelope waits, the others overtake it, the one that shares its slot among them. */
  ghost predicate Overtaken(q: seq<Envelope>) {
    |q| == ENVELOPES && forall j :: 0 <= j < |q| ==> q[j].slot == j / 2 && q[j].attempts == if j == 0 then 1 else 2
  }

  lemma SecondPass(self: Member, id: MemberId, m1: Member, m2: Member, src: Address)
    requires m1 != m2
    ensures Overtaken(StateAt(self, id, m1, m2, src, EVENTS).queue)
  {
    hide StateAt, Apply, Announcement, Staying, Again;
    var i := 4 + MAX_OUTPUT_MESSAGES;
    FirstPass(self, id, m1, m2, src);
    NextState(self, id, m1, m2, src, i);
    var n := StateAt(self, id, m1, m2, src, i);
    var times := LateReadings(|n.queue|);
    FlushLeaves(n, times);
    AllStay(n.queue, times, 0);
  }

  lemma OvertakenIsUnsafe(q: seq<Envelope>)
    requires Overtaken(q)
    ensures Occupied(Acquire(q).queue, Acquire(q).slot)
  {
    hide Acquire, Cut, RunEnd;
    forall k | 0 <= k < MAX_OUTPUT_MESSAGES ensures Occupied(q, k) { assert q[2 * k].slot == k; }
    assert Contiguous(q);
    assert OldestUpTo(q, |q|) == 1 by { assert q[0].attempts == 1 && q[1].attempts == 2; }
    assert q[0].slot == q[1].slot;
    AcquireFreesExactly(q);
  }

  lemma OnePostSafe(n: Node, p: Post)
    requires NextSlotUnused(n)
    ensures PostsSafely(n, [p])
  {
    hide NextSlotUnused, Fits;
    assert [p][..0] == [];
  }

  lemma NoPostSafe(n: Node)
    ensures PostsSafely(n, [])
  {
  }

  /** Until then every message gets an unused slot. */
  lemma FillingIsSafe(self: Member, id: MemberId, m1: Member, m2: Member, src: Address, i: nat)
    requires m1 != m2 && i < EVENTS
    ensures var n := StateAt(self, id, m1, m2, src, i);
      PostsSafely(n, EventPosts(n, EventAt(m1, m2, src, i, n)))
  {
    hide StateAt, PostsSafely, Announcement, RandomRecipients, DecodeAs, Acquire, Occupied, Paired;
    var n := StateAt(self, id, m1, m2, src, i);
    NoPostSafe(n);
    EmptyPool();
    if i == 1 {
      FirstState(self, id, m1, m2, src);
      NextState(self, id, m1, m2, src, 0);
      AnnouncementReads(m1, m2);
      assert !Occupied([], 0) by { NothingOccupied(); }
      OnePostSafe(n, Direct(Ack(1), src));
    } else if 3 <= i < 3 + MAX_OUTPUT_MESSAGES {
      Filled(self, id, m1, m2, src, i - 3);
      NextPair(n.queue, i - 3);
      OnePostSafe(n, SendPosts(n, [], Zeros(|n.members|))[0]);
    }
  }

  lemma NothingOccupied()
    ensures !Occupied([], 0)
  {
  }

  /** For any node, two members and a source: this run, whose clock never goes back but ticks between the first two
      readings of its last pass, gives every message an unused slot, and the next one a slot that stays in use. */
  lemma TickingPassBreaksSlots(self: Member, id: MemberId, m1: Member, m2: Member, src: Address)
    requires m1 != m2
    ensures var states, events := States(self, id, m1, m2, src), Events(self, id, m1, m2, src);
      && NewLooseRun(self, id, states, events)
      && (forall i {:trigger events[i]} :: 0 <= i < EVENTS - 1 && events[i].Flushes? ==>
            forall j :: 0 <= j < |events[i].times| ==> events[i].times[j] == 0)
      && events[EVENTS - 1] == Flushes(LateReadings(ENVELOPES), ENVELOPES)
      && SafeSoFar(states, events)
      && !NextSlotUnused(states[EVENTS])
  {
    hide Apply, Overtaken, Paired, Acquire, Occupied, StateAt, Announcement, InitialNode, PostsSafely, EventPosts;
    var states, events := States(self, id, m1, m2, src), Events(self, id, m1, m2, src);
    forall i | 0 <= i < EVENTS ensures LooseStep(states[i], events[i], states[i + 1]) {
      NextState(self, id, m1, m2, src, i);
    }
    forall i {:trigger events[i]} | 0 <= i < EVENTS ensures PostsSafely(states[i], EventPosts(states[i], events[i])) {
      FillingIsSafe(self, id, m1, m2, src, i);
    }
    FirstState(self, id, m1, m2, src);
    SecondPass(self, id, m1, m2, src);
    OvertakenIsUnsafe(states[EVENTS].queue);
    FullPool(self, id, m1, m2, src);
  }

  lemma FirstState(self: Member, id: MemberId, m1: Member, m2: Member, src: Address)
    ensures StateAt(self, id, m1, m2, src, 0) == InitialNode(self, id)
  {
    hide InitialNode;
  }

  lemma FullPool(self: Member, id: MemberId, m1: Member, m2: Member, src: Address)
    requires m1 != m2
    ensures |StateAt(self, id, m1, m2, src, EVENTS - 1).queue| == ENVELOPES
  {
    hide StateAt;
    FirstPass(self, id, m1, m2, src);
  }
}
