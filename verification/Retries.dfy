/** What becomes of every envelope: how often each message is written before a node gives up on it. */
module Retries {
  import opened Types
  import opened Codec
  import opened Members
  import opened Outbound
  import opened SendingPass
  import opened Tracking
  import opened Nodes
  import opened NodeInvariants

  /** A message that nobody acknowledges. */
  predicate Once(m: Message) {
    m.Welcome? || m.Ack?
  }

  /** In every state of every run: the attempts of a queued envelope are the writes of its number, and it is allowed
      one if it carries a welcome or an acknowledgement, otherwise three. */
  lemma AttemptsAreWrites(self: Member, id: MemberId, states: seq<Node>, events: seq<Event>, k: nat, i: nat)
    requires NewRun(self, id, states, events) && k < |states| && i < |states[k].queue|
    ensures var e := states[k].queue[i];
      && e.attempts == CountWrites(states[k].writes, e.seqNum)
      && e.maxAttempts == (if Once(e.frame.body) then 1 else 3)
      && e.attempts <= e.maxAttempts
  {
    hide NewRun, PoolInv, Encode, CountWrites;
    RunKeeps(self, id, states, events, k);
    assert EnvelopeOk(states[k].queue[i], states[k].slots, states[k].created);
    assert Behind(states[k].queue[i], states[k].writes);
  }

  // ----- one pass -----

  ghost predicate Occurs(ws: seq<Write>, from: nat, n: uint32) {
    exists j :: from <= j < |ws| && ws[j].seqNum == n
  }

  /** Of writes whose numbers are distinct from position `from` on, at most one has number `n`. */
  lemma {:induction false} CountDistinct(ws: seq<Write>, from: nat, n: uint32)
    requires from <= |ws| && forall i, j :: from <= i < j < |ws| ==> ws[i].seqNum != ws[j].seqNum
    ensures CountWrites(ws, n) == CountWrites(ws[..from], n) + if Occurs(ws, from, n) then 1 else 0
  {
    var k := |ws| - 1;
    if from < |ws| {
      CountDistinct(ws[..k], from, n);
      assert ws[..k][..from] == ws[..from];
      assert forall j :: from <= j < k ==> ws[..k][j] == ws[j];
      assert Occurs(ws, from, n) <==> Occurs(ws[..k], from, n) || ws[k].seqNum == n;
    } else {
      assert ws[..from] == ws;
    }
  }

  lemma StayingOneIs(q: seq<Envelope>, times: seq<nat>, i: nat, x: Envelope)
    requires i < |q| <= |times| && x in StayingOne(q, times, i)
    ensures x.seqNum == q[i].seqNum
  {
    hide Asked, Goes, ReadingFor;
  }

  lemma {:induction false} StayingHas(q: seq<Envelope>, times: seq<nat>, a: nat, end: nat, i: nat, x: Envelope)
    requires a <= end <= |q| <= |times| && i < |q| && Increasing(q) && x.seqNum == q[i].seqNum
    ensures x in Staying(q, times, a, end) <==> a <= i < end && x in StayingOne(q, times, i)
    decreases end - a
  {
    hide StayingOne;
    if a < end {
      StayingHas(q, times, a + 1, end, i, x);
      if x in StayingOne(q, times, a) { StayingOneIs(q, times, a, x); }
    }
  }

  /** After the pass: the envelope at position `i`, and the writes of its number. */
  lemma PassFate(q: seq<Envelope>, slots: Slots, members: seq<Member>, writes: seq<Write>,
                 times: seq<nat>, budget: nat, i: nat)
    requires i < |q| <= |times| && Increasing(q)
    ensures var r := Pass(StartPass(q, slots, members, writes), times, budget);
      var end := StopAt(q, times, budget, 0);
      && CountWrites(r.writes, q[i].seqNum)
         == CountWrites(writes, q[i].seqNum) + (if i < end && Goes(q, times, i) then 1 else 0)
      && forall x: Envelope :: x.seqNum == q[i].seqNum ==>
           (x in r.Queue() <==> if i < end then x in StayingOne(q, times, i) else x == q[i])
  {
    hide Pass, StopAt, Staying, StayingOne, Goes, Going, Remaining, ReadingFor, CountWrites;
    PassWritesExactly(q, slots, members, writes, times, budget);
    var r := Pass(StartPass(q, slots, members, writes), times, budget);
    var end := StopAt(q, times, budget, 0);
    forall x: Envelope | x.seqNum == q[i].seqNum
      ensures x in r.Queue() <==> if i < end then x in StayingOne(q, times, i) else x == q[i]
    {
      StayingHas(q, times, 0, end, i, x);
      assert x in q[end..] <==> end <= i && x == q[i] by { assert forall j :: end <= j < |q| ==> q[j] in q[end..]; }
    }
    NewNumbers(q, times, budget, writes, r.writes, i);
    CountDistinct(r.writes, |writes|, q[i].seqNum);
    assert r.writes[..|writes|] == writes;
  }

  /** The numbers written are distinct, and the one of the envelope at position `i` is among them if it goes. */
  lemma NewNumbers(q: seq<Envelope>, times: seq<nat>, budget: nat, writes: seq<Write>, ws: seq<Write>, i: nat)
    requires i < |q| <= |times| && Increasing(q) && writes <= ws
    requires var g := Going(q, times, 0);
      |ws| == |writes| + (if budget < |g| then budget else |g|)
      && forall k :: 0 <= k < |ws| - |writes| ==>
           g[k] < |q| && WriteOf(ws[|writes| + k], q[g[k]], ReadingFor(q, times, g[k]))
    ensures forall j, k :: |writes| <= j < k < |ws| ==> ws[j].seqNum != ws[k].seqNum
    ensures Occurs(ws, |writes|, q[i].seqNum) <==> i < StopAt(q, times, budget, 0) && Goes(q, times, i)
  {
    hide *;
    var g := Going(q, times, 0);
    GoingRises(q, times, 0);
    GoingAre(q, times, 0, i);
    StopIs(q, times, budget, 0);
    forall k | 0 <= k < |ws| - |writes| ensures ws[|writes| + k].seqNum == q[g[k]].seqNum {
      SameNumber(ws[|writes| + k], q[g[k]], ReadingFor(q, times, g[k]));
    }
    PickedNumbers(q, g, ws, |writes|, i);
    forall k | 0 <= k < |g| && g[k] == i
      ensures k < |ws| - |writes| <==> i < StopAt(q, times, budget, 0)
    {
      BelowStop(g, budget, |q|, k);
    }
  }

  lemma SameNumber(w: Write, e: Envelope, time: nat)
    requires WriteOf(w, e, time)
    ensures w.seqNum == e.seqNum
  {
  }

  lemma BelowStop(g: seq<nat>, budget: nat, n: nat, k: nat)
    requires Rises(g, 0, n) && k < |g|
    ensures k < (if budget < |g| then budget else |g|) <==> g[k] < if budget < |g| then g[budget] else n
  {
  }

  lemma PickedNumbers(q: seq<Envelope>, g: seq<nat>, ws: seq<Write>, m: nat, i: nat)
    requires m <= |ws| <= m + |g| && i < |q| && Rises(g, 0, |q|) && Increasing(q)
    requires forall k :: 0 <= k < |ws| - m ==> ws[m + k].seqNum == q[g[k]].seqNum
    ensures forall j, k :: m <= j < k < |ws| ==> ws[j].seqNum != ws[k].seqNum
    ensures Occurs(ws, m, q[i].seqNum) <==> exists k :: 0 <= k < |ws| - m && g[k] == i
  {
    forall j | m <= j < |ws| ensures ws[j].seqNum == q[g[j - m]].seqNum { assert ws[j] == ws[m + (j - m)]; }
    if k :| 0 <= k < |ws| - m && g[k] == i { assert ws[m + k].seqNum == q[i].seqNum; }
  }

  // ----- over runs -----

  /** Some envelope in the queue has the number. */
  predicate Queued(q: seq<Envelope>, n: uint32) {
    exists j :: 0 <= j < |q| && q[j].seqNum == n
  }

  /** What becomes of envelope `e`, with `before` writes of its number so far, when a pass at time `now` gets to it. */
  ghost predicate Fate(e: Envelope, dropped: bool, now: nat, before: nat, after: nat, q': seq<Envelope>) {
    if dropped then !Queued(q', e.seqNum) && after == before
    else if Once(e.frame.body) then !Queued(q', e.seqNum) && after == 1
    else if before == 3 then !Queued(q', e.seqNum) && after == 3
    else if before > 0 && e.attemptTs + 10000 > now then e in q' && after == before
    else e.(attempts := before + 1, attemptTs := now) in q' && after == before + 1
  }

  /** In every pass of every run: an envelope that wants an acknowledgement is given up after exactly three writes, or
      with one in front of it for the same recipient; before that it is written once more as soon as it is due. A welcome
      or an acknowledgement is written once and is gone. What the pass does not get to stays as it is. */
  lemma EnvelopeFate(self: Member, id: MemberId, states: seq<Node>, events: seq<Event>, k: nat, now: nat, i: nat)
    requires NewRun(self, id, states, events) && k < |events| && i < |states[k].queue|
    requires events[k].Flushes? && Supplied(states[k], events[k]) && Steady(events[k].times, now)
    ensures var n, n', ev := states[k], states[k + 1], events[k];
      var e := n.queue[i];
      var before, after := CountWrites(n.writes, e.seqNum), CountWrites(n'.writes, e.seqNum);
      if i < StopAt(n.queue, ev.times, ev.budget, 0) then Fate(e, Dropped(n.queue, i), now, before, after, n'.queue)
      else e in n'.queue && after == before
  {
    hide NewRun, Run, Pass, StopAt, StayingOne, Goes, Dropped, CountWrites, NodeInv, Fate, Queued;
    RunSteps(self, id, states, events, k);
    var n, ev := states[k], events[k];
    RunKeeps(self, id, states, events, k);
    QueueIsNumbered(self, id, states, events, k);
    AttemptsAreWrites(self, id, states, events, k, i);
    QueuedIsActive(n);
    PassFate(n.queue, n.slots, n.members, n.writes, ev.times, ev.budget, i);
    if i < StopAt(n.queue, ev.times, ev.budget, 0) {
      StayingFate(n.queue, ev.times, now, i, CountWrites(n.writes, n.queue[i].seqNum), states[k + 1].queue);
    }
  }

  lemma RunSteps(self: Member, id: MemberId, states: seq<Node>, events: seq<Event>, k: nat)
    requires NewRun(self, id, states, events) && k < |events|
    ensures |states| == |events| + 1 && Steps(states[k], events[k], states[k + 1])
  {
  }

  lemma QueuedIsActive(n: Node)
    requires NodeInv(n)
    ensures n.queue != [] ==> n.phase != Initialized
  {
    if n.queue != [] { assert EnvelopeOk(n.queue[0], n.slots, n.created); }
  }

  lemma StayingFate(q: seq<Envelope>, times: seq<nat>, now: nat, i: nat, before: nat, q': seq<Envelope>)
    requires i < |q| <= |times| && Steady(times, now)
    requires q[i].attempts == before <= q[i].maxAttempts == (if Once(q[i].frame.body) then 1 else 3)
    requires forall x: Envelope :: x.seqNum == q[i].seqNum ==> (x in q' <==> x in StayingOne(q, times, i))
    ensures Fate(q[i], Dropped(q, i), now, before, before + if Goes(q, times, i) then 1 else 0, q')
  {
    hide Dropped;
  }
}
