/** Runs whose wall clock may tick, or jump, between any two readings of a pass: exactly when the pool stays safe. */
module LooseRuns {
  import opened Types
  import opened Codec
  import opened Members
  import opened Outbound
  import opened Tracking
  import opened Nodes
  import opened NodeInvariants
  import opened NodeEffects
  import opened DataLogs
  import opened ClockOrder
  import opened Rings

  /** As `Run`, with any clock readings at all. */
  ghost predicate LooseRun(states: seq<Node>, events: seq<Event>) {
    && |states| == |events| + 1
    && forall i {:trigger events[i]} :: 0 <= i < |events| ==> LooseStep(states[i], events[i], states[i + 1])
  }

  ghost predicate LooseStep(n: Node, ev: Event, n': Node) {
    Supplied(n, ev) && n' == Apply(n, ev)
  }

  ghost predicate NewLooseRun(self: Member, id: MemberId, states: seq<Node>, events: seq<Event>) {
    LooseRun(states, events) && states[0] == InitialNode(self, id)
  }

  // ----- posting -----

  /** The next message gets a slot that no queued envelope uses. */
  ghost predicate NextSlotUnused(n: Node) {
    !Occupied(Acquire(n.queue).queue, Acquire(n.queue).slot)
  }

  /** Each of these messages, posted in turn, gets an unused slot. */
  ghost predicate PostsSafely(n: Node, ps: seq<Post>) {
    ps != [] ==>
      var front := ps[..|ps| - 1];
      PostsSafely(n, front) && (AllFit(front) ==> NextSlotUnused(PostAll(n, front)))
  }

  lemma CutKeepsContiguous(q: seq<Envelope>, i: nat, j: nat)
    requires i <= j <= |q| && Contiguous(q)
    ensures Contiguous(Cut(q, i, j))
  {
    var q' := Cut(q, i, j);
    assert forall k :: 0 <= k < |q'| ==> q'[k] == q[if k < i then k else k + (j - i)];
  }

  lemma AcquireKeepsContiguous(q: seq<Envelope>)
    requires Contiguous(q)
    ensures Contiguous(Acquire(q).queue)
  {
    hide Acquire, Contiguous, Cut, RunEnd, OldestUpTo, FreeSlotFrom;
    AcquireIs(q);
    if FreeSlotFrom(q, 0) == MAX_OUTPUT_MESSAGES {
      var o := OldestUpTo(q, |q|);
      CutKeepsContiguous(q, o, RunEnd(q, o, q[o].slot));
    }
  }

  lemma {:induction false} EnqueuedSlots(q: seq<Envelope>, n: uint32, f: Frame, slot: SlotIndex, size: DatagramSize,
                                         recipients: seq<Address>)
    ensures var r := Enqueued(q, n, f, slot, size, recipients).queue;
      && |r| == |q| + |recipients| && r[..|q|] == q
      && forall i :: |q| <= i < |r| ==>
           r[i].slot == slot && r[i].attempts == 0 && r[i].attemptTs == 0 && r[i].maxAttempts == MaxAttempts(f.body)
  {
    if recipients != [] { EnqueuedSlots(q, n, f, slot, size, recipients[..|recipients| - 1]); }
  }

  lemma AppendKeepsContiguous(q: seq<Envelope>, r: seq<Envelope>, slot: SlotIndex)
    requires Contiguous(q) && !Occupied(q, slot) && |q| <= |r| && r[..|q|] == q
    requires forall i :: |q| <= i < |r| ==> r[i].slot == slot
    ensures Contiguous(r)
  {
    assert forall i :: 0 <= i < |q| ==> r[i] == q[i] && q[i].slot != slot;
  }

  lemma PostOneKeepsContiguous(n: Node, p: Post)
    requires Contiguous(n.queue) && NextSlotUnused(n)
    ensures Contiguous(PostOne(n, p).queue)
  {
    hide Contiguous, Acquire, Occupied, Encode, Enqueued, Stored, Fits;
    AcquireKeepsContiguous(n.queue);
    if Fits(p.frame.body) {
      EncodedFits(p.frame);
      var a := Acquire(n.queue);
      EnqueuedSlots(a.queue, n.sequenceNum, p.frame, a.slot, |Encode(p.frame)|, p.recipients);
      AppendKeepsContiguous(a.queue, PostOne(n, p).queue, a.slot);
    }
  }

  lemma {:induction false} PostAllKeepsContiguous(n: Node, ps: seq<Post>)
    requires Contiguous(n.queue) && PostsSafely(n, ps)
    ensures Contiguous(PostAll(n, ps).queue)
  {
    hide Contiguous, PostOne, NextSlotUnused, Fits, AllFit;
    if ps != [] {
      var front := ps[..|ps| - 1];
      PostAllKeepsContiguous(n, front);
      if AllFit(front) { PostOneKeepsContiguous(PostAll(n, front), ps[|ps| - 1]); }
    }
  }

  /** Where messages go depends on the queue and the counter alone. */
  lemma {:induction false} PostAllSame(n: Node, m: Node, ps: seq<Post>)
    requires n.queue == m.queue && n.sequenceNum == m.sequenceNum
    ensures PostAll(n, ps).queue == PostAll(m, ps).queue && PostAll(n, ps).sequenceNum == PostAll(m, ps).sequenceNum
  {
    hide Acquire, Enqueued, Encode, Stored, Fits, AllFit;
    if ps != [] { PostAllSame(n, m, ps[..|ps| - 1]); }
  }

  // ----- sending -----

  /** A pass, whatever its clock readings and whichever write fails, keeps every group of envelopes together. */
  lemma {:induction false} PassKeepsContiguous(c: Cursor, times: seq<nat>, budget: nat)
    requires c.failed || |times| >= |c.rest|
    requires Contiguous(c.Queue())
    ensures Contiguous(Pass(c, times, budget).Queue())
    decreases |c.rest|, if c.failed then 0 else 1
  {
    hide Contiguous, Patched, RemoveByAddress, Waiting, Exhausted;
    if c.rest != [] && !c.failed {
      if Exhausted(c.rest[0]) {
        ExpireCuts(c);
        var k := if c.rest[0].maxAttempts > 1 then SameRecipientEnd(c.rest, 1, c.rest[0].recipient) else 1;
        CutKeepsContiguous(c.Queue(), |c.done|, |c.done| + k);
        PassKeepsContiguous(Expire(c), times, budget);
      } else if Waiting(c.rest[0], times[0]) {
        assert Skip(c).Queue() == c.Queue();
        PassKeepsContiguous(Skip(c), times[1..], budget);
      } else {
        TransmitKeepsContiguous(c, times[0], budget > 0);
        PassKeepsContiguous(Transmit(c, times[0], budget > 0), times[1..], if budget > 0 then budget - 1 else 0);
      }
    }
  }

  lemma TransmitKeepsContiguous(c: Cursor, now: nat, ok: bool)
    requires c.rest != [] && Contiguous(c.Queue())
    ensures Contiguous(Transmit(c, now, ok).Queue())
  {
    hide Patched, Contiguous;
    var q, n := c.Queue(), |c.done|;
    var c' := Transmit(c, now, ok);
    if ok && c.rest[0].maxAttempts <= 1 {
      assert c'.Queue() == Cut(q, n, n + 1);
      CutKeepsContiguous(q, n, n + 1);
    } else if ok {
      assert c'.Queue() == q[n := Attempted(q[n], now)];
      AttemptKeepsContiguous(q, n, now);
    }
  }

  lemma AttemptKeepsContiguous(q: seq<Envelope>, n: nat, now: nat)
    requires n < |q| && Contiguous(q)
    ensures Contiguous(q[n := Attempted(q[n], now)])
  {
    var q' := q[n := Attempted(q[n], now)];
    assert forall i :: 0 <= i < |q| ==> q'[i].slot == q[i].slot;
  }

  // ----- runs -----

  lemma AcknowledgedKeepsContiguous(q: seq<Envelope>, s: uint32)
    requires Contiguous(q)
    ensures Contiguous(Acknowledged(q, s))
  {
    hide Contiguous;
    var i := FindSeq(q, s, 0);
    if i >= 0 {
      assert Without(q, i) == Cut(q, i, i + 1);
      CutKeepsContiguous(q, i, i + 1);
    }
  }

  /** Any event whose messages get unused slots keeps every group together. */
  lemma ApplyKeepsContiguous(n: Node, ev: Event)
    requires Supplied(n, ev) && Contiguous(n.queue) && PostsSafely(n, EventPosts(n, ev))
    ensures Contiguous(Apply(n, ev).queue)
  {
    hide Contiguous, PostAll, PostsSafely, Pass, RandomRecipients, HandlePosts, Handle, DecodeBody, Fits, AllFit,
         HelloToAll, Put, Recorded;
    PostAllKeepsContiguous(n, EventPosts(n, ev));
    match ev {
      case Joins(seeds) =>
      case Sends(data, random) =>
        if n.phase == Connected { PostAllSame(n, Publishing(n, data), SendPosts(n, data, random)); }
      case Receives(src, datagram, random) =>
        if Delivers(n, datagram) {
          DecodedKind(datagram[5], datagram);
          HandleKeepsContiguous(n, src, Delivered(n, datagram), random);
        }
      case Flushes(times, budget) =>
        var c := Cursor([], n.queue, n.slots, n.members, n.writes, false);
        assert c.Queue() == n.queue;
        PassKeepsContiguous(c, times, budget);
      case Ticks(now, random) =>
    }
  }

  lemma HandleKeepsContiguous(n: Node, src: Address, f: Frame, random: seq<nat>)
    requires |random| >= |n.members| && (n.phase == Connected || f.body.Welcome?)
    requires Contiguous(n.queue) && Contiguous(PostAll(n, HandlePosts(n, src, f, random)).queue)
    ensures Contiguous(Handle(n, src, f, random).node.queue)
  {
    hide Contiguous, PostAll, RandomRecipients, HelloPosts, StatusReplies, DirectAll, AddAll, Acknowledged, CompareRecord,
         MergeRecord, Recorded;
    var ps := HandlePosts(n, src, f, random);
    match f.body {
      case Hello(_) =>
      case Welcome(s, _) => AcknowledgedKeepsContiguous(n.queue, s);
      case MemberList(ms) => PostAllSame(n, n.(members := AddAll(n.members, ms)), ps);
      case Data(version, payload) => PostAllSame(n, Accepting(n, version, payload), ps);
      case Ack(s) => AcknowledgedKeepsContiguous(n.queue, s);
      case Status(_) =>
    }
  }

  /** No message so far was given a slot in use. */
  ghost predicate SafeSoFar(states: seq<Node>, events: seq<Event>)
    requires LooseRun(states, events)
  {
    forall i {:trigger events[i]} :: 0 <= i < |events| ==> PostsSafely(states[i], EventPosts(states[i], events[i]))
  }

  lemma {:induction false} GroupsTogether(self: Member, id: MemberId, states: seq<Node>, events: seq<Event>, k: nat)
    requires NewLooseRun(self, id, states, events) && SafeSoFar(states, events) && k < |states|
    ensures Contiguous(states[k].queue)
  {
    hide Apply, Contiguous, PostsSafely, EventPosts, InitialNode;
    if k == 0 {
      EmptyIsContiguous(self, id);
    } else {
      GroupsTogether(self, id, states, events, k - 1);
      assert LooseStep(states[k - 1], events[k - 1], states[k]);
      ApplyKeepsContiguous(states[k - 1], events[k - 1]);
    }
  }

  lemma EmptyIsContiguous(self: Member, id: MemberId)
    ensures Contiguous(InitialNode(self, id).queue)
  {
  }

  /** Whatever the clock readings of a run in which no slot in use was handed out yet, the next message gets an unused
      slot if and only if one is free, or the first of the most attempted envelopes is the first on its slot. */
  lemma NextSlotExactly(self: Member, id: MemberId, states: seq<Node>, events: seq<Event>)
    requires NewLooseRun(self, id, states, events) && SafeSoFar(states, events)
    ensures var q := states[|events|].queue;
      NextSlotUnused(states[|events|]) <==>
        || FreeSlotFrom(q, 0) < MAX_OUTPUT_MESSAGES
        || forall i :: 0 <= i < OldestUpTo(q, |q|) ==> q[i].slot != q[OldestUpTo(q, |q|)].slot
  {
    hide SafeSoFar, Contiguous, Acquire, Occupied, OldestUpTo, FreeSlotFrom, LooseStep, InitialNode;
    GroupsTogether(self, id, states, events, |events|);
    AcquireFreesExactly(states[|events|].queue);
  }
}
