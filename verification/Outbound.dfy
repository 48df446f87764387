/** The outbound queue over the pool of message slots: choosing a slot, and one sending pass. */
module Outbound {
  import opened Types
  import opened Codec
  import opened Members

  type SlotIndex = i: int | 0 <= i < MAX_OUTPUT_MESSAGES
  type Slot = b: Bytes | |b| == MESSAGE_MAX_SIZE witness seq(MESSAGE_MAX_SIZE, _ => 0)
  type Slots = s: seq<Slot> | |s| == MAX_OUTPUT_MESSAGES
    witness EmptySlots()

  function EmptySlot(): Slot {
    seq(MESSAGE_MAX_SIZE, _ => 0)
  }

  function EmptySlots(): (s: seq<Slot>)
    ensures |s| == MAX_OUTPUT_MESSAGES
  {
    seq(MAX_OUTPUT_MESSAGES, _ => EmptySlot())
  }

  type DatagramSize = n: int | HEADER_SIZE <= n <= MESSAGE_MAX_SIZE witness HEADER_SIZE

  /** `frame` is a model field: the message that was encoded into the slot for this envelope. */
  datatype Envelope = Envelope(
    recipient: Address, slot: SlotIndex, size: DatagramSize, frame: Frame,
    seqNum: uint32, attemptTs: nat, attempts: nat, maxAttempts: nat)

  // ----- choosing a slot -----

  predicate Occupied(q: seq<Envelope>, s: nat) {
    exists i :: 0 <= i < |q| && q[i].slot == s
  }

  function FreeSlotFrom(q: seq<Envelope>, s: nat): (r: nat)
    requires s <= MAX_OUTPUT_MESSAGES
    ensures s <= r <= MAX_OUTPUT_MESSAGES && forall k :: s <= k < r ==> Occupied(q, k)
    ensures r < MAX_OUTPUT_MESSAGES ==> !Occupied(q, r)
    decreases MAX_OUTPUT_MESSAGES - s
  {
    if s == MAX_OUTPUT_MESSAGES || !Occupied(q, s) then s else FreeSlotFrom(q, s + 1)
  }

  /** The first of the first `n` envelopes with the largest attempt count. */
  function OldestUpTo(q: seq<Envelope>, n: nat): (o: nat)
    requires 0 < n <= |q|
    ensures o < n && (forall i :: 0 <= i < n ==> q[i].attempts <= q[o].attempts)
    ensures forall i :: 0 <= i < o ==> q[i].attempts < q[o].attempts
  {
    if n == 1 then 0
    else
      var o := OldestUpTo(q, n - 1);
      if q[n - 1].attempts > q[o].attempts then n - 1 else o
  }

  /** The end of the run of envelopes on slot `s` that starts at `i`. */
  function RunEnd(q: seq<Envelope>, i: nat, s: SlotIndex): (j: nat)
    requires i <= |q|
    ensures i <= j <= |q| && (forall k :: i <= k < j ==> q[k].slot == s) && (j < |q| ==> q[j].slot != s)
    decreases |q| - i
  {
    if i == |q| || q[i].slot != s then i else RunEnd(q, i + 1, s)
  }

  datatype Acquired = Acquired(queue: seq<Envelope>, slot: SlotIndex)

  function Cut<T>(q: seq<T>, i: nat, j: nat): seq<T>
    requires i <= j <= |q|
  {
    q[..i] + q[j..]
  }

  /** A slot for a new message: a free one, or else the one of the most attempted envelope,
      from which the envelopes that follow on the same slot are dropped. */
  function Acquire(q: seq<Envelope>): Acquired {
    var s := FreeSlotFrom(q, 0);
    if s < MAX_OUTPUT_MESSAGES then Acquired(q, s)
    else
      assert Occupied(q, 0);
      var o := OldestUpTo(q, |q|);
      Acquired(Cut(q, o, RunEnd(q, o, q[o].slot)), q[o].slot)
  }

  /** Envelopes on one slot form one block of the queue. */
  ghost predicate Contiguous(q: seq<Envelope>) {
    forall i, j, k :: 0 <= i < j < k < |q| && q[i].slot == q[k].slot ==> q[j].slot == q[i].slot
  }

  /** Along a block the attempt counts never increase, equal counts were reached in queue order,
      and every envelope carries the same message. */
  ghost predicate PairOk(a: Envelope, b: Envelope) {
    a.slot == b.slot ==>
      && a.attempts >= b.attempts
      && (a.attempts == b.attempts > 0 ==> a.attemptTs <= b.attemptTs)
      && a.frame == b.frame
  }

  ghost predicate Ordered(q: seq<Envelope>) {
    forall i, j :: 0 <= i < j < |q| ==> PairOk(q[i], q[j])
  }

  ghost predicate PoolInv(q: seq<Envelope>) {
    Contiguous(q) && Ordered(q)
  }

  /** A contiguous group lies between its first envelope and the end of its run. */
  lemma RunEndsGroup(q: seq<Envelope>, o: nat, k: nat)
    requires Contiguous(q) && o < |q| && RunEnd(q, o, q[o].slot) <= k < |q|
    ensures q[k].slot != q[o].slot
  {
  }

  lemma CutOccupied(q: seq<Envelope>, i: nat, j: nat, s: nat)
    requires i <= j <= |q|
    ensures Occupied(Cut(q, i, j), s) <==> exists k :: 0 <= k < |q| && !(i <= k < j) && q[k].slot == s
  {
    var q' := Cut(q, i, j);
    if k :| 0 <= k < |q'| && q'[k].slot == s {
      assert q'[k] == q[if k < i then k else k + (j - i)];
    }
    if k :| 0 <= k < |q| && !(i <= k < j) && q[k].slot == s {
      assert q'[if k < i then k else k - (j - i)] == q[k];
    }
  }

  lemma RunCutFrees(q: seq<Envelope>, o: nat)
    requires Contiguous(q) && o < |q|
    ensures !Occupied(Cut(q, o, RunEnd(q, o, q[o].slot)), q[o].slot) <==>
            forall i :: 0 <= i < o ==> q[i].slot != q[o].slot
  {
    hide RunEnd, Contiguous, Cut, Occupied;
    var s := q[o].slot;
    var j := RunEnd(q, o, s);
    CutOccupied(q, o, j, s);
    forall k | j <= k < |q| ensures q[k].slot != s { RunEndsGroup(q, o, k); }
  }

  lemma EmptyPool()
    ensures Acquire([]) == Acquired([], 0)
  {
    assert !Occupied([], 0);
  }

  /** The two ways of choosing a slot. */
  lemma AcquireIs(q: seq<Envelope>)
    ensures FreeSlotFrom(q, 0) < MAX_OUTPUT_MESSAGES ==> Acquire(q) == Acquired(q, FreeSlotFrom(q, 0))
    ensures FreeSlotFrom(q, 0) == MAX_OUTPUT_MESSAGES ==>
              && q != []
              && var o := OldestUpTo(q, |q|);
                 Acquire(q) == Acquired(Cut(q, o, RunEnd(q, o, q[o].slot)), q[o].slot)
  {
  }

  /** The choice of a slot: the lowest one no envelope uses; when all are used, the slot of the first of the most
      attempted envelopes, from which the envelopes on that slot are dropped up to the first on another. */
  lemma SlotChoice(q: seq<Envelope>) returns (o: nat, j: nat)
    ensures var a := Acquire(q);
      (exists s :: 0 <= s < 100 && !Occupied(q, s)) ==>
        a.queue == q && !Occupied(q, a.slot) && forall s :: 0 <= s < a.slot ==> Occupied(q, s)
    ensures (forall s :: 0 <= s < 100 ==> Occupied(q, s)) ==>
        && o < j <= |q| && Acquire(q) == Acquired(q[..o] + q[j..], q[o].slot)
        && (forall i :: 0 <= i < o ==> q[i].attempts < q[o].attempts)
        && (forall i :: 0 <= i < |q| ==> q[i].attempts <= q[o].attempts)
        && (forall i :: o <= i < j ==> q[i].slot == q[o].slot) && (j < |q| ==> q[j].slot != q[o].slot)
  {
    hide Acquire, Occupied, OldestUpTo, FreeSlotFrom;
    AcquireIs(q);
    o, j := 0, 0;
    if FreeSlotFrom(q, 0) == MAX_OUTPUT_MESSAGES {
      o := OldestUpTo(q, |q|);
      j := RunEnd(q, o, q[o].slot);
    }
  }

  /** Eviction frees the slot it returns exactly when the chosen envelope is the first on its slot. */
  lemma AcquireFreesExactly(q: seq<Envelope>)
    requires Contiguous(q)
    ensures !Occupied(Acquire(q).queue, Acquire(q).slot) <==>
            FreeSlotFrom(q, 0) < MAX_OUTPUT_MESSAGES
            || forall i :: 0 <= i < OldestUpTo(q, |q|) ==> q[i].slot != q[OldestUpTo(q, |q|)].slot
  {
    hide *;
    AcquireIs(q);
    if FreeSlotFrom(q, 0) == MAX_OUTPUT_MESSAGES { RunCutFrees(q, OldestUpTo(q, |q|)); }
  }

  lemma CutKeepsPool(q: seq<Envelope>, i: nat, j: nat)
    requires i <= j <= |q| && PoolInv(q)
    ensures PoolInv(Cut(q, i, j))
  {
    var q' := Cut(q, i, j);
    assert forall k :: 0 <= k < |q'| ==> q'[k] == q[if k < i then k else k + (j - i)];
  }

  /** Shared-slot safety: under the queue invariant the whole group goes, so the slot handed out is unused. */
  lemma AcquireIsSafe(q: seq<Envelope>)
    requires PoolInv(q)
    ensures PoolInv(Acquire(q).queue) && !Occupied(Acquire(q).queue, Acquire(q).slot)
  {
    hide Acquire, Occupied, RunEnd, OldestUpTo, Cut, Contiguous, FreeSlotFrom;
    AcquireIs(q);
    AcquireFreesExactly(q);
    if FreeSlotFrom(q, 0) == MAX_OUTPUT_MESSAGES {
      var o := OldestUpTo(q, |q|);
      forall i | 0 <= i < o ensures q[i].slot != q[o].slot {
        assert PairOk(q[i], q[o]);
      }
      CutKeepsPool(q, o, RunEnd(q, o, q[o].slot));
    }
  }

  // ----- enqueueing one message for several recipients -----

  function MaxAttempts(m: Message): nat {
    if m.Welcome? || m.Ack? then 1 else MESSAGE_RETRY_ATTEMPTS
  }

  datatype Numbered = Numbered(queue: seq<Envelope>, seqNum: uint32)

  function Enqueued(q: seq<Envelope>, n: uint32, f: Frame, slot: SlotIndex, size: DatagramSize,
                    recipients: seq<Address>): Numbered
  {
    if recipients == [] then Numbered(q, n)
    else
      var k := |recipients| - 1;
      var front := Enqueued(q, n, f, slot, size, recipients[..k]);
      var s := Increment(front.seqNum);
      Numbered(front.queue + [Envelope(recipients[k], slot, size, f, s, 0, 0, MaxAttempts(f.body))], s)
  }

  /** While the counter does not wrap, the envelopes are appended in order under consecutive numbers. */
  lemma {:induction false} EnqueuedAppends(q: seq<Envelope>, n: uint32, f: Frame, slot: SlotIndex, size: DatagramSize,
                                           recipients: seq<Address>)
    requires n + |recipients| < WORD
    ensures var r := Enqueued(q, n, f, slot, size, recipients);
      && r.seqNum == n + |recipients|
      && |r.queue| == |q| + |recipients|
      && (forall i :: 0 <= i < |q| ==> r.queue[i] == q[i])
      && forall i :: 0 <= i < |recipients| ==>
           r.queue[|q| + i] == Envelope(recipients[i], slot, size, f, n + 1 + i, 0, 0,
                                        if f.body.Welcome? || f.body.Ack? then 1 else 3)
  {
    if recipients != [] {
      EnqueuedAppends(q, n, f, slot, size, recipients[..|recipients| - 1]);
    }
  }

  lemma EnqueuedKeepsPool(q: seq<Envelope>, n: uint32, f: Frame, slot: SlotIndex, size: DatagramSize,
                          recipients: seq<Address>)
    requires n + |recipients| < WORD && PoolInv(q) && !Occupied(q, slot)
    ensures PoolInv(Enqueued(q, n, f, slot, size, recipients).queue)
  {
    hide Enqueued;
    EnqueuedAppends(q, n, f, slot, size, recipients);
    var q' := Enqueued(q, n, f, slot, size, recipients).queue;
    forall i | |q| <= i < |q'| ensures q'[i].slot == slot && q'[i].attempts == 0 && q'[i].frame == f {
      var k := i - |q|;
      assert recipients[k] == q'[|q| + k].recipient;
    }
  }

  // ----- one sending pass -----

  /** One datagram handed to the socket; `attempt` counts the earlier ones of its envelope. */
  datatype Write = Write(seqNum: uint32, attempt: nat, time: nat, recipient: Address, bytes: Bytes)

  /** The traversal: envelopes already visited, envelopes still to visit. */
  datatype Cursor = Cursor(
    done: seq<Envelope>, rest: seq<Envelope>, slots: Slots, members: seq<Member>,
    writes: seq<Write>, failed: bool)
  {
    function Queue(): seq<Envelope> { done + rest }
  }

  predicate Exhausted(e: Envelope) {
    e.attempts >= e.maxAttempts
  }

  predicate Waiting(e: Envelope, now: nat) {
    e.attempts != 0 && e.attemptTs + MESSAGE_RETRY_INTERVAL > now
  }

  /** The end of the run, from `i`, of envelopes for the same recipient. */
  function SameRecipientEnd(q: seq<Envelope>, i: nat, recipient: Address): (j: nat)
    requires i <= |q|
    ensures i <= j <= |q| && (forall k :: i <= k < j ==> q[k].recipient <= recipient)
    ensures j < |q| ==> !(q[j].recipient <= recipient)
    decreases |q| - i
  {
    if i == |q| || !(q[i].recipient <= recipient) then i else SameRecipientEnd(q, i + 1, recipient)
  }

  /** Out of attempts: if the message wanted an acknowledgement its recipient is forgotten, and
      the envelopes right behind for the same recipient go with it. */
  function Expire(c: Cursor): Cursor
    requires c.rest != []
  {
    var e := c.rest[0];
    if e.maxAttempts > 1 then
      c.(rest := c.rest[SameRecipientEnd(c.rest, 1, e.recipient)..], members := RemoveByAddress(c.members, e.recipient))
    else c.(rest := c.rest[1..])
  }

  function Skip(c: Cursor): Cursor
    requires c.rest != []
  {
    c.(done := c.done + [c.rest[0]], rest := c.rest[1..])
  }

  function Patched(slots: Slots, e: Envelope): Slots {
    slots[e.slot := PatchSeq(slots[e.slot], e.seqNum)]
  }

  function Attempted(e: Envelope, now: nat): Envelope {
    e.(attemptTs := now, attempts := e.attempts + 1)
  }

  /** Patch the envelope's number into its slot and send it. A failed write ends the pass. */
  function Transmit(c: Cursor, now: nat, ok: bool): Cursor
    requires c.rest != []
  {
    var e := c.rest[0];
    var slots := Patched(c.slots, e);
    if !ok then c.(slots := slots, failed := true)
    else
      Cursor(if e.maxAttempts <= 1 then c.done else c.done + [Attempted(e, now)],
             c.rest[1..], slots, c.members,
             c.writes + [Write(e.seqNum, e.attempts, now, e.recipient, slots[e.slot][..e.size])], false)
  }

  /** `times` are the successive readings of the wall clock, `budget` the writes that succeed before one fails. */
  function Pass(c: Cursor, times: seq<nat>, budget: nat): (r: Cursor)
    requires c.failed || |times| >= |c.rest|
    ensures |r.Queue()| <= |c.Queue()|
    decreases |c.rest|, if c.failed then 0 else 1
  {
    if c.rest == [] || c.failed then c
    else if Exhausted(c.rest[0]) then Pass(Expire(c), times, budget)
    else if Waiting(c.rest[0], times[0]) then Pass(Skip(c), times[1..], budget)
    else Pass(Transmit(c, times[0], budget > 0), times[1..], if budget > 0 then budget - 1 else 0)
  }

  /** Visited envelopes are not due any more at the pass's time, and nothing was stamped later than it. */
  ghost predicate VisitedAt(c: Cursor, now: nat) {
    && (forall e :: e in c.done ==> e.attempts > 0 && e.attemptTs + MESSAGE_RETRY_INTERVAL > now)
    && (forall e :: e in c.Queue() ==> e.attemptTs <= now)
  }

  ghost predicate Steady(times: seq<nat>, now: nat) {
    forall i :: 0 <= i < |times| ==> times[i] == now
  }

  /** Sending one more due envelope keeps it in order with everything before and behind it. */
  lemma AttemptKeepsOrder(q: seq<Envelope>, n: nat, now: nat)
    requires n < |q| && PoolInv(q) && q[n].attemptTs <= now && !Waiting(q[n], now)
    requires forall i :: 0 <= i < n ==>
               q[i].attempts > 0 && q[i].attemptTs + MESSAGE_RETRY_INTERVAL > now >= q[i].attemptTs
    ensures PoolInv(q[n := Attempted(q[n], now)])
  {
  }

  lemma TransmitKeepsPool(c: Cursor, now: nat)
    requires c.rest != [] && PoolInv(c.Queue()) && VisitedAt(c, now)
    requires !Exhausted(c.rest[0]) && !Waiting(c.rest[0], now)
    ensures PoolInv(Transmit(c, now, true).Queue()) && VisitedAt(Transmit(c, now, true), now)
  {
    hide PatchSeq;
    var q, n := c.Queue(), |c.done|;
    var e := c.rest[0];
    var c' := Transmit(c, now, true);
    assert q[n] == e;
    assert forall x :: x in c'.Queue() ==> x in q || x == Attempted(e, now);
    assert PoolInv(c'.Queue()) by {
      hide PoolInv;
      if e.maxAttempts <= 1 {
        assert c'.Queue() == Cut(q, n, n + 1);
        CutKeepsPool(q, n, n + 1);
      } else {
        assert c'.Queue() == q[n := Attempted(e, now)];
        assert forall i :: 0 <= i < n ==> q[i] == c.done[i];
        AttemptKeepsOrder(q, n, now);
      }
    }
  }

  lemma ExpireCuts(c: Cursor)
    requires c.rest != []
    ensures var k := if c.rest[0].maxAttempts > 1 then SameRecipientEnd(c.rest, 1, c.rest[0].recipient) else 1;
      |c.done| + k <= |c.Queue()| && Expire(c).Queue() == Cut(c.Queue(), |c.done|, |c.done| + k)
  {
  }

  lemma SkipKeepsVisited(c: Cursor, now: nat)
    requires c.rest != [] && VisitedAt(c, now) && Waiting(c.rest[0], now)
    ensures Skip(c).Queue() == c.Queue() && VisitedAt(Skip(c), now)
  {
  }

  lemma CutWithin<T>(s: seq<T>, i: nat, j: nat)
    requires i <= j <= |s|
    ensures forall x :: x in Cut(s, i, j) ==> x in s
  {
  }

  lemma ExpireKeepsPool(c: Cursor, now: nat)
    requires c.rest != [] && PoolInv(c.Queue()) && VisitedAt(c, now)
    ensures PoolInv(Expire(c).Queue()) && VisitedAt(Expire(c), now)
  {
    hide PoolInv, RemoveByAddress, Cut, SameRecipientEnd, Cursor.Queue;
    var k := if c.rest[0].maxAttempts > 1 then SameRecipientEnd(c.rest, 1, c.rest[0].recipient) else 1;
    ExpireCuts(c);
    CutKeepsPool(c.Queue(), |c.done|, |c.done| + k);
    CutWithin(c.Queue(), |c.done|, |c.done| + k);
  }

  lemma NoneLater(c: Cursor, now: nat)
    requires VisitedAt(c, now)
    ensures forall e :: e in c.Queue() ==> e.attemptTs <= now
  {
  }

  /** A pass that reads one time throughout keeps the shared-slot invariant, failed writes included. */
  lemma {:induction false} SteadyPassKeepsPool(c: Cursor, times: seq<nat>, budget: nat, now: nat)
    requires |times| >= |c.rest| && Steady(times, now)
    requires PoolInv(c.Queue()) && VisitedAt(c, now)
    ensures PoolInv(Pass(c, times, budget).Queue())
    ensures forall e :: e in Pass(c, times, budget).Queue() ==> e.attemptTs <= now
    decreases |c.rest|
  {
    hide PoolInv, VisitedAt, RemoveByAddress, PatchSeq, Exhausted, Waiting;
    NoneLater(c, now);
    if c.rest != [] && !c.failed {
      if Exhausted(c.rest[0]) {
        ExpireKeepsPool(c, now);
        SteadyPassKeepsPool(Expire(c), times, budget, now);
      } else if Waiting(c.rest[0], now) {
        SkipKeepsVisited(c, now);
        SteadyPassKeepsPool(Skip(c), times[1..], budget, now);
      } else if budget > 0 {
        TransmitKeepsPool(c, now);
        SteadyPassKeepsPool(Transmit(c, now, true), times[1..], budget - 1, now);
      }
    }
  }
}
