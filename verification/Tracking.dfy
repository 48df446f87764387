/** Queue, slots and history together: every queued envelope still has its own message in its slot,
    and every datagram written was the message enqueued under its number. */
module Tracking {
  import opened Types
  import opened Codec
  import opened Members
  import opened Outbound

  /** What was enqueued under one sequence number. The history `created` lists them from number 1 on. */
  datatype Posting = Posting(recipient: Address, frame: Frame)

  ghost predicate Numbered(n: uint32, created: seq<Posting>) {
    1 <= n <= |created| && Fits(created[n - 1].frame.body)
  }

  ghost predicate EnvelopeOk(e: Envelope, slots: Slots, created: seq<Posting>) {
    && Numbered(e.seqNum, created) && created[e.seqNum - 1] == Posting(e.recipient, e.frame)
    && e.size == |Encode(e.frame)|
    && PatchSeq(slots[e.slot][..e.size], 0) == PatchSeq(Encode(e.frame), 0)
    && e.maxAttempts == MaxAttempts(e.frame.body)
    && e.attempts <= e.maxAttempts
  }

  /** Wire integrity of one datagram: the enqueued message, but for the envelope's own number. */
  ghost predicate WriteOk(w: Write, created: seq<Posting>) {
    && Numbered(w.seqNum, created)
    && w.recipient == created[w.seqNum - 1].recipient
    && w.bytes == Encode(created[w.seqNum - 1].frame.(seqNum := w.seqNum))
    && w.attempt < MaxAttempts(created[w.seqNum - 1].frame.body)
  }

  ghost predicate Increasing(q: seq<Envelope>) {
    forall i, j :: 0 <= i < j < |q| ==> q[i].seqNum < q[j].seqNum
  }

  ghost predicate WritesSpaced(ws: seq<Write>) {
    forall i, j :: 0 <= i < j < |ws| && ws[i].seqNum == ws[j].seqNum ==>
      ws[i].attempt < ws[j].attempt && ws[i].time + MESSAGE_RETRY_INTERVAL <= ws[j].time
  }

  function CountWrites(ws: seq<Write>, n: uint32): nat {
    if ws == [] then 0
    else CountWrites(ws[..|ws| - 1], n) + if ws[|ws| - 1].seqNum == n then 1 else 0
  }

  /** The attempts of an envelope are the writes of its number, none of them later than its stamp. */
  ghost predicate Behind(e: Envelope, ws: seq<Write>) {
    && CountWrites(ws, e.seqNum) == e.attempts
    && forall i :: 0 <= i < |ws| && ws[i].seqNum == e.seqNum ==> ws[i].attempt < e.attempts && ws[i].time <= e.attemptTs
  }

  ghost predicate TrackInv(q: seq<Envelope>, slots: Slots, created: seq<Posting>, ws: seq<Write>) {
    && (forall i :: 0 <= i < |q| ==> EnvelopeOk(q[i], slots, created) && Behind(q[i], ws))
    && Increasing(q)
    && (forall i :: 0 <= i < |ws| ==> WriteOk(ws[i], created))
    && WritesSpaced(ws)
  }

  lemma CutKeepsTrack(q: seq<Envelope>, i: nat, j: nat, slots: Slots, created: seq<Posting>, ws: seq<Write>)
    requires i <= j <= |q| && TrackInv(q, slots, created, ws)
    ensures TrackInv(Cut(q, i, j), slots, created, ws)
  {
    hide EnvelopeOk, Behind, WriteOk, WritesSpaced;
    var q' := Cut(q, i, j);
    assert forall k :: 0 <= k < |q'| ==> q'[k] == q[if k < i then k else k + (j - i)];
  }

  /** Patching one envelope's number does not disturb the message of any other on the slot. */
  lemma PatchKeepsEnvelope(e: Envelope, x: Envelope, slots: Slots, created: seq<Posting>)
    requires EnvelopeOk(x, slots, created)
    ensures EnvelopeOk(x, Patched(slots, e), created)
  {
    hide PatchSeq, Encode, Fits;
    if x.slot == e.slot {
      PatchPrefix(slots[x.slot], x.size, e.seqNum);
      PatchTwice(slots[x.slot][..x.size], e.seqNum, 0);
    }
  }

  /** The bytes sent for an envelope are its own message under its own number. */
  lemma SentBytes(e: Envelope, slots: Slots, created: seq<Posting>)
    requires EnvelopeOk(e, slots, created)
    ensures Patched(slots, e)[e.slot][..e.size] == Encode(e.frame.(seqNum := e.seqNum))
  {
    hide PatchSeq, Encode, Fits;
    var s := slots[e.slot];
    PatchPrefix(s, e.size, e.seqNum);
    PatchTwice(s[..e.size], 0, e.seqNum);
    PatchTwice(Encode(e.frame), 0, e.seqNum);
    PatchIsReencoding(e.frame, e.seqNum);
  }

  lemma PatchKeepsTrack(q: seq<Envelope>, n: nat, slots: Slots, created: seq<Posting>, ws: seq<Write>)
    requires n < |q| && TrackInv(q, slots, created, ws)
    ensures TrackInv(q, Patched(slots, q[n]), created, ws)
  {
    hide EnvelopeOk, Behind, WriteOk, WritesSpaced, Patched;
    forall i | 0 <= i < |q| ensures EnvelopeOk(q[i], Patched(slots, q[n]), created) {
      PatchKeepsEnvelope(q[n], q[i], slots, created);
    }
  }

  lemma CountOne(ws: seq<Write>, w: Write, n: uint32)
    ensures CountWrites(ws + [w], n) == CountWrites(ws, n) + if w.seqNum == n then 1 else 0
  {
    assert (ws + [w])[..|ws|] == ws;
  }

  lemma {:induction false} CountNone(ws: seq<Write>, n: uint32)
    requires forall i :: 0 <= i < |ws| ==> ws[i].seqNum != n
    ensures CountWrites(ws, n) == 0
  {
    if ws != [] { CountNone(ws[..|ws| - 1], n); }
  }

  lemma OthersBehind(x: Envelope, ws: seq<Write>, w: Write)
    requires Behind(x, ws) && x.seqNum != w.seqNum
    ensures Behind(x, ws + [w])
  {
    CountOne(ws, w, x.seqNum);
  }

  lemma AttemptBehind(e: Envelope, ws: seq<Write>, w: Write)
    requires Behind(e, ws) && WritesSpaced(ws) && !Waiting(e, w.time)
    requires w.seqNum == e.seqNum && w.attempt == e.attempts
    ensures Behind(Attempted(e, w.time), ws + [w]) && WritesSpaced(ws + [w])
  {
    CountOne(ws, w, e.seqNum);
    hide CountWrites;
  }

  lemma AttemptIsOk(e: Envelope, slots: Slots, created: seq<Posting>, now: nat)
    requires EnvelopeOk(e, slots, created) && !Exhausted(e)
    ensures EnvelopeOk(Attempted(e, now), Patched(slots, e), created)
    ensures WriteOk(Write(e.seqNum, e.attempts, now, e.recipient, Patched(slots, e)[e.slot][..e.size]), created)
  {
    hide Patched, PatchSeq, Encode;
    SentBytes(e, slots, created);
    PatchKeepsEnvelope(e, e, slots, created);
  }

  /** One more write of the envelope at position `n`, and its new attempt count and time. */
  lemma WriteKeepsTrack(q: seq<Envelope>, n: nat, slots: Slots, created: seq<Posting>, ws: seq<Write>, now: nat)
    requires n < |q| && TrackInv(q, slots, created, ws)
    requires !Exhausted(q[n]) && !Waiting(q[n], now)
    ensures var e := q[n];
      var w := Write(e.seqNum, e.attempts, now, e.recipient, Patched(slots, e)[e.slot][..e.size]);
      TrackInv(q[n := Attempted(e, now)], Patched(slots, e), created, ws + [w])
  {
    hide Patched, PatchSeq, EnvelopeOk, WriteOk, Behind, WritesSpaced, Waiting, Exhausted;
    var e := q[n];
    var w := Write(e.seqNum, e.attempts, now, e.recipient, Patched(slots, e)[e.slot][..e.size]);
    var q', ws' := q[n := Attempted(e, now)], ws + [w];
    AttemptIsOk(e, slots, created, now);
    AttemptBehind(e, ws, w);
    forall i | 0 <= i < |q'| ensures EnvelopeOk(q'[i], Patched(slots, e), created) && Behind(q'[i], ws') {
      if i != n {
        PatchKeepsEnvelope(e, q[i], slots, created);
        OthersBehind(q[i], ws, w);
      }
    }
  }

  lemma TransmitKeepsTrack(c: Cursor, now: nat, ok: bool, created: seq<Posting>)
    requires c.rest != [] && !Exhausted(c.rest[0]) && !Waiting(c.rest[0], now)
    requires TrackInv(c.Queue(), c.slots, created, c.writes)
    ensures var r := Transmit(c, now, ok); TrackInv(r.Queue(), r.slots, created, r.writes)
  {
    hide TrackInv, Patched;
    var q, n := c.Queue(), |c.done|;
    var e := c.rest[0];
    var r := Transmit(c, now, ok);
    assert q[n] == e;
    if ok {
      WriteKeepsTrack(q, n, c.slots, created, c.writes, now);
      var q' := q[n := Attempted(e, now)];
      if e.maxAttempts <= 1 {
        CutKeepsTrack(q', n, n + 1, r.slots, created, r.writes);
        assert r.Queue() == Cut(q', n, n + 1);
      } else {
        assert r.Queue() == q';
      }
    } else {
      PatchKeepsTrack(q, n, c.slots, created, c.writes);
    }
  }

  /** A sending pass, whatever its clock readings and failures, keeps every datagram and every slot right. */
  lemma {:induction false} PassKeepsTrack(c: Cursor, times: seq<nat>, budget: nat, created: seq<Posting>)
    requires c.failed || |times| >= |c.rest|
    requires TrackInv(c.Queue(), c.slots, created, c.writes)
    ensures var r := Pass(c, times, budget); TrackInv(r.Queue(), r.slots, created, r.writes)
    decreases |c.rest|, if c.failed then 0 else 1
  {
    hide TrackInv, RemoveByAddress, Patched, Exhausted, Waiting;
    if c.rest != [] && !c.failed {
      if Exhausted(c.rest[0]) {
        ExpireCuts(c);
        var k := if c.rest[0].maxAttempts > 1 then SameRecipientEnd(c.rest, 1, c.rest[0].recipient) else 1;
        CutKeepsTrack(c.Queue(), |c.done|, |c.done| + k, c.slots, created, c.writes);
        PassKeepsTrack(Expire(c), times, budget, created);
      } else if Waiting(c.rest[0], times[0]) {
        assert Skip(c).Queue() == c.Queue();
        PassKeepsTrack(Skip(c), times[1..], budget, created);
      } else {
        TransmitKeepsTrack(c, times[0], budget > 0, created);
        PassKeepsTrack(Transmit(c, times[0], budget > 0), times[1..], if budget > 0 then budget - 1 else 0, created);
      }
    }
  }

  /** The writes of a pass extend the earlier ones. */
  lemma {:induction false} PassExtendsWrites(c: Cursor, times: seq<nat>, budget: nat)
    requires c.failed || |times| >= |c.rest|
    ensures c.writes <= Pass(c, times, budget).writes
    decreases |c.rest|, if c.failed then 0 else 1
  {
    hide RemoveByAddress, Patched, Exhausted, Waiting;
    if c.rest != [] && !c.failed {
      if Exhausted(c.rest[0]) {
        PassExtendsWrites(Expire(c), times, budget);
      } else if Waiting(c.rest[0], times[0]) {
        PassExtendsWrites(Skip(c), times[1..], budget);
      } else {
        PassExtendsWrites(Transmit(c, times[0], budget > 0), times[1..], if budget > 0 then budget - 1 else 0);
      }
    }
  }

  // ----- posting -----

  function Stored(slots: Slots, slot: SlotIndex, bytes: Bytes): Slots
    requires |bytes| <= MESSAGE_MAX_SIZE
  {
    slots[slot := bytes + slots[slot][|bytes|..]]
  }

  function Postings(f: Frame, recipients: seq<Address>): (ps: seq<Posting>)
    ensures |ps| == |recipients|
  {
    seq(|recipients|, i requires 0 <= i < |recipients| => Posting(recipients[i], f))
  }

  lemma StoreKeepsTrack(q: seq<Envelope>, slots: Slots, created: seq<Posting>, ws: seq<Write>, slot: SlotIndex,
                        bytes: Bytes)
    requires TrackInv(q, slots, created, ws) && !Occupied(q, slot) && |bytes| <= MESSAGE_MAX_SIZE
    ensures TrackInv(q, Stored(slots, slot, bytes), created, ws)
  {
  }

  lemma MoreCreated(q: seq<Envelope>, slots: Slots, created: seq<Posting>, more: seq<Posting>, ws: seq<Write>)
    requires TrackInv(q, slots, created, ws)
    ensures TrackInv(q, slots, created + more, ws)
  {
    hide PatchSeq, Encode;
  }

  lemma EnqueueKeepsTrack(q: seq<Envelope>, slots: Slots, created: seq<Posting>, ws: seq<Write>,
                          n: uint32, f: Frame, slot: SlotIndex, recipients: seq<Address>)
    requires TrackInv(q, slots, created, ws) && n == |created| && n + |recipients| < WORD
    requires Fits(f.body) && HEADER_SIZE <= |Encode(f)| <= MESSAGE_MAX_SIZE && slots[slot][..|Encode(f)|] == Encode(f)
    ensures TrackInv(Enqueued(q, n, f, slot, |Encode(f)|, recipients).queue, slots, created + Postings(f, recipients), ws)
  {
    hide PatchSeq, Encode, Enqueued, CountWrites;
    var r := Enqueued(q, n, f, slot, |Encode(f)|, recipients).queue;
    var created' := created + Postings(f, recipients);
    EnqueuedAppends(q, n, f, slot, |Encode(f)|, recipients);
    MoreCreated(q, slots, created, Postings(f, recipients), ws);
    forall i | |q| <= i < |r| ensures r[i].seqNum == n + 1 + (i - |q|) && EnvelopeOk(r[i], slots, created') && Behind(r[i], ws) {
      var k := i - |q|;
      assert r[i] == Envelope(recipients[k], slot, |Encode(f)|, f, n + 1 + k, 0, 0, MaxAttempts(f.body));
      assert created'[n + k] == Posting(recipients[k], f);
      assert forall j :: 0 <= j < |ws| ==> WriteOk(ws[j], created);
      CountNone(ws, n + 1 + k);
    }
    forall i | 0 <= i < |q| ensures r[i].seqNum <= n { assert EnvelopeOk(q[i], slots, created); }
    forall i, j | 0 <= i < j < |r| ensures r[i].seqNum < r[j].seqNum {
      if j < |q| { assert q[i].seqNum < q[j].seqNum; }
    }
  }

  // ----- bounded retries -----

  /** Strictly increasing attempt numbers below the limit leave at most that many writes. */
  lemma {:induction false} CountWithin(ws: seq<Write>, n: uint32, limit: nat)
    requires WritesSpaced(ws)
    requires forall i :: 0 <= i < |ws| && ws[i].seqNum == n ==> ws[i].attempt < limit
    ensures CountWrites(ws, n) <= limit
  {
    if ws != [] {
      var k := |ws| - 1;
      if ws[k].seqNum == n {
        CountWithin(ws[..k], n, ws[k].attempt);
      } else {
        CountWithin(ws[..k], n, limit);
      }
    }
  }
}
