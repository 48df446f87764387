/** Exactly what one sending pass writes and what it leaves queued. */
module SendingPass {
  import opened Types
  import opened Codec
  import opened Members
  import opened Outbound

  // ----- the fate of each envelope, by its position in the queue -----

  /** Envelope `j` ran out of attempts without its acknowledgement, and everything behind it up to `i` goes to its
      recipient. */
  ghost predicate Drops(q: seq<Envelope>, j: nat, i: nat)
    requires j < i < |q|
  {
    && q[j].attempts >= q[j].maxAttempts > 1
    && forall l :: j < l <= i ==> q[l].recipient <= q[j].recipient
  }

  /** Unlinked together with an envelope in front of it. */
  ghost predicate Dropped(q: seq<Envelope>, i: nat)
    requires i < |q|
  {
    exists j: nat :: j < i && Drops(q, j, i)
  }

  /** The pass reads the clock for this envelope. */
  ghost predicate Asked(q: seq<Envelope>, i: nat)
    requires i < |q|
  {
    q[i].attempts < q[i].maxAttempts && !Dropped(q, i)
  }

  /** How often it has read the clock before. */
  ghost function Readings(q: seq<Envelope>, i: nat): (n: nat)
    requires i <= |q|
    ensures n <= i
  {
    if i == 0 then 0 else Readings(q, i - 1) + if Asked(q, i - 1) then 1 else 0
  }

  ghost function ReadingFor(q: seq<Envelope>, times: seq<nat>, i: nat): nat
    requires i < |q| <= |times|
  {
    times[Readings(q, i)]
  }

  /** The envelope is written. */
  ghost predicate Goes(q: seq<Envelope>, times: seq<nat>, i: nat)
    requires i < |q| <= |times|
  {
    Asked(q, i) && (q[i].attempts == 0 || q[i].attemptTs + MESSAGE_RETRY_INTERVAL <= ReadingFor(q, times, i))
  }

  /** The positions from `i` on that are written, in order. */
  ghost function Going(q: seq<Envelope>, times: seq<nat>, i: nat): seq<nat>
    requires i <= |q| <= |times|
    decreases |q| - i
  {
    if i == |q| then [] else (if Goes(q, times, i) then [i] else []) + Going(q, times, i + 1)
  }

  /** What stays queued of the envelopes at positions `i` to `j`. */
  ghost function Staying(q: seq<Envelope>, times: seq<nat>, i: nat, j: nat): seq<Envelope>
    requires i <= j <= |q| <= |times|
    decreases j - i
  {
    if i == j then [] else StayingOne(q, times, i) + Staying(q, times, i + 1, j)
  }

  ghost function StayingOne(q: seq<Envelope>, times: seq<nat>, i: nat): seq<Envelope>
    requires i < |q| <= |times|
  {
    if !Asked(q, i) then []
    else if !Goes(q, times, i) then [q[i]]
    else if q[i].maxAttempts <= 1 then []
    else [q[i].(attempts := q[i].attempts + 1, attemptTs := ReadingFor(q, times, i))]
  }

  /** The member at the recipient is forgotten: the envelope wanted an acknowledgement and ran out of attempts. */
  ghost predicate Expires(q: seq<Envelope>, i: nat)
    requires i < |q|
  {
    q[i].attempts >= q[i].maxAttempts > 1 && !Dropped(q, i)
  }

  /** The members after the envelopes at positions `i` to `j`. */
  ghost function Remaining(members: seq<Member>, q: seq<Envelope>, i: nat, j: nat): seq<Member>
    requires i <= j <= |q|
    decreases j - i
  {
    if i == j then members
    else Remaining(if Expires(q, i) then RemoveByAddress(members, q[i].recipient) else members, q, i + 1, j)
  }

  /** Where the pass stops: at the write that fails, or at the end. */
  ghost function StopAt(q: seq<Envelope>, times: seq<nat>, budget: nat, i: nat): (p: nat)
    requires i <= |q| <= |times|
    ensures i <= p <= |q|
    decreases |q| - i
  {
    if i == |q| then |q|
    else if !Goes(q, times, i) then StopAt(q, times, budget, i + 1)
    else if budget == 0 then i
    else StopAt(q, times, budget - 1, i + 1)
  }

  lemma {:induction false} StopIs(q: seq<Envelope>, times: seq<nat>, budget: nat, i: nat)
    requires i <= |q| <= |times|
    ensures var g := Going(q, times, i);
      StopAt(q, times, budget, i) == if budget < |g| then g[budget] else |q|
    decreases |q| - i
  {
    hide Goes;
    if i < |q| { StopIs(q, times, if Goes(q, times, i) && budget > 0 then budget - 1 else budget, i + 1); }
  }

  lemma {:induction false} GoingAre(q: seq<Envelope>, times: seq<nat>, i: nat, j: nat)
    requires i <= |q| <= |times|
    ensures j in Going(q, times, i) <==> i <= j < |q| && Goes(q, times, j)
    decreases |q| - i
  {
    hide Goes;
    if i < |q| {
      GoingAre(q, times, i + 1, j);
      assert j in Going(q, times, i) <==> (j == i && Goes(q, times, i)) || j in Going(q, times, i + 1);
    }
  }

  ghost predicate Rises(g: seq<nat>, lo: nat, hi: nat) {
    (forall k :: 0 <= k < |g| ==> lo <= g[k] < hi) && (forall j, k :: 0 <= j < k < |g| ==> g[j] < g[k])
  }

  lemma RisesMore(g: seq<nat>, lo: nat, hi: nat)
    requires Rises(g, lo + 1, hi) && lo < hi
    ensures Rises([lo] + g, lo, hi) && Rises(g, lo, hi)
  {
  }

  lemma {:induction false} GoingRises(q: seq<Envelope>, times: seq<nat>, i: nat)
    requires i <= |q| <= |times|
    ensures Rises(Going(q, times, i), i, |q|)
    decreases |q| - i
  {
    hide Goes, Rises;
    if i == |q| {
      NothingRises(|q|);
    } else {
      GoingRises(q, times, i + 1);
      RisesMore(Going(q, times, i + 1), i, |q|);
      assert [] + Going(q, times, i + 1) == Going(q, times, i + 1);
    }
  }

  lemma NothingRises(n: nat)
    ensures Rises([], n, n)
  {
  }

  lemma {:induction false} GoingCount(q: seq<Envelope>, times: seq<nat>, i: nat)
    requires i <= |q| <= |times|
    ensures |Going(q, times, i)| <= |q| - i
    ensures |Going(q, times, i)| == |q| - i <==> forall j :: i <= j < |q| ==> Goes(q, times, j)
    decreases |q| - i
  {
    hide Goes;
    if i < |q| { GoingCount(q, times, i + 1); }
  }

  // ----- following the pass -----

  /** The first envelope behind an expired one and those dropped with it is not itself dropped. */
  lemma AfterRun(q: seq<Envelope>, i: nat, i': nat)
    requires i < i' < |q| && !Dropped(q, i)
    requires forall l :: i < l < i' ==> q[l].recipient <= q[i].recipient
    requires !(q[i'].recipient <= q[i].recipient) || (i' == i + 1 && !(q[i].attempts >= q[i].maxAttempts > 1))
    ensures !Dropped(q, i')
  {
    forall j: nat | j < i' ensures !Drops(q, j, i') {
      if j < i {
        DropsLess(q, j, i, i');
      } else if j > i {
        PrefixOfPrefix(q[i'].recipient, q[j].recipient, q[i].recipient);
      }
    }
  }

  lemma DropsLess(q: seq<Envelope>, j: nat, i: nat, i': nat)
    requires j < i < i' < |q|
    ensures Drops(q, j, i') ==> Drops(q, j, i)
  {
  }

  lemma PrefixOfPrefix(a: Address, b: Address, c: Address)
    ensures a <= b && b <= c ==> a <= c
  {
  }

  /** Positions the pass does not ask about change nothing. */
  lemma {:induction false} Unasked(q: seq<Envelope>, times: seq<nat>, budget: nat, i: nat, i': nat)
    requires i <= i' <= |q| <= |times| && forall l :: i <= l < i' ==> !Asked(q, l)
    ensures Readings(q, i') == Readings(q, i)
    ensures Going(q, times, i) == Going(q, times, i') && StopAt(q, times, budget, i) == StopAt(q, times, budget, i')
    ensures forall end :: i' <= end <= |q| ==> Staying(q, times, i, end) == Staying(q, times, i', end)
    decreases i' - i
  {
    hide Asked;
    if i < i' { Unasked(q, times, budget, i + 1, i'); }
  }

  lemma {:induction false} Unexpired(members: seq<Member>, q: seq<Envelope>, i: nat, i': nat)
    requires i <= i' <= |q| && forall l :: i <= l < i' ==> !Expires(q, l)
    ensures forall end :: i' <= end <= |q| ==> Remaining(members, q, i, end) == Remaining(members, q, i', end)
    decreases i' - i
  {
    hide Expires;
    if i < i' { Unexpired(members, q, i + 1, i'); }
  }

  ghost predicate WriteOf(w: Write, e: Envelope, time: nat) {
    w.seqNum == e.seqNum && w.attempt == e.attempts && w.time == time && w.recipient == e.recipient
  }

  /** `r` is where a pass standing at position `i` of `q` leads. */
  ghost predicate Leads(q: seq<Envelope>, times: seq<nat>, budget: nat, i: nat, c: Cursor, r: Cursor)
    requires i <= |q| <= |times|
  {
    var g := Going(q, times, i);
    var n := if budget < |g| then budget else |g|;
    var end := StopAt(q, times, budget, i);
    && c.writes <= r.writes && |r.writes| == |c.writes| + n
    && (forall k :: 0 <= k < n ==> g[k] < |q| && WriteOf(r.writes[|c.writes| + k], q[g[k]], ReadingFor(q, times, g[k])))
    && (r.failed <==> budget < |g|)
    && r.Queue() == c.done + (Staying(q, times, i, end) + q[end..])
    && r.members == Remaining(c.members, q, i, end)
  }

  lemma ExpiredSkips(q: seq<Envelope>, times: seq<nat>, budget: nat, i: nat, i': nat)
    requires i < |q| <= |times| && q[i].attempts >= q[i].maxAttempts && !Dropped(q, i)
    requires i' == if q[i].maxAttempts > 1 then i + SameRecipientEnd(q[i..], 1, q[i].recipient) else i + 1
    ensures i < i' <= |q| && Readings(q, i') == Readings(q, i)
    ensures Going(q, times, i) == Going(q, times, i') && StopAt(q, times, budget, i) == StopAt(q, times, budget, i')
    ensures forall end :: i' <= end <= |q| ==> Staying(q, times, i, end) == Staying(q, times, i', end)
    ensures i' < |q| ==> !Dropped(q, i')
    ensures forall l :: i < l < i' ==> !Expires(q, l)
  {
    hide Dropped, Going, Staying, Readings, SameRecipientEnd, StopAt;
    var rest := q[i..];
    assert forall l :: i < l < i' ==> rest[l - i] == q[l];
    forall l | i <= l < i' ensures !Asked(q, l) && (l > i ==> !Expires(q, l)) {
      if l > i { DroppedBehind(q, i, l); }
    }
    Unasked(q, times, budget, i, i');
    if i' < |q| {
      assert rest[i' - i] == q[i'];
      AfterRun(q, i, i');
    }
  }

  lemma DroppedBehind(q: seq<Envelope>, j: nat, i: nat)
    requires j < i < |q| && Drops(q, j, i)
    ensures Dropped(q, i)
  {
  }

  lemma NotGoingStays(q: seq<Envelope>, times: seq<nat>, budget: nat, i: nat)
    requires i < |q| <= |times| && Asked(q, i) && !Goes(q, times, i)
    ensures Going(q, times, i) == Going(q, times, i + 1) && StopAt(q, times, budget, i) == StopAt(q, times, budget, i + 1)
    ensures forall end :: i < end <= |q| ==> Staying(q, times, i, end) == [q[i]] + Staying(q, times, i + 1, end)
  {
    hide Asked, Goes;
  }

  lemma AskedStays(q: seq<Envelope>, members: seq<Member>, i: nat)
    requires i < |q| && Asked(q, i)
    ensures forall end :: i < end <= |q| ==> Remaining(members, q, i, end) == Remaining(members, q, i + 1, end)
  {
  }

  lemma LeadsSkip(q: seq<Envelope>, times: seq<nat>, budget: nat, i: nat, c: Cursor, r: Cursor)
    requires i < |q| <= |times| && c.rest != [] && c.rest[0] == q[i] && Asked(q, i) && !Goes(q, times, i)
    requires Leads(q, times, budget, i + 1, Skip(c), r)
    ensures Leads(q, times, budget, i, c, r)
  {
    hide Asked, Goes, Going, Staying, ReadingFor, WriteOf, StopAt, Remaining;
    NotGoingStays(q, times, budget, i);
    AskedStays(q, c.members, i);
    var end := StopAt(q, times, budget, i);
    var more := Staying(q, times, i + 1, end);
    assert c.done + ([q[i]] + more + q[end..]) == (c.done + [q[i]]) + (more + q[end..]);
  }

  lemma GoingStays(q: seq<Envelope>, times: seq<nat>, budget: nat, i: nat)
    requires i < |q| <= |times| && Goes(q, times, i) && budget > 0
    ensures Going(q, times, i) == [i] + Going(q, times, i + 1)
    ensures StopAt(q, times, budget, i) == StopAt(q, times, budget - 1, i + 1)
    ensures forall end :: i < end <= |q| ==>
              Staying(q, times, i, end) == StayingOne(q, times, i) + Staying(q, times, i + 1, end)
  {
    hide Goes, StayingOne;
  }

  lemma TransmitStays(q: seq<Envelope>, times: seq<nat>, i: nat, c: Cursor)
    requires i < |q| <= |times| && c.rest != [] && c.rest[0] == q[i] && Goes(q, times, i)
    ensures var c' := Transmit(c, ReadingFor(q, times, i), true);
      c'.done == c.done + StayingOne(q, times, i) && c'.members == c.members
  {
    hide Patched, ReadingFor;
    assert c.done + [] == c.done;
  }

  lemma LeadsWrite(q: seq<Envelope>, times: seq<nat>, budget: nat, i: nat, c: Cursor, r: Cursor)
    requires i < |q| <= |times| && c.rest != [] && c.rest[0] == q[i] && Goes(q, times, i) && budget > 0
    requires Leads(q, times, budget - 1, i + 1, Transmit(c, ReadingFor(q, times, i), true), r)
    ensures Leads(q, times, budget, i, c, r)
  {
    hide Goes, ReadingFor, Patched, Remaining, Going, StopAt, Staying, StayingOne, Asked;
    var c' := Transmit(c, ReadingFor(q, times, i), true);
    var g, g' := Going(q, times, i), Going(q, times, i + 1);
    GoingStays(q, times, budget, i);
    GoesAsked(q, times, i);
    AskedStays(q, c.members, i);
    var end := StopAt(q, times, budget, i);
    assert r.Queue() == c.done + (Staying(q, times, i, end) + q[end..]) by {
      TransmitStays(q, times, i, c);
      Regroup(c.done, StayingOne(q, times, i), Staying(q, times, i + 1, end), q[end..]);
    }
    assert r.writes[|c.writes|] == c'.writes[|c.writes|];
    var n := if budget < |g| then budget else |g|;
    forall k | 0 <= k < n
      ensures g[k] < |q| && WriteOf(r.writes[|c.writes| + k], q[g[k]], ReadingFor(q, times, g[k]))
    {
      if k > 0 { assert g[k] == g'[k - 1] && |c'.writes| + (k - 1) == |c.writes| + k; }
    }
  }

  lemma Regroup<T>(a: seq<T>, b: seq<T>, c: seq<T>, d: seq<T>)
    ensures a + (b + c + d) == (a + b) + (c + d)
  {
  }

  lemma GoesAsked(q: seq<Envelope>, times: seq<nat>, i: nat)
    requires i < |q| <= |times|
    ensures Goes(q, times, i) ==> Asked(q, i)
  {
  }

  /** From a position that is not dropped, the pass does exactly what the positions say. */
  lemma {:induction false} PassFrom(q: seq<Envelope>, times: seq<nat>, budget: nat, i: nat, c: Cursor)
    requires i <= |q| <= |times| && c.rest == q[i..] && !c.failed && (i < |q| ==> !Dropped(q, i))
    ensures Leads(q, times, budget, i, c, Pass(c, times[Readings(q, i)..], budget))
    decreases |q| - i
  {
    hide Patched, RemoveByAddress, Waiting, Dropped, Leads, SameRecipientEnd;
    if i == |q| {
      LeadsEnd(q, times, budget, c);
    } else if q[i].attempts >= q[i].maxAttempts {
      var e := c.rest[0];
      var i' := if e.maxAttempts > 1 then i + SameRecipientEnd(c.rest, 1, e.recipient) else i + 1;
      ExpiredSkips(q, times, budget, i, i');
      assert Expire(c).rest == q[i'..];
      PassFrom(q, times, budget, i', Expire(c));
      LeadsExpire(q, times, budget, i, i', c, Pass(Expire(c), times[Readings(q, i)..], budget));
    } else {
      PassAsks(q, times, budget, i, c);
    }
  }

  lemma {:induction false} PassAsks(q: seq<Envelope>, times: seq<nat>, budget: nat, i: nat, c: Cursor)
    requires i < |q| <= |times| && c.rest == q[i..] && !c.failed && Asked(q, i)
    ensures Leads(q, times, budget, i, c, Pass(c, times[Readings(q, i)..], budget))
    decreases |q| - i, 0
  {
    hide Patched, Dropped, Leads;
    var k := Readings(q, i);
    assert times[k..][0] == times[k] && times[k..][1..] == times[k + 1..];
    assert Readings(q, i + 1) == k + 1;
    if i + 1 < |q| { AfterRun(q, i, i + 1); }
    if !Goes(q, times, i) {
      PassFrom(q, times, budget, i + 1, Skip(c));
      LeadsSkip(q, times, budget, i, c, Pass(Skip(c), times[k + 1..], budget));
    } else if budget > 0 {
      PassFrom(q, times, budget - 1, i + 1, Transmit(c, times[k], true));
      LeadsWrite(q, times, budget, i, c, Pass(Transmit(c, times[k], true), times[k + 1..], budget - 1));
    } else {
      LeadsFail(q, times, i, c);
    }
  }

  lemma LeadsEnd(q: seq<Envelope>, times: seq<nat>, budget: nat, c: Cursor)
    requires |q| <= |times| && c.rest == [] && !c.failed
    ensures Leads(q, times, budget, |q|, c, c)
  {
    assert c.done + ([] + q[|q|..]) == c.done + c.rest;
  }

  lemma LeadsExpire(q: seq<Envelope>, times: seq<nat>, budget: nat, i: nat, i': nat, c: Cursor, r: Cursor)
    requires i < i' <= |q| <= |times| && c.rest != [] && c.rest[0] == q[i] && Leads(q, times, budget, i', Expire(c), r)
    requires q[i].attempts >= q[i].maxAttempts && !Dropped(q, i)
    requires Going(q, times, i) == Going(q, times, i') && StopAt(q, times, budget, i) == StopAt(q, times, budget, i')
    requires forall end :: i' <= end <= |q| ==> Staying(q, times, i, end) == Staying(q, times, i', end)
    requires forall l :: i < l < i' ==> !Expires(q, l)
    ensures Leads(q, times, budget, i, c, r)
  {
    hide Going, Staying, WriteOf, ReadingFor, SameRecipientEnd, RemoveByAddress, StopAt, Dropped;
    Unexpired(Expire(c).members, q, i + 1, i');
  }

  lemma LeadsFail(q: seq<Envelope>, times: seq<nat>, i: nat, c: Cursor)
    requires i < |q| <= |times| && c.rest == q[i..] && Goes(q, times, i)
    ensures Leads(q, times, 0, i, c, Transmit(c, ReadingFor(q, times, i), false))
  {
    hide Patched, Goes, ReadingFor, WriteOf;
    assert [] + q[i..] == q[i..];
  }

  // ----- the main results -----

  function StartPass(q: seq<Envelope>, slots: Slots, members: seq<Member>, writes: seq<Write>): Cursor {
    Cursor([], q, slots, members, writes, false)
  }

  /** A pass writes, in queue order and until a write fails, exactly the envelopes that have attempts left, were not
      dropped behind an expired one, and are due at the clock reading taken for them. Up to where it stops, the written
      ones that may be tried again and the waiting ones stay, in order, and the member at the recipient of each expired
      one is forgotten; from there on the queue is as it was. */
  lemma PassWritesExactly(q: seq<Envelope>, slots: Slots, members: seq<Member>, writes: seq<Write>,
                          times: seq<nat>, budget: nat)
    requires |q| <= |times|
    ensures var r := Pass(StartPass(q, slots, members, writes), times, budget);
      var g := Going(q, times, 0);
      var end := StopAt(q, times, budget, 0);
      && (forall i: nat :: i in g <==> i < |q| && Goes(q, times, i)) && (forall j, k :: 0 <= j < k < |g| ==> g[j] < g[k])
      && writes <= r.writes && |r.writes| == |writes| + (if budget < |g| then budget else |g|)
      && (forall k :: 0 <= k < |r.writes| - |writes| ==>
            g[k] < |q| && WriteOf(r.writes[|writes| + k], q[g[k]], ReadingFor(q, times, g[k])))
      && (r.failed <==> budget < |g|) && end == (if budget < |g| then g[budget] else |q|)
      && r.Queue() == Staying(q, times, 0, end) + q[end..]
      && r.members == Remaining(members, q, 0, end)
  {
    hide Pass, Dropped, Going, Staying, Goes, ReadingFor, WriteOf, StopAt, Remaining;
    var c := StartPass(q, slots, members, writes);
    assert c.rest == q[0..] && times[0..] == times;
    NoneDroppedFirst(q);
    PassFrom(q, times, budget, 0, c);
    GoingRises(q, times, 0);
    forall i: nat ensures i in Going(q, times, 0) <==> i < |q| && Goes(q, times, i) { GoingAre(q, times, 0, i); }
    StopIs(q, times, budget, 0);
    assert forall x: seq<Envelope> :: [] + x == x;
  }

  /** Whom a pass forgets: from one list of members to the next, each envelope that ran out of attempts without its
      acknowledgement takes the first member at its recipient, if there is one; no other envelope takes any. */
  lemma PassForgetsExactly(q: seq<Envelope>, slots: Slots, members: seq<Member>, writes: seq<Write>,
                           times: seq<nat>, budget: nat) returns (lists: seq<seq<Member>>)
    requires |q| <= |times|
    ensures var r := Pass(StartPass(q, slots, members, writes), times, budget);
      var end := StopAt(q, times, budget, 0);
      && |lists| == end + 1 && lists[0] == members && lists[end] == r.members
      && forall i :: 0 <= i < end ==>
           if q[i].attempts >= q[i].maxAttempts > 1 && !Dropped(q, i)
           then DropsFirst(lists[i], q[i].recipient, lists[i + 1])
           else lists[i + 1] == lists[i]
  {
    hide Pass, StopAt, Dropped, DropsFirst;
    PassWritesExactly(q, slots, members, writes, times, budget);
    lists := RemainingLists(members, q, 0, StopAt(q, times, budget, 0));
  }

  lemma {:induction false} RemainingLists(members: seq<Member>, q: seq<Envelope>, i: nat, j: nat)
    returns (lists: seq<seq<Member>>)
    requires i <= j <= |q|
    ensures |lists| == j - i + 1 && lists[0] == members && lists[j - i] == Remaining(members, q, i, j)
    ensures forall l :: i <= l < j ==>
              if Expires(q, l) then DropsFirst(lists[l - i], q[l].recipient, lists[l - i + 1])
              else lists[l - i + 1] == lists[l - i]
    decreases j - i
  {
    hide Expires, DropsFirst, RemoveByAddress;
    if i == j {
      lists := [members];
    } else {
      RemovalDropsFirst(members, q[i].recipient);
      var after := if Expires(q, i) then RemoveByAddress(members, q[i].recipient) else members;
      var rest := RemainingLists(after, q, i + 1, j);
      lists := [members] + rest;
      forall l | i <= l < j
        ensures if Expires(q, l) then DropsFirst(lists[l - i], q[l].recipient, lists[l - i + 1])
                else lists[l - i + 1] == lists[l - i]
      {
        if l > i { assert lists[l - i] == rest[l - i - 1] && lists[l - i + 1] == rest[l - i]; }
      }
    }
  }

  lemma NoneDroppedFirst(q: seq<Envelope>)
    ensures q != [] ==> !Dropped(q, 0)
  {
  }

  /** A pass with successful writes writes all queued envelopes if and only if each has attempts left and is due. */
  lemma AllAreWritten(q: seq<Envelope>, slots: Slots, members: seq<Member>, writes: seq<Write>,
                      times: seq<nat>, budget: nat)
    requires |q| <= |times| && budget >= |q|
    ensures |Pass(StartPass(q, slots, members, writes), times, budget).writes| == |writes| + |q| <==>
            forall i :: 0 <= i < |q| ==>
              && q[i].attempts < q[i].maxAttempts
              && (q[i].attempts == 0 || q[i].attemptTs + MESSAGE_RETRY_INTERVAL <= times[i])
  {
    hide Pass, Going, StopAt, Staying, Remaining;
    PassWritesExactly(q, slots, members, writes, times, budget);
    GoingCount(q, times, 0);
    if forall i :: 0 <= i < |q| ==> q[i].attempts < q[i].maxAttempts {
      forall i | 0 <= i < |q|
        ensures Goes(q, times, i) <==> q[i].attempts == 0 || q[i].attemptTs + MESSAGE_RETRY_INTERVAL <= times[i]
      {
        NoneExhausted(q, i);
      }
    } else {
      var i :| 0 <= i < |q| && q[i].attempts >= q[i].maxAttempts;
      assert !Goes(q, times, i);
    }
  }

  lemma {:induction false} NoneExhausted(q: seq<Envelope>, i: nat)
    requires i < |q| && forall j :: 0 <= j < |q| ==> q[j].attempts < q[j].maxAttempts
    ensures Readings(q, i) == i && Asked(q, i)
  {
    if i > 0 { NoneExhausted(q, i - 1); }
  }

  /** Each envelope, attempted again or waiting. */
  function Again(q: seq<Envelope>, times: seq<nat>): (r: seq<Envelope>)
    requires |q| <= |times|
    ensures |r| == |q|
    ensures forall j :: 0 <= j < |q| ==> r[j] == if Waiting(q[j], times[j]) then q[j] else Attempted(q[j], times[j])
  {
    seq(|q|, j requires 0 <= j < |q| => if Waiting(q[j], times[j]) then q[j] else Attempted(q[j], times[j]))
  }

  lemma StaysAgain(q: seq<Envelope>, times: seq<nat>, i: nat)
    requires i < |q| <= |times| && forall j :: 0 <= j < |q| ==> q[j].attempts < q[j].maxAttempts && q[j].maxAttempts > 1
    ensures StayingOne(q, times, i) == [Again(q, times)[i]]
  {
    NoneExhausted(q, i);
    hide Dropped, Readings;
  }

  /** While no envelope is out of attempts or sent only once, all stay. */
  lemma {:induction false} AllStay(q: seq<Envelope>, times: seq<nat>, i: nat)
    requires i <= |q| <= |times| && forall j :: 0 <= j < |q| ==> q[j].attempts < q[j].maxAttempts && q[j].maxAttempts > 1
    ensures Staying(q, times, i, |q|) == Again(q, times)[i..]
    decreases |q| - i
  {
    hide Again, StayingOne;
    if i < |q| {
      AllStay(q, times, i + 1);
      StaysAgain(q, times, i);
      assert Again(q, times)[i..] == [Again(q, times)[i]] + Again(q, times)[i + 1..];
    }
  }

  // ----- emptying the queue -----

  lemma {:induction false} StayingFrom(q: seq<Envelope>, times: seq<nat>, i: nat, e: Envelope)
    requires i <= |q| <= |times| && e in Staying(q, times, i, |q|)
    ensures exists j :: i <= j < |q| && e in StayingOne(q, times, j)
    decreases |q| - i
  {
    hide StayingOne;
    if e !in StayingOne(q, times, i) { StayingFrom(q, times, i + 1, e); }
  }

  /** One pass whose writes all succeed. */
  function SendAll(q: seq<Envelope>, slots: Slots, members: seq<Member>, times: seq<nat>): (r: Cursor)
    requires |times| >= |q|
    ensures |r.Queue()| <= |q|
  {
    Pass(StartPass(q, slots, members, []), times, |q|)
  }

  /** Every reading of `b` is at least 10000 ms after every reading of `a`. */
  ghost predicate Spaced(a: seq<nat>, b: seq<nat>) {
    forall s, t :: s in a && t in b ==> s + MESSAGE_RETRY_INTERVAL <= t
  }

  /** The envelope has at least `k` attempts behind it, the last one no later than some reading of `times`. */
  ghost predicate Tried(e: Envelope, k: nat, times: seq<nat>) {
    e.attempts >= k && e.maxAttempts <= MESSAGE_RETRY_ATTEMPTS && exists t :: t in times && e.attemptTs <= t
  }

  lemma AllOf<T>(s: seq<T>, q: seq<T>)
    ensures s + q[|q|..] == s
  {
  }

  lemma FirstPassAttempts(q: seq<Envelope>, slots: Slots, members: seq<Member>, times: seq<nat>)
    requires |times| >= |q| && forall e :: e in q ==> e.maxAttempts <= MESSAGE_RETRY_ATTEMPTS
    requires forall e, t :: e in q && t in times ==> e.attemptTs <= t
    ensures forall e :: e in SendAll(q, slots, members, times).Queue() ==> Tried(e, 1, times)
  {
    hide Pass, Going, Staying, Asked, Goes, Remaining, StopAt;
    PassWritesExactly(q, slots, members, [], times, |q|);
    GoingCount(q, times, 0);
    AllOf(Staying(q, times, 0, |q|), q);
    forall e | e in Staying(q, times, 0, |q|) ensures Tried(e, 1, times) {
      StayingFrom(q, times, 0, e);
      var j :| 0 <= j < |q| && e in StayingOne(q, times, j);
      assert ReadingFor(q, times, j) in times;
      NotGoing(q, times, j);
    }
  }

  lemma NotGoing(q: seq<Envelope>, times: seq<nat>, i: nat)
    requires i < |q| <= |times|
    ensures Asked(q, i) ==> (!Goes(q, times, i) <==> Waiting(q[i], ReadingFor(q, times, i)))
    ensures Asked(q, i) ==> q[i].attempts < q[i].maxAttempts
  {
  }

  lemma NextPassAttempts(q: seq<Envelope>, slots: Slots, members: seq<Member>, last: seq<nat>, times: seq<nat>, k: nat)
    requires |times| >= |q| && Spaced(last, times) && forall e :: e in q ==> Tried(e, k, last)
    ensures forall e :: e in SendAll(q, slots, members, times).Queue() ==> Tried(e, k + 1, times)
    ensures k >= MESSAGE_RETRY_ATTEMPTS ==> SendAll(q, slots, members, times).Queue() == []
  {
    hide Pass, Going, Staying, Asked, Goes, Remaining, StopAt;
    PassWritesExactly(q, slots, members, [], times, |q|);
    GoingCount(q, times, 0);
    AllOf(Staying(q, times, 0, |q|), q);
    forall e | e in Staying(q, times, 0, |q|) ensures Tried(e, k + 1, times) && k < MESSAGE_RETRY_ATTEMPTS {
      StayingFrom(q, times, 0, e);
      var j :| 0 <= j < |q| && e in StayingOne(q, times, j);
      assert Tried(q[j], k, last);
      assert ReadingFor(q, times, j) in times;
      NotGoing(q, times, j);
    }
    HeadIn(Staying(q, times, 0, |q|));
  }

  lemma HeadIn<T>(s: seq<T>)
    ensures s != [] ==> s[0] in s
  {
  }

  /** With successful writes and nothing new queued, four passes at least 10000 ms apart empty the queue, whether or
      not its envelopes are due at the first, as long as none was stamped after it. */
  lemma FourPassesEmpty(q: seq<Envelope>, slots: Slots, members: seq<Member>,
                        t0: seq<nat>, t1: seq<nat>, t2: seq<nat>, t3: seq<nat>)
    requires forall e :: e in q ==> e.maxAttempts <= MESSAGE_RETRY_ATTEMPTS
    requires |t0| >= |q| && |t1| >= |q| && |t2| >= |q| && |t3| >= |q|
    requires forall e, t :: e in q && t in t0 ==> e.attemptTs <= t
    requires Spaced(t0, t1) && Spaced(t1, t2) && Spaced(t2, t3)
    ensures var c0 := SendAll(q, slots, members, t0);
      var c1 := SendAll(c0.Queue(), c0.slots, c0.members, t1);
      var c2 := SendAll(c1.Queue(), c1.slots, c1.members, t2);
      SendAll(c2.Queue(), c2.slots, c2.members, t3).Queue() == []
  {
    hide SendAll, Tried, Spaced;
    var c0 := SendAll(q, slots, members, t0);
    FirstPassAttempts(q, slots, members, t0);
    var c1 := SendAll(c0.Queue(), c0.slots, c0.members, t1);
    NextPassAttempts(c0.Queue(), c0.slots, c0.members, t0, t1, 1);
    var c2 := SendAll(c1.Queue(), c1.slots, c1.members, t2);
    NextPassAttempts(c1.Queue(), c1.slots, c1.members, t1, t2, 2);
    NextPassAttempts(c2.Queue(), c2.slots, c2.members, t2, t3, 3);
  }
}
