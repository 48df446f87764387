/** The order and the join on vector clocks, read as partial maps from ids to sequence numbers. */
module ClockOrder {
  import opened Types
  import opened Rings

  datatype Relation = Before | After | Equal | Conflict {
    function Mirror(): Relation {
      match this
      case Before => After
      case After => Before
      case _ => this
    }
  }

  type Clock = Ring<uint32>

  /** An absent id ranks below every present one. */
  ghost predicate Leq(a: seq<Record>, b: seq<Record>) {
    forall k: MemberId :: Lookup(a, k).Some? ==> Lookup(b, k).Some? && Lookup(a, k).value <= Lookup(b, k).value
  }

  /** The partial-order relation of two clocks. */
  ghost function OrderOf(a: seq<Record>, b: seq<Record>): Relation {
    Judge(!Leq(a, b), !Leq(b, a))
  }

  function Judge(ahead: bool, behind: bool): Relation {
    if ahead && behind then Conflict else if ahead then After else if behind then Before else Equal
  }

  /** How the scan folds one more observation into its result. */
  function Resolve(prev: Relation, next: Relation): Relation {
    if prev != Equal && next != prev then Conflict else next
  }

  /** What the scan observes at one record of the first clock. */
  predicate AheadAt(a: seq<Record>, b: seq<Record>, i: nat)
    requires i < |a|
  {
    var j := Find(b, a[i].key);
    j < 0 || a[i].val > b[j].val
  }

  predicate BehindAt(a: seq<Record>, b: seq<Record>, i: nat)
    requires i < |a|
  {
    var j := Find(b, a[i].key);
    j >= 0 && a[i].val < b[j].val
  }

  /** No record of `a` leads the scan to position `j` of `b`. */
  predicate Unvisited(a: seq<Record>, b: seq<Record>, j: nat) {
    forall i :: 0 <= i < |a| ==> Find(b, a[i].key) != j
  }

  /** The relation the scan reports, for any two lists of records. */
  function Compare(a: seq<Record>, b: seq<Record>): Relation {
    Judge(exists i :: 0 <= i < |a| && AheadAt(a, b, i),
          (exists i :: 0 <= i < |a| && BehindAt(a, b, i)) || exists j :: 0 <= j < |b| && Unvisited(a, b, j))
  }

  function CompareRecord(a: seq<Record>, r: Record): Relation {
    match Lookup(a, r.key)
    case None => Before
    case Some(s) => if s > r.val then After else if s < r.val then Before else Equal
  }

  function MergeRecord(c: Clock, r: Record): Clock {
    if CompareRecord(c.items, r) == Before then Put(c, MAX_VECTOR_SIZE, r.key, r.val) else c
  }

  lemma AheadMeansNotLeq(a: seq<Record>, b: seq<Record>)
    requires Distinct(a)
    ensures (exists i :: 0 <= i < |a| && AheadAt(a, b, i)) <==> !Leq(a, b)
  {
    if !Leq(a, b) {
      var k :| Lookup(a, k).Some? && !(Lookup(b, k).Some? && Lookup(a, k).value <= Lookup(b, k).value);
      assert AheadAt(a, b, Find(a, k));
    }
    if i :| 0 <= i < |a| && AheadAt(a, b, i) {
      LookupIn(a, i);
      assert Lookup(a, a[i].key).Some?;
    }
  }

  lemma BehindMeansNotLeq(a: seq<Record>, b: seq<Record>)
    requires Distinct(a) && Distinct(b)
    ensures (exists i :: 0 <= i < |a| && BehindAt(a, b, i)) || (exists j :: 0 <= j < |b| && Unvisited(a, b, j))
            <==> !Leq(b, a)
  {
    if !Leq(b, a) {
      var k :| Lookup(b, k).Some? && !(Lookup(a, k).Some? && Lookup(b, k).value <= Lookup(a, k).value);
      if Lookup(a, k).Some? {
        assert BehindAt(a, b, Find(a, k));
      } else {
        assert Unvisited(a, b, Find(b, k));
      }
    }
    if i :| 0 <= i < |a| && BehindAt(a, b, i) {
      LookupIn(a, i);
      assert Lookup(b, a[i].key).Some?;
    }
    if j :| 0 <= j < |b| && Unvisited(a, b, j) {
      LookupIn(b, j);
      FindUnique(b, j);
      assert Lookup(b, b[j].key).Some?;
      assert forall i :: 0 <= i < |a| ==> a[i].key != b[j].key;
    }
  }

  /** What the scan reports for any second clock, as one that repeats an id may arrive: a repetition counts as behind. */
  lemma CompareAny(a: seq<Record>, b: seq<Record>)
    requires Distinct(a)
    ensures Compare(a, b) == Judge(!Leq(a, b), !Leq(b, a) || !Distinct(b))
  {
    hide Leq, Unvisited, AheadAt, BehindAt, Distinct;
    AheadMeansNotLeq(a, b);
    if Distinct(b) {
      BehindMeansNotLeq(a, b);
    } else {
      RepeatedIsUnvisited(a, b);
    }
  }

  lemma RepeatedIsUnvisited(a: seq<Record>, b: seq<Record>)
    requires !Distinct(b)
    ensures exists j :: 0 <= j < |b| && Unvisited(a, b, j)
  {
    var i, j :| 0 <= i < j < |b| && b[i].key == b[j].key;
    assert Unvisited(a, b, j);
  }

  /** The scan decides the partial order, given that no id occurs twice in a clock. */
  lemma CompareIsOrder(a: seq<Record>, b: seq<Record>)
    requires Distinct(a) && Distinct(b)
    ensures Compare(a, b) == OrderOf(a, b)
  {
    hide Leq, Unvisited, AheadAt, BehindAt;
    AheadMeansNotLeq(a, b);
    BehindMeansNotLeq(a, b);
  }

  /** Swapping the clocks mirrors the answer. */
  lemma CompareMirrors(a: seq<Record>, b: seq<Record>)
    requires Distinct(a) && Distinct(b)
    ensures Compare(b, a) == Compare(a, b).Mirror()
  {
    CompareIsOrder(a, b);
    CompareIsOrder(b, a);
  }

  // ----- merging -----

  function MaxOf(a: Option<uint32>, b: Option<uint32>): Option<uint32> {
    if a.None? then b else if b.None? then a else if a.value < b.value then b else a
  }

  function Raise(a: seq<Record>, b: seq<Record>): (r: seq<Record>)
    ensures |r| == |a| && forall i :: 0 <= i < |a| ==> r[i].key == a[i].key
  {
    seq(|a|, i requires 0 <= i < |a| => if BehindAt(a, b, i) then Entry(a[i].key, b[Find(b, a[i].key)].val) else a[i])
  }

  /** The unvisited records among the first `n` of `b`, in order. */
  function MissingUpTo(a: seq<Record>, b: seq<Record>, n: nat): seq<Record>
    requires n <= |b|
  {
    if n == 0 then [] else MissingUpTo(a, b, n - 1) + if Unvisited(a, b, n - 1) then [b[n - 1]] else []
  }

  function Missing(a: seq<Record>, b: seq<Record>): seq<Record> {
    MissingUpTo(a, b, |b|)
  }

  function PutAll(c: Clock, rs: seq<Record>): Clock {
    if rs == [] then c
    else Put(PutAll(c, rs[..|rs| - 1]), MAX_VECTOR_SIZE, rs[|rs| - 1].key, rs[|rs| - 1].val)
  }

  function Merge(c: Clock, b: seq<Record>): Clock {
    PutAll(c.(items := Raise(c.items, b)), Missing(c.items, b))
  }

  ghost predicate Apart(a: seq<Record>, b: seq<Record>) {
    forall i, j :: 0 <= i < |a| && 0 <= j < |b| ==> a[i].key != b[j].key
  }

  lemma {:induction false} MissingProps(a: seq<Record>, b: seq<Record>, n: nat)
    requires n <= |b| && Distinct(a) && Distinct(b)
    ensures Distinct(MissingUpTo(a, b, n)) && Apart(a, MissingUpTo(a, b, n))
    ensures forall i :: 0 <= i < |MissingUpTo(a, b, n)| ==> MissingUpTo(a, b, n)[i] in b[..n]
    ensures forall j :: 0 <= j < n && Lookup(a, b[j].key).None? ==> b[j] in MissingUpTo(a, b, n)
  {
    hide Unvisited;
    if n > 0 {
      MissingProps(a, b, n - 1);
      UnvisitedMeansAbsent(a, b, n - 1);
    }
  }

  lemma UnvisitedMeansAbsent(a: seq<Record>, b: seq<Record>, j: nat)
    requires j < |b| && Distinct(b)
    ensures Unvisited(a, b, j) ==> forall i :: 0 <= i < |a| ==> a[i].key != b[j].key
    ensures Lookup(a, b[j].key).None? ==> Unvisited(a, b, j)
  {
  }

  lemma LastOfLast<T>(s: seq<T>, x: T, n: nat)
    ensures Last(Last(s, n) + [x], n) == Last(s + [x], n)
  {
  }

  /** Inserting fresh ids one by one keeps the newest `MAX_VECTOR_SIZE` of everything inserted. */
  lemma {:induction false} PutAllFresh(c: Clock, rs: seq<Record>)
    requires ValidRing(c, MAX_VECTOR_SIZE) && Distinct(rs) && Apart(c.items, rs)
    ensures ValidRing(PutAll(c, rs), MAX_VECTOR_SIZE)
    ensures Fifo(PutAll(c, rs), MAX_VECTOR_SIZE) == Last(Fifo(c, MAX_VECTOR_SIZE) + rs, MAX_VECTOR_SIZE)
  {
    hide Put, Find, FindFrom;
    var f := Fifo(c, MAX_VECTOR_SIZE);
    if rs == [] {
      assert f + rs == f;
    } else {
      var n := |rs| - 1;
      var c' := PutAll(c, rs[..n]);
      PutAllFresh(c, rs[..n]);
      PutKeepsValid(c', MAX_VECTOR_SIZE, rs[n].key, rs[n].val);
      PutIsFifoPut(c', MAX_VECTOR_SIZE, rs[n].key, rs[n].val);
      assert f + rs == (f + rs[..n]) + [rs[n]];
      LastOfLast(f + rs[..n], rs[n], MAX_VECTOR_SIZE);
      FreshInLast(c, rs);
    }
  }

  lemma FreshInLast(c: Clock, rs: seq<Record>)
    requires rs != [] && Distinct(rs) && Apart(c.items, rs)
    ensures var n := |rs| - 1;
      Find(Last(Fifo(c, MAX_VECTOR_SIZE) + rs[..n], MAX_VECTOR_SIZE), rs[n].key) < 0
  {
  }

  /** Merging keeps the newest entries of: the first clock oldest first with raised numbers,
      then the ids only the second clock has, in its order. */
  lemma MergeIsBoundedFifo(c: Clock, b: seq<Record>)
    requires ValidRing(c, MAX_VECTOR_SIZE) && Distinct(b)
    ensures ValidRing(Merge(c, b), MAX_VECTOR_SIZE)
    ensures Fifo(Merge(c, b), MAX_VECTOR_SIZE) ==
            Last(Raise(Fifo(c, MAX_VECTOR_SIZE), b) + Missing(c.items, b), MAX_VECTOR_SIZE)
  {
    hide Put, PutAll, MissingUpTo, Find;
    var raised := c.(items := Raise(c.items, b));
    MissingProps(c.items, b, |b|);
    PutAllFresh(raised, Missing(c.items, b));
    assert Fifo(raised, MAX_VECTOR_SIZE) == Raise(Fifo(c, MAX_VECTOR_SIZE), b);
  }

  lemma RaiseLookup(a: seq<Record>, b: seq<Record>, k: MemberId)
    requires Distinct(a)
    ensures Lookup(Raise(a, b), k) ==
            if Lookup(a, k).None? then None else MaxOf(Lookup(a, k), Lookup(b, k))
  {
  }

  lemma AppendLookup<V>(a: seq<Entry<V>>, b: seq<Entry<V>>, k: MemberId)
    ensures Lookup(a + b, k) == if Lookup(a, k).Some? then Lookup(a, k) else Lookup(b, k)
  {
    var i, j := Find(a, k), Find(b, k);
    var n := Find(a + b, k);
    if i >= 0 {
      assert (a + b)[i].key == k;
    } else if j >= 0 {
      assert (a + b)[|a| + j].key == k;
    }
  }

  /** While the union fits the clock, merging is the pointwise maximum. */
  lemma MergeIsJoin(c: Clock, b: seq<Record>, k: MemberId)
    requires ValidRing(c, MAX_VECTOR_SIZE) && Distinct(b)
    requires |c.items| + |Missing(c.items, b)| <= MAX_VECTOR_SIZE
    ensures Lookup(Merge(c, b).items, k) == MaxOf(Lookup(c.items, k), Lookup(b, k))
  {
    var f := Fifo(c, MAX_VECTOR_SIZE);
    var more := Missing(c.items, b);
    MergeIsBoundedFifo(c, b);
    FifoLookup(c, MAX_VECTOR_SIZE, k);
    FifoLookup(Merge(c, b), MAX_VECTOR_SIZE, k);
    RaiseLookup(f, b, k);
    AppendLookup(Raise(f, b), more, k);
    MissingProps(c.items, b, |b|);
    var j := Find(b, k);
    if Lookup(c.items, k).None? {
      if j >= 0 {
        var i :| 0 <= i < |more| && more[i] == b[j];
        FindUnique(more, i);
      }
    }
  }

  /** Merging is the pointwise maximum exactly when the union fits the clock: otherwise the oldest id is lost. */
  lemma MergeIsJoinExactly(c: Clock, b: seq<Record>)
    requires ValidRing(c, MAX_VECTOR_SIZE) && Distinct(b)
    ensures (forall k: MemberId :: Lookup(Merge(c, b).items, k) == MaxOf(Lookup(c.items, k), Lookup(b, k))) <==>
            |c.items| + |Missing(c.items, b)| <= MAX_VECTOR_SIZE
  {
    hide Put, PutAll, MissingUpTo, Find, Fifo, Merge;
    if |c.items| + |Missing(c.items, b)| <= MAX_VECTOR_SIZE {
      forall k: MemberId ensures Lookup(Merge(c, b).items, k) == MaxOf(Lookup(c.items, k), Lookup(b, k)) { MergeIsJoin(c, b, k); }
    } else {
      var all := Raise(Fifo(c, MAX_VECTOR_SIZE), b) + Missing(c.items, b);
      OldestIsLost(c, b, all[0].key);
      assert Lookup(Merge(c, b).items, all[0].key) != MaxOf(Lookup(c.items, all[0].key), Lookup(b, all[0].key));
    }
  }

  lemma OldestIsLost(c: Clock, b: seq<Record>, k: MemberId)
    requires ValidRing(c, MAX_VECTOR_SIZE) && Distinct(b) && |c.items| + |Missing(c.items, b)| > MAX_VECTOR_SIZE
    requires var all := Raise(Fifo(c, MAX_VECTOR_SIZE), b) + Missing(c.items, b); all != [] && k == all[0].key
    ensures Lookup(Merge(c, b).items, k).None? && (Lookup(c.items, k).Some? || Lookup(b, k).Some?)
  {
    var f, more := Fifo(c, MAX_VECTOR_SIZE), Missing(c.items, b);
    var all := Raise(f, b) + more;
    MergeIsBoundedFifo(c, b);
    FifoLookup(c, MAX_VECTOR_SIZE, k);
    FifoLookup(Merge(c, b), MAX_VECTOR_SIZE, k);
    MissingProps(c.items, b, |b|);
    hide Put, PutAll, MissingUpTo, Merge, Fifo;
    forall i | 0 < i < |all| ensures all[i].key != k { FirstIsAlone(c, b, f, more, i); }
    if f != [] { LookupIn(f, 0); } else { assert more[0] in b; }
  }

  lemma FirstIsAlone(c: Clock, b: seq<Record>, f: seq<Record>, more: seq<Record>, i: nat)
    requires Distinct(f) && Distinct(more) && (forall x :: x in f ==> x in c.items) && Apart(c.items, more)
    requires 0 < i < |f| + |more|
    ensures (Raise(f, b) + more)[i].key != (Raise(f, b) + more)[0].key
  {
    var all := Raise(f, b) + more;
    if f != [] && i >= |f| {
      assert f[0] in c.items && all[i] == more[i - |f|];
    }
  }

  /** Exactly when a clock takes what it already held for new again: it was full, the version taken in was
      of an unknown originator, and this one was the oldest it held. */
  lemma ForgetsExactly(c: Clock, r: Record, k: MemberId)
    requires ValidRing(c, MAX_VECTOR_SIZE) && Lookup(c.items, k).Some?
    ensures CompareRecord(MergeRecord(c, r).items, Entry(k, Lookup(c.items, k).value)) == Before <==>
            |c.items| == MAX_VECTOR_SIZE && Lookup(c.items, r.key).None? && k == Fifo(c, MAX_VECTOR_SIZE)[0].key
  {
    hide Put, Find, Fifo;
    PutLookup(c, MAX_VECTOR_SIZE, r.key, r.val, k);
    FifoLookup(c, MAX_VECTOR_SIZE, k);
    if CompareRecord(c.items, r) != Before { assert Lookup(c.items, r.key).Some?; }
  }
}

/** The bits of the 32-bit visited mask. */
module Bits {
  function Half(m: bv32): bv32 { m >> 1 }
  function Double(m: bv32): bv32 { m << 1 }
  function Or(m: bv32, n: bv32): bv32 { m | n }
  function Xor(m: bv32, n: bv32): bv32 { m ^ n }
  function Minus1(m: bv32): bv32 { m - 1 }
  predicate Odd(m: bv32) { m & 1 == 1 }

  function Bit(i: nat): bv32 {
    if i == 0 then 1 else Double(Bit(i - 1))
  }

  predicate HasBit(m: bv32, k: nat) {
    if k == 0 then Odd(m) else HasBit(Half(m), k - 1)
  }

  lemma ShiftIsBit(i: nat)
    requires i <= 20
    ensures (1 as bv32) << i == Bit(i) && 0 < Bit(i) <= 0x10_0000
  {
    assert Bit(0) == 1 && Bit(4) == 0x10;
    assert Bit(8) == 0x100;
    assert Bit(12) == 0x1000;
    assert Bit(16) == 0x1_0000;
    assert Bit(20) == 0x10_0000;
  }

  lemma OrParts(m: bv32, x: bv32)
    ensures x <= 0x10_0000 ==> Half(Or(m, Double(x))) == Or(Half(m), x)
    ensures Odd(Or(m, Double(x))) == Odd(m)
    ensures Half(Or(m, 1)) == Half(m) && Odd(Or(m, 1))
  {
  }

  lemma XorParts(m: bv32, n: bv32)
    ensures Half(Xor(m, n)) == Xor(Half(m), Half(n))
    ensures Odd(Xor(m, n)) <==> Odd(m) != Odd(n)
  {
  }

  lemma MaskParts(x: bv32)
    requires 0 < x <= 0x10_0000
    ensures Half(Minus1(Double(x))) == Minus1(x) && Odd(Minus1(Double(x)))
  {
  }

  lemma ZeroParts()
    ensures Half(0) == 0 && !Odd(0) && Minus1(1) == 0
    ensures forall m :: m != 0 && !Odd(m) ==> 0 < Half(m) < m
  {
  }

  lemma {:induction false} NoBits(k: nat)
    ensures !HasBit(0, k)
  {
    hide Half, Odd;
    ZeroParts();
    if k > 0 { NoBits(k - 1); }
  }

  lemma {:induction false} SetBit(m: bv32, i: nat, k: nat)
    requires i <= 20
    ensures HasBit(Or(m, Bit(i)), k) <==> HasBit(m, k) || k == i
    decreases k
  {
    hide Half, Odd, Or, Double;
    if i == 0 {
      OrParts(m, 0);
    } else {
      ShiftIsBit(i - 1);
      OrParts(m, Bit(i - 1));
      if k > 0 { SetBit(Half(m), i - 1, k - 1); }
    }
  }

  lemma {:induction false} XorBit(m: bv32, n: bv32, k: nat)
    ensures HasBit(Xor(m, n), k) <==> HasBit(m, k) != HasBit(n, k)
    decreases k
  {
    hide Half, Odd, Xor;
    XorParts(m, n);
    if k > 0 { XorBit(Half(m), Half(n), k - 1); }
  }

  lemma {:induction false} MaskBit(s: nat, k: nat)
    requires s <= 20
    ensures HasBit(Minus1(Bit(s)), k) <==> k < s
  {
    hide Half, Odd, Minus1, Double;
    if s == 0 {
      ZeroParts();
      NoBits(k);
    } else {
      ShiftIsBit(s - 1);
      MaskParts(Bit(s - 1));
      if k > 0 { MaskBit(s - 1, k - 1); }
    }
  }

  lemma {:induction false} SomeBit(m: bv32) returns (k: nat)
    requires m != 0
    ensures HasBit(m, k)
    decreases m
  {
    hide Half, Odd;
    ZeroParts();
    if Odd(m) {
      k := 0;
    } else {
      var j := SomeBit(Half(m));
      k := j + 1;
    }
  }
}

/** The clock as an object updated in place. */
module VectorClocks {
  import opened Types
  import opened Rings
  import opened ClockOrder
  import opened Bits

  class VectorClock {
    const records: array<Record>
    var size: nat
    var currentIdx: nat

    ghost predicate Valid()
      reads this, records
    {
      && records.Length == MAX_VECTOR_SIZE
      && size <= MAX_VECTOR_SIZE
      && ValidRing(View(), MAX_VECTOR_SIZE)
    }

    ghost function View(): Clock
      reads this, records
      requires size <= records.Length
    {
      Ring(records[..size], currentIdx)
    }

    constructor ()
      ensures Valid() && View() == Ring([], 0) && fresh(records)
    {
      records := new Record[MAX_VECTOR_SIZE](_ => Entry(0, 0));
      size, currentIdx := 0, 0;
    }

    method FindByMemberId(id: MemberId) returns (idx: int)
      requires Valid()
      ensures idx == Find(View().items, id)
    {
      var i := 0;
      while i < size
        invariant i <= size
        invariant FindFrom(records[..size], id, i) == Find(records[..size], id)
      {
        if records[i].key == id { return i; }
        i := i + 1;
      }
      return ERR_NOT_FOUND;
    }

    method SetById(id: MemberId, seqNum: uint32)
      requires Valid()
      modifies this`size, this`currentIdx, records
      ensures Valid() && View() == Put(old(View()), MAX_VECTOR_SIZE, id, seqNum)
    {
      PutKeepsValid(View(), MAX_VECTOR_SIZE, id, seqNum);
      var idx := FindByMemberId(id);
      if idx < 0 {
        var newIdx := currentIdx;
        records[newIdx] := Entry(id, seqNum);
        if size < MAX_VECTOR_SIZE { size := size + 1; }
        currentIdx := currentIdx + 1;
        if currentIdx >= MAX_VECTOR_SIZE { currentIdx := 0; }
      } else {
        records[idx] := Entry(id, seqNum);
      }
      assert View() == Put(old(View()), MAX_VECTOR_SIZE, id, seqNum);
    }

    method CopyFrom(src: VectorClock)
      requires src.Valid() && records.Length == MAX_VECTOR_SIZE && records != src.records && src != this
      modifies this`size, this`currentIdx, records
      ensures Valid() && View() == old(src.View())
    {
      size, currentIdx := src.size, src.currentIdx;
      for i := 0 to src.size
        invariant src.View() == old(src.View()) && size == src.size && currentIdx == src.currentIdx
        invariant forall j :: 0 <= j < i ==> records[j] == src.records[j]
      {
        records[i] := src.records[i];
      }
      assert records[..size] == src.records[..size];
    }

    method CompareWithRecord(record: Record, merge: bool) returns (result: Relation)
      requires Valid()
      modifies this`size, this`currentIdx, records
      ensures Valid() && result == CompareRecord(old(View()).items, record)
      ensures View() == if merge then MergeRecord(old(View()), record) else old(View())
    {
      result := Equal;
      var idx := FindByMemberId(record.key);
      if idx < 0 {
        result := Before;
        if merge { SetById(record.key, record.val); }
      } else {
        var first := records[idx].val;
        if first > record.val {
          result := After;
        } else if first < record.val {
          result := Before;
          if merge {
            PutKeepsValid(View(), MAX_VECTOR_SIZE, record.key, record.val);
            records[idx] := Entry(records[idx].key, record.val);
            assert View() == Put(old(View()), MAX_VECTOR_SIZE, record.key, record.val);
          }
        }
      }
    }

    /** Scan the first clock, marking the visited positions of the second in a bit mask,
        then treat the unmarked ones. */
    method CompareClocks(second: seq<Record>, merge: bool) returns (result: Relation)
      requires Valid() && |second| <= MAX_VECTOR_SIZE
      modifies this`size, this`currentIdx, records
      ensures Valid() && result == Compare(old(View()).items, second)
      ensures View() == if merge then Merge(old(View()), second) else old(View())
    {
      hide HasBit, AheadAt, BehindAt, ValidRing, Raise, LowMask;
      ghost var a := View().items;
      ghost var b := second;
      var visited: bv32;
      result, visited := ScanFirst(second, merge);
      var missing := Xor(visited, LowMask(|second|));
      MissingBits(a, b, visited);
      if missing != 0 {
        ghost var w := SomeBit(missing);
        assert Unvisited(a, b, w);
        result := Resolve(result, Before);
        if merge { SetMissing(second, missing, a); }
      } else {
        forall k: nat ensures !HasBit(missing, k) { NoBits(k); }
        if merge { NothingMissing(a, b, |b|); }
      }
    }

    /** The mask of the first `n` positions. */
    static function LowMask(n: nat): bv32
      requires n <= 20
    {
      ((1 as bv32) << n) - 1
    }

    /** The visited mask against the full mask leaves exactly the ids the first clock lacks. */
    static lemma MissingBits(a: seq<Record>, b: seq<Record>, visited: bv32)
      requires |b| <= MAX_VECTOR_SIZE
      requires forall k: nat :: HasBit(visited, k) <==> exists i :: 0 <= i < |a| && Find(b, a[i].key) == k
      ensures forall k: nat :: HasBit(Xor(visited, LowMask(|b|)), k) <==> k < |b| && Unvisited(a, b, k)
    {
      hide HasBit;
      ShiftIsBit(|b|);
      assert LowMask(|b|) == Minus1(Bit(|b|));
      forall k: nat
        ensures HasBit(Xor(visited, LowMask(|b|)), k) <==> k < |b| && Unvisited(a, b, k)
      {
        XorBit(visited, LowMask(|b|), k);
        MaskBit(|b|, k);
      }
    }

    method ScanFirst(second: seq<Record>, merge: bool) returns (result: Relation, visited: bv32)
      requires Valid() && |second| <= MAX_VECTOR_SIZE
      modifies records
      ensures var a := old(View()).items;
        && Valid()
        && View() == (if merge then old(View()).(items := Raise(a, second)) else old(View()))
        && result == Judge(exists i :: 0 <= i < |a| && AheadAt(a, second, i),
                           exists i :: 0 <= i < |a| && BehindAt(a, second, i))
        && forall k: nat :: HasBit(visited, k) <==> exists i :: 0 <= i < |a| && Find(second, a[i].key) == k
    {
      hide HasBit, Visit, Find, ValidRing, AheadAt, BehindAt, Raise;
      ghost var a := View().items;
      result, visited := Equal, 0;
      forall k: nat ensures !HasBit(visited, k) { NoBits(k); }
      var i := 0;
      while i < size
        invariant i <= size == |a|
        invariant forall j :: i <= j < size ==> records[j] == a[j]
        invariant forall j :: 0 <= j < i ==> records[j] == if merge then Raise(a, second)[j] else a[j]
        invariant result == Judge(exists j :: 0 <= j < i && AheadAt(a, second, j),
                                  exists j :: 0 <= j < i && BehindAt(a, second, j))
        invariant forall k: nat :: HasBit(visited, k) <==> exists j :: 0 <= j < i && Find(second, a[j].key) == k
      {
        var idx := FindIn(second, records[i].key);
        ScanStep(a, second, i);
        if idx < 0 {
          result := Resolve(result, After);
        } else {
          visited := Visit(visited, idx);
          if records[i].val > second[idx].val {
            result := Resolve(result, After);
          } else if second[idx].val > records[i].val {
            result := Resolve(result, Before);
            if merge { records[i] := Entry(records[i].key, second[idx].val); }
          }
        }
        i := i + 1;
      }
      assert records[..size] == if merge then Raise(a, second) else a;
      RaiseKeepsValid(old(View()), second);
    }

    static lemma RaiseKeepsValid(c: Clock, b: seq<Record>)
      requires ValidRing(c, MAX_VECTOR_SIZE)
      ensures ValidRing(c.(items := Raise(c.items, b)), MAX_VECTOR_SIZE)
    {
    }

    /** The scan's tests at record `i`, and their effect on the two observations so far. */
    static lemma ScanStep(a: seq<Record>, b: seq<Record>, i: nat)
      requires i < |a|
      ensures var j := Find(b, a[i].key);
        && (AheadAt(a, b, i) <==> j < 0 || a[i].val > b[j].val)
        && (BehindAt(a, b, i) <==> j >= 0 && a[i].val < b[j].val)
        && Raise(a, b)[i] == if BehindAt(a, b, i) then Entry(a[i].key, b[j].val) else a[i]
      ensures (exists k :: 0 <= k < i + 1 && AheadAt(a, b, k)) <==>
              (exists k :: 0 <= k < i && AheadAt(a, b, k)) || AheadAt(a, b, i)
      ensures (exists k :: 0 <= k < i + 1 && BehindAt(a, b, k)) <==>
              (exists k :: 0 <= k < i && BehindAt(a, b, k)) || BehindAt(a, b, i)
    {
    }

    static function Visit(visited: bv32, idx: nat): (r: bv32)
      requires idx <= 20
      ensures forall k: nat :: HasBit(r, k) <==> HasBit(visited, k) || k == idx
    {
      ShiftIsBit(idx);
      assert forall k: nat :: HasBit(Or(visited, Bit(idx)), k) <==> HasBit(visited, k) || k == idx by {
        hide *;
        forall k: nat ensures HasBit(Or(visited, Bit(idx)), k) <==> HasBit(visited, k) || k == idx {
          SetBit(visited, idx, k);
        }
      }
      Or(visited, (1 as bv32) << idx)
    }

    static method FindIn(items: seq<Record>, id: MemberId) returns (idx: int)
      ensures idx == Find(items, id)
    {
      for i := 0 to |items|
        invariant FindFrom(items, id, i) == Find(items, id)
      {
        if items[i].key == id { return i; }
      }
      return ERR_NOT_FOUND;
    }

    static lemma {:induction false} NothingMissing(a: seq<Record>, b: seq<Record>, n: nat)
      requires n <= |b| && forall k :: 0 <= k < n ==> !Unvisited(a, b, k)
      ensures MissingUpTo(a, b, n) == []
    {
      if n > 0 { NothingMissing(a, b, n - 1); }
    }

    method SetMissing(second: seq<Record>, mask: bv32, ghost a: seq<Record>)
      requires Valid()
      requires forall k: nat :: HasBit(mask, k) <==> k < |second| && Unvisited(a, second, k)
      modifies this`size, this`currentIdx, records
      ensures Valid() && View() == PutAll(old(View()), Missing(a, second))
    {
      hide HasBit, Unvisited, Put, PutAll, ValidRing, Half, Odd, Shifted, Missing, MissingUpTo;
      PutOneMore(View(), [], Entry(0, 0));
      var missing := mask;
      var i := 0;
      Remaining(mask, a, second, 0);
      while missing != 0
        invariant i <= |second| && missing == Shifted(mask, i)
        invariant missing == 0 ==> Missing(a, second) == MissingUpTo(a, second, i)
        invariant missing != 0 ==> i < |second|
        invariant Valid() && View() == PutAll(old(View()), MissingUpTo(a, second, i))
        decreases |second| - i
      {
        Remaining(mask, a, second, i);
        Remaining(mask, a, second, i + 1);
        if Odd(missing) {
          PutOneMore(old(View()), MissingUpTo(a, second, i), second[i]);
          SetById(second[i].key, second[i].val);
        }
        missing := Half(missing);
        i := i + 1;
      }
    }

    /** The mask after `i` right shifts. */
    static function Shifted(mask: bv32, i: nat): bv32 {
      if i == 0 then mask else Half(Shifted(mask, i - 1))
    }

    static lemma {:induction false} ShiftedBit(mask: bv32, i: nat, k: nat)
      ensures HasBit(Shifted(mask, i), k) <==> HasBit(mask, i + k)
    {
      hide Half, Odd;
      if i > 0 { ShiftedBit(mask, i - 1, k + 1); }
    }

    /** What the shifted mask still says at step `i`. */
    static lemma Remaining(mask: bv32, a: seq<Record>, b: seq<Record>, i: nat)
      requires i <= |b|
      requires forall k: nat :: HasBit(mask, k) <==> k < |b| && Unvisited(a, b, k)
      ensures Shifted(mask, i + 1) == Half(Shifted(mask, i)) && Shifted(mask, 0) == mask
      ensures MissingUpTo(a, b, 0) == []
      ensures Shifted(mask, i) != 0 ==> i < |b|
      ensures Shifted(mask, i) == 0 ==> Missing(a, b) == MissingUpTo(a, b, i)
      ensures i < |b| ==> MissingUpTo(a, b, i + 1) ==
                          if Odd(Shifted(mask, i)) then MissingUpTo(a, b, i) + [b[i]] else MissingUpTo(a, b, i)
    {
      hide HasBit, Unvisited, Half, Odd;
      var m := Shifted(mask, i);
      ShiftedBit(mask, i, 0);
      assert HasBit(m, 0) <==> Odd(m) by { FirstBit(m); }
      if m != 0 {
        var w := SomeBit(m);
        ShiftedBit(mask, i, w);
      } else {
        forall k: nat | k >= i ensures !HasBit(mask, k) {
          ShiftedBit(mask, i, k - i);
          NoBits(k - i);
        }
        MissingTail(a, b, i, |b|, mask);
      }
      if i < |b| { assert MissingUpTo(a, b, i) + [] == MissingUpTo(a, b, i); }
    }

    static lemma FirstBit(m: bv32)
      ensures HasBit(m, 0) <==> Odd(m)
    {
    }

    static lemma PutOneMore(c: Clock, rs: seq<Record>, r: Record)
      ensures PutAll(c, []) == c
      ensures PutAll(c, rs + [r]) == Put(PutAll(c, rs), MAX_VECTOR_SIZE, r.key, r.val)
    {
    }

    static lemma {:induction false} MissingTail(a: seq<Record>, b: seq<Record>, i: nat, n: nat, mask: bv32)
      requires i <= n <= |b|
      requires forall k: nat :: HasBit(mask, k) <==> k < |b| && Unvisited(a, b, k)
      requires forall k: nat :: k >= i ==> !HasBit(mask, k)
      ensures MissingUpTo(a, b, n) == MissingUpTo(a, b, i)
    {
      hide HasBit, Unvisited;
      if i < n {
        assert !HasBit(mask, n - 1);
        MissingTail(a, b, i, n - 1, mask);
      }
    }
  }
}
