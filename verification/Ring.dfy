/** The ring buffer behind both the vector clock and the data log, and the bounded
    first-in-first-out map it implements. */
module Rings {
  import opened Types

  /** `items` are the first `size` array slots, in array order; `cur` is the slot written next. */
  datatype Ring<+V> = Ring(items: seq<Entry<V>>, cur: nat)

  function FindFrom<V>(items: seq<Entry<V>>, key: MemberId, i: nat): (r: int)
    requires i <= |items|
    ensures r == ERR_NOT_FOUND || i <= r < |items|
    ensures r >= 0 ==> items[r].key == key && forall j :: i <= j < r ==> items[j].key != key
    ensures r < 0 ==> forall j :: i <= j < |items| ==> items[j].key != key
    decreases |items| - i
  {
    if i == |items| then ERR_NOT_FOUND
    else if items[i].key == key then i
    else FindFrom(items, key, i + 1)
  }

  function Find<V>(items: seq<Entry<V>>, key: MemberId): (r: int)
    ensures r == ERR_NOT_FOUND || 0 <= r < |items|
    ensures r >= 0 ==> items[r].key == key && forall j :: 0 <= j < r ==> items[j].key != key
    ensures r < 0 ==> forall j :: 0 <= j < |items| ==> items[j].key != key
  {
    FindFrom(items, key, 0)
  }

  /** The partial map a list of entries stands for: the first entry of a key wins. */
  function Lookup<V>(items: seq<Entry<V>>, key: MemberId): Option<V> {
    var i := Find(items, key);
    if i < 0 then None else Some(items[i].val)
  }

  ghost predicate Distinct<V>(items: seq<Entry<V>>) {
    forall i, j :: 0 <= i < j < |items| ==> items[i].key != items[j].key
  }

  ghost predicate ValidRing<V>(r: Ring<V>, cap: nat) {
    && Distinct(r.items)
    && |r.items| <= cap
    && (|r.items| < cap ==> r.cur == |r.items|)
    && (|r.items| == cap ==> r.cur < cap)
  }

  /** Overwrite the value of a known key in place; write a new key at the cursor. */
  function Put<V>(r: Ring<V>, cap: nat, key: MemberId, val: V): Ring<V> {
    var i := Find(r.items, key);
    if i >= 0 then r.(items := r.items[i := Entry(key, val)])
    else Ring(if r.cur < |r.items| then r.items[r.cur := Entry(key, val)] else r.items + [Entry(key, val)],
              if r.cur + 1 >= cap then 0 else r.cur + 1)
  }

  /** The entries from the oldest insertion to the newest. */
  function Fifo<V>(r: Ring<V>, cap: nat): seq<Entry<V>> {
    if |r.items| == cap && r.cur < cap then r.items[r.cur..] + r.items[..r.cur] else r.items
  }

  /** The reference: a map that keeps its last `cap` insertions, in insertion order. */
  function FifoPut<V>(s: seq<Entry<V>>, cap: nat, key: MemberId, val: V): seq<Entry<V>> {
    var i := Find(s, key);
    if i >= 0 then s[i := Entry(key, val)] else Last(s + [Entry(key, val)], cap)
  }

  function Last<T>(s: seq<T>, n: nat): seq<T> {
    if |s| <= n then s else s[|s| - n..]
  }

  /** In a list with distinct keys, any position of a key is the position. */
  lemma FindUnique<V>(items: seq<Entry<V>>, i: nat)
    requires Distinct(items) && i < |items|
    ensures Find(items, items[i].key) == i
  {
  }

  lemma PutKeepsValid<V>(r: Ring<V>, cap: nat, key: MemberId, val: V)
    requires ValidRing(r, cap) && cap > 0
    ensures ValidRing(Put(r, cap, key, val), cap)
  {
  }

  /** What a write does to the map: the written key, the key it pushes out, every other key. */
  lemma PutLookup<V>(r: Ring<V>, cap: nat, key: MemberId, val: V, k: MemberId)
    requires ValidRing(r, cap) && cap > 0
    ensures Lookup(Put(r, cap, key, val).items, k) ==
            if k == key then Some(val)
            else if Lookup(r.items, key).None? && |r.items| == cap && k == Fifo(r, cap)[0].key then None
            else Lookup(r.items, k)
  {
    var r' := Put(r, cap, key, val);
    PutKeepsValid(r, cap, key, val);
    if k == key {
      var i := Find(r.items, key);
      var at := if i >= 0 then i else r.cur;
      assert r'.items[at] == Entry(key, val);
      FindUnique(r'.items, at);
    } else {
      var i := Find(r.items, k);
      var j := Find(r'.items, k);
      if i >= 0 && r'.items[i] == r.items[i] { FindUnique(r'.items, i); }
      if j >= 0 { assert j < |r.items|; assert r'.items[j] == r.items[j]; FindUnique(r.items, j); }
    }
  }

  /** Ring order does not change what the entries stand for. */
  lemma FifoLookup<V>(r: Ring<V>, cap: nat, k: MemberId)
    requires ValidRing(r, cap)
    ensures Distinct(Fifo(r, cap)) && |Fifo(r, cap)| == |r.items|
    ensures Lookup(Fifo(r, cap), k) == Lookup(r.items, k)
  {
    if |r.items| == cap && r.cur < cap {
      var f, c, n := Fifo(r, cap), r.cur, cap;
      assert forall i :: 0 <= i < n ==> f[i] == r.items[if i < n - c then i + c else i - (n - c)];
      assert Distinct(f);
      var i := Find(r.items, k);
      if i >= 0 {
        var at := if i >= c then i - c else i + (n - c);
        assert f[at] == r.items[i];
        FindUnique(f, at);
      }
    }
  }

  /** A known key keeps its place in the order. */
  lemma PutKnown<V>(r: Ring<V>, cap: nat, key: MemberId, val: V)
    requires ValidRing(r, cap) && Find(r.items, key) >= 0
    ensures Fifo(Put(r, cap, key, val), cap) == FifoPut(Fifo(r, cap), cap, key, val)
  {
    var f := Fifo(r, cap);
    var n, c, i := |r.items|, r.cur, Find(r.items, key);
    FifoLookup(r, cap, key);
    var at := if n == cap then (if i >= c then i - c else i + (n - c)) else i;
    assert f[at] == r.items[i];
    FindUnique(f, at);
    assert Fifo(Put(r, cap, key, val), cap) == f[at := Entry(key, val)];
  }

  /** A new key comes last; if the ring is full the oldest goes. */
  lemma PutNew<V>(r: Ring<V>, cap: nat, key: MemberId, val: V)
    requires ValidRing(r, cap) && cap > 0 && Find(r.items, key) < 0
    ensures Fifo(Put(r, cap, key, val), cap) == FifoPut(Fifo(r, cap), cap, key, val)
  {
    var f, f' := Fifo(r, cap), Fifo(Put(r, cap, key, val), cap);
    FifoLookup(r, cap, key);
    assert Find(f, key) < 0;
    hide Find;
    if |r.items| < cap {
      assert f' == f + [Entry(key, val)];
    } else {
      assert f == r.items[r.cur..] + r.items[..r.cur];
      assert f' == (f + [Entry(key, val)])[1..];
    }
  }

  /** The ring buffer refines the bounded FIFO map. */
  lemma PutIsFifoPut<V>(r: Ring<V>, cap: nat, key: MemberId, val: V)
    requires ValidRing(r, cap) && cap > 0
    ensures Fifo(Put(r, cap, key, val), cap) == FifoPut(Fifo(r, cap), cap, key, val)
  {
    hide Put, Fifo, FifoPut, Find;
    if Find(r.items, key) >= 0 { PutKnown(r, cap, key, val); } else { PutNew(r, cap, key, val); }
  }

  /** An id the map holds is among its keys, and conversely. */
  lemma LookupIn<V>(items: seq<Entry<V>>, i: nat)
    requires Distinct(items) && i < |items|
    ensures Lookup(items, items[i].key) == Some(items[i].val)
  {
  }

  ghost function Keys<V>(items: seq<Entry<V>>): set<MemberId> {
    set i | 0 <= i < |items| :: items[i].key
  }

  /** With distinct keys there are as many keys as entries. */
  lemma {:induction false} KeysCount<V>(items: seq<Entry<V>>)
    requires Distinct(items)
    ensures |Keys(items)| == |items|
  {
    if items == [] {
      assert Keys(items) == {};
    } else {
      var n := |items| - 1;
      var front := items[..n];
      KeysCount(front);
      assert Keys(items) == Keys(front) + {items[n].key};
      assert items[n].key !in Keys(front);
    }
  }

  lemma {:induction false} SubsetCount<T>(a: set<T>, b: set<T>)
    requires a <= b
    ensures |a| <= |b|
  {
    assert b == a + (b - a);
    assert |a + (b - a)| == |a| + |b - a|;
  }

  /** A write of a key that, with the keys held, makes at most `cap` keys forgets nothing. */
  lemma PutForgetsNothing<V>(r: Ring<V>, cap: nat, key: MemberId, val: V, universe: set<MemberId>)
    requires ValidRing(r, cap) && cap > 0
    requires Keys(r.items) + {key} <= universe && |universe| <= cap
    ensures forall k :: Lookup(Put(r, cap, key, val).items, k) ==
                        if k == key then Some(val) else Lookup(r.items, k)
  {
    if Lookup(r.items, key).None? && |r.items| == cap {
      KeysCount(r.items);
      assert key !in Keys(r.items);
      SubsetCount(Keys(r.items) + {key}, universe);
      assert false;
    }
    forall k
      ensures Lookup(Put(r, cap, key, val).items, k) == if k == key then Some(val) else Lookup(r.items, k)
    {
      PutLookup(r, cap, key, val, k);
    }
  }
}
