/** The known members: a growable array without duplicates. */
module Members {
  import opened Types
  import opened Reservoirs

  const MEMBERS_INITIAL_CAPACITY: nat := 32
  const MEMBERS_EXTENSION_FACTOR: nat := 2

  function AddOne(s: seq<Member>, m: Member): seq<Member> {
    if m in s then s else s + [m]
  }

  function AddAll(s: seq<Member>, more: seq<Member>): seq<Member> {
    if more == [] then s else AddOne(AddAll(s, more[..|more| - 1]), more[|more| - 1])
  }

  /** Where a value first occurs, or the length of the list. */
  function FirstAt<T(==)>(s: seq<T>, x: T): (i: nat)
    ensures x in s <==> i < |s|
    ensures i <= |s|
  {
    if s == [] || s[0] == x then 0 else 1 + FirstAt(s[1..], x)
  }

  lemma {:induction false} FirstAtIs<T>(s: seq<T>, x: T)
    ensures x !in s[..FirstAt(s, x)]
    ensures x in s ==> s[FirstAt(s, x)] == x
  {
    if s != [] && s[0] != x {
      FirstAtIs(s[1..], x);
      assert s[..FirstAt(s, x)] == [s[0]] + s[1..][..FirstAt(s[1..], x)];
    }
  }

  lemma {:induction false} FirstAtPrefix<T>(s: seq<T>, t: seq<T>, x: T)
    requires x in s
    ensures FirstAt(s + t, x) == FirstAt(s, x)
  {
    if s[0] != x {
      assert (s + t)[1..] == s[1..] + t;
      FirstAtPrefix(s[1..], t, x);
    }
  }

  lemma {:induction false} FirstAtEnd<T>(s: seq<T>, x: T)
    requires x !in s
    ensures FirstAt(s + [x], x) == |s|
  {
    if s != [] {
      assert (s + [x])[1..] == s[1..] + [x];
      FirstAtEnd(s[1..], x);
    }
  }

  /** Adding keeps what was there, appends exactly the unknown members, each once,
      in the order of their first occurrence. */
  lemma {:induction false} AddAllAppendsFirstOccurrences(s: seq<Member>, more: seq<Member>)
    requires Unique(s)
    ensures var r := AddAll(s, more);
      && s <= r && Unique(r)
      && (forall m :: m in r <==> m in s || m in more)
      && forall i, j :: |s| <= i < j < |r| ==> FirstAt(more, r[i]) < FirstAt(more, r[j])
  {
    if more != [] {
      var n := |more| - 1;
      var front, x := more[..n], more[n];
      AddAllAppendsFirstOccurrences(s, front);
      var r, r' := AddAll(s, front), AddAll(s, more);
      assert more == front + [x];
      forall i, j | |s| <= i < j < |r'| ensures FirstAt(more, r'[i]) < FirstAt(more, r'[j]) {
        NewcomersComeFromMore(s, front);
        FirstAtPrefix(front, [x], r'[i]);
        FirstAtIs(front, r'[i]);
        if j < |r| { FirstAtPrefix(front, [x], r'[j]); } else { FirstAtEnd(front, x); }
      }
    }
  }

  lemma {:induction false} NewcomersComeFromMore(s: seq<Member>, more: seq<Member>)
    ensures s <= AddAll(s, more)
    ensures forall i :: |s| <= i < |AddAll(s, more)| ==> AddAll(s, more)[i] in more
  {
    if more != [] { NewcomersComeFromMore(s, more[..|more| - 1]); }
  }

  /** The first member whose address starts with the given bytes. */
  function FindAddressFrom(s: seq<Member>, addr: Address, i: nat): (r: int)
    requires i <= |s|
    ensures r == ERR_NOT_FOUND || i <= r < |s|
    ensures r >= 0 ==> addr <= s[r].address && forall j :: i <= j < r ==> !(addr <= s[j].address)
    ensures r < 0 ==> forall j :: i <= j < |s| ==> !(addr <= s[j].address)
    decreases |s| - i
  {
    if i == |s| then ERR_NOT_FOUND
    else if addr <= s[i].address then i
    else FindAddressFrom(s, addr, i + 1)
  }

  function Without<T>(s: seq<T>, i: nat): seq<T>
    requires i < |s|
  {
    s[..i] + s[i + 1..]
  }

  function RemoveByAddress(s: seq<Member>, addr: Address): seq<Member> {
    var i := FindAddressFrom(s, addr, 0);
    if i < 0 then s else Without(s, i)
  }

  /** Member `i` is the first whose address starts with `addr`. */
  ghost predicate FirstWith(s: seq<Member>, addr: Address, i: nat) {
    i < |s| && addr <= s[i].address && forall j :: 0 <= j < i ==> !(addr <= s[j].address)
  }

  /** `r` is `s` without the first member whose address starts with `addr`, or `s` when there is none. */
  ghost predicate DropsFirst(s: seq<Member>, addr: Address, r: seq<Member>) {
    if forall m :: m in s ==> !(addr <= m.address) then r == s
    else exists i: nat :: FirstWith(s, addr, i) && r == s[..i] + s[i + 1..]
  }

  lemma RemovalDropsFirst(s: seq<Member>, addr: Address)
    ensures DropsFirst(s, addr, RemoveByAddress(s, addr))
  {
    var i := FindAddressFrom(s, addr, 0);
    if i >= 0 { assert FirstWith(s, addr, i) && s[i] in s; }
  }

  /** Removal only removes, and never brings a duplicate. */
  lemma RemovalKeepsUnique(s: seq<Member>, addr: Address)
    requires Unique(s)
    ensures Unique(RemoveByAddress(s, addr))
    ensures forall m :: m in RemoveByAddress(s, addr) ==> m in s
    ensures forall m :: m in s && m !in RemoveByAddress(s, addr) ==> addr <= m.address
  {
  }

  class MemberSet {
    var set_: array<Member>
    var size: nat

    ghost predicate Valid()
      reads this, set_
    {
      && 4 * size < 3 * set_.Length
      && Unique(View())
    }

    ghost function View(): seq<Member>
      reads this, set_
      requires size <= set_.Length
    {
      set_[..size]
    }

    constructor ()
      ensures Valid() && View() == [] && fresh(set_) && set_.Length == MEMBERS_INITIAL_CAPACITY
    {
      set_ := new Member[MEMBERS_INITIAL_CAPACITY](_ => Member(0, 0, []));
      size := 0;
    }

    /** Double the capacity until the required size loads less than three quarters of it. */
    method Extend(required: nat)
      requires Valid() && required >= size
      modifies this`set_
      ensures fresh(set_) && size <= set_.Length && View() == old(View())
      ensures set_.Length >= old(set_.Length) && 4 * required < 3 * set_.Length
    {
      var capacity := set_.Length;
      while 4 * required >= 3 * capacity
        invariant capacity >= set_.Length && unchanged(this)
        decreases 4 * required - 3 * capacity
      {
        capacity := capacity * MEMBERS_EXTENSION_FACTOR;
      }
      var bigger := new Member[capacity](_ => Member(0, 0, []));
      for i := 0 to size
        invariant unchanged(this) && unchanged(set_)
        invariant forall j :: 0 <= j < i ==> bigger[j] == set_[j]
      {
        bigger[i] := set_[i];
      }
      assert bigger[..size] == set_[..size];
      set_ := bigger;
    }

    method Put(newMembers: seq<Member>)
      requires Valid()
      modifies this, set_
      ensures Valid() && View() == AddAll(old(View()), newMembers)
      ensures set_ == old(set_) || fresh(set_)
    {
      ghost var before := View();
      var newSize := size + |newMembers|;
      if 4 * newSize >= 3 * set_.Length { Extend(newSize); }
      for n := 0 to |newMembers|
        invariant size + |newMembers| - n <= newSize && 4 * newSize < 3 * set_.Length
        invariant set_ == old(set_) || fresh(set_)
        invariant View() == AddAll(before, newMembers[..n])
        invariant Unique(View())
      {
        var current := newMembers[n];
        var exists_ := Contains(current);
        assert newMembers[..n + 1][..n] == newMembers[..n];
        if !exists_ {
          set_[size] := current;
          size := size + 1;
        }
        assert View() == AddOne(AddAll(before, newMembers[..n]), current);
      }
      assert newMembers[..|newMembers|] == newMembers;
    }

    method Contains(m: Member) returns (found: bool)
      requires size <= set_.Length
      ensures found <==> m in View()
    {
      for i := 0 to size
        invariant m !in set_[..i]
      {
        if set_[i] == m { return true; }
      }
      return false;
    }

    /** Shift the members after `idx` one place to the left. */
    method Shift(idx: nat)
      requires Valid() && idx < size
      modifies this`size, set_
      ensures Valid() && View() == Without(old(View()), idx)
    {
      ghost var before := View();
      var i := idx;
      while i < size - 1
        invariant idx <= i < size == |before|
        invariant forall j :: 0 <= j < idx ==> set_[j] == before[j]
        invariant forall j :: idx <= j < i ==> set_[j] == before[j + 1]
        invariant forall j :: i <= j < size ==> set_[j] == before[j]
      {
        set_[i] := set_[i + 1];
        i := i + 1;
      }
      size := size - 1;
      assert View() == Without(before, idx);
    }

    /** Entries are pairwise different, so an entry is as good as its pointer. */
    method Remove(m: Member) returns (found: bool)
      requires Valid()
      modifies this`size, set_
      ensures Valid() && (found <==> m in old(View()))
      ensures View() == if found then Without(old(View()), FirstAt(old(View()), m)) else old(View())
    {
      for i := 0 to size
        invariant m !in set_[..i]
        invariant unchanged(this) && unchanged(set_)
      {
        if set_[i] == m {
          FirstAtIs(View(), m);
          assert FirstAt(View(), m) == i;
          Shift(i);
          return true;
        }
      }
      return false;
    }

    method RemoveByAddr(addr: Address) returns (found: bool)
      requires Valid()
      modifies this`size, set_
      ensures Valid() && View() == RemoveByAddress(old(View()), addr)
      ensures DropsFirst(old(View()), addr, View())
      ensures found <==> exists m :: m in old(View()) && addr <= m.address
    {
      RemovalDropsFirst(View(), addr);
      for i := 0 to size
        invariant unchanged(this) && unchanged(set_)
        invariant FindAddressFrom(View(), addr, i) == FindAddressFrom(View(), addr, 0)
      {
        if addr <= set_[i].address {
          Shift(i);
          return true;
        }
      }
      return false;
    }

    /** Fill the reservoir with the first members, then let each later one replace a random entry. */
    method RandomMembers(reservoir: array<Member>, random: seq<nat>) returns (n: nat)
      requires Valid() && |random| >= size && reservoir != set_
      modifies reservoir
      ensures n <= reservoir.Length && reservoir[..n] == Sample(View(), reservoir.Length, random)
    {
      hide Positions, Step, Selection, Unique, FirstPositions, Picked;
      ghost var s, k := View(), reservoir.Length;
      if size == 0 { return 0; }
      n := if size > reservoir.Length then reservoir.Length else size;
      var idx := 0;
      while idx < n
        invariant idx <= n && forall i :: 0 <= i < idx ==> reservoir[i] == s[i]
      {
        reservoir[idx] := set_[idx];
        idx := idx + 1;
      }
      if n < size {
        PickedFirst(s, k, random);
        assert reservoir[..] == s[..k];
        while idx < size
          invariant k <= idx <= size && Selection(Positions(k, random, idx), idx)
              && Selection(Positions(k, random, idx), |s|)
          invariant reservoir[..] == Picked(s, Positions(k, random, idx))
        {
          var r := random[idx] % (idx + 1);
          PickedStep(s, Positions(k, random, idx), idx, r);
          NextPositions(k, random, idx);
          if r < n { reservoir[r] := set_[idx]; }
          idx := idx + 1;
        }
        PickedIsSample(s, k, random);
        assert reservoir[..n] == reservoir[..];
      } else {
        assert reservoir[..n] == s;
      }
    }

    static lemma PickedFirst(s: seq<Member>, k: nat, random: seq<nat>)
      requires k < |s| <= |random|
      ensures Selection(Positions(k, random, k), k) && Selection(Positions(k, random, k), |s|)
      ensures Picked(s, Positions(k, random, k)) == s[..k]
    {
    }

    static lemma NextPositions(k: nat, random: seq<nat>, m: nat)
      requires k <= m < |random|
      ensures Positions(k, random, m + 1) == Step(Positions(k, random, m), m, random[m] % (m + 1))
    {
    }

    static lemma PickedIsSample(s: seq<Member>, k: nat, random: seq<nat>)
      requires k < |s| <= |random|
      ensures Selection(Positions(k, random, |s|), |s|)
      ensures Picked(s, Positions(k, random, |s|)) == Sample(s, k, random)
    {
      PositionsSelect(k, random, |s|);
    }

    static ghost function Picked(s: seq<Member>, p: seq<nat>): seq<Member>
      requires Selection(p, |s|)
    {
      seq(|p|, i requires 0 <= i < |p| => s[p[i]])
    }

    static lemma PickedStep(s: seq<Member>, p: seq<nat>, m: nat, r: nat)
      requires m < |s| && Selection(p, m)
      ensures Selection(p, |s|) && Selection(Step(p, m, r), |s|)
      ensures Selection(Step(p, m, r), m + 1)
      ensures Picked(s, Step(p, m, r)) == if r < |p| then Picked(s, p)[r := s[m]] else Picked(s, p)
    {
    }
  }
}
