/** Reservoir sampling: which positions a random stream selects, and how often each is selected. */
module Reservoirs {
  import opened Types

  /** The reservoir after one more candidate `m` with residue `r`. */
  function Step(res: seq<nat>, m: nat, r: nat): (res': seq<nat>)
    ensures |res'| == |res|
  {
    if r < |res| then res[r := m] else res
  }

  function FirstPositions(k: nat): seq<nat> {
    seq(k, i => i)
  }

  /** The positions kept after the candidates below `m`; candidate `i` draws `random[i] % (i + 1)`. */
  function Positions(k: nat, random: seq<nat>, m: nat): (res: seq<nat>)
    requires k <= m <= |random|
    ensures |res| == k
    decreases m
  {
    if m == k then FirstPositions(k)
    else Step(Positions(k, random, m - 1), m - 1, random[m - 1] % m)
  }

  ghost predicate Selection(res: seq<nat>, m: nat) {
    && (forall i :: 0 <= i < |res| ==> res[i] < m)
    && (forall i, j :: 0 <= i < j < |res| ==> res[i] != res[j])
  }

  lemma {:induction false} PositionsSelect(k: nat, random: seq<nat>, m: nat)
    requires k <= m <= |random|
    ensures Selection(Positions(k, random, m), m)
  {
    if m > k { PositionsSelect(k, random, m - 1); }
  }

  function Sample<T>(s: seq<T>, k: nat, random: seq<nat>): (r: seq<T>)
    requires |random| >= |s|
    ensures |r| == if |s| <= k then |s| else k
  {
    if |s| <= k then s
    else
      PositionsSelect(k, random, |s|);
      var p := Positions(k, random, |s|);
      seq(k, i requires 0 <= i < k => s[p[i]])
  }

  ghost predicate Unique<T>(s: seq<T>) {
    forall i, j :: 0 <= i < j < |s| ==> s[i] != s[j]
  }

  /** Whatever the stream, the sample holds min(n, k) pairwise distinct members of the set. */
  lemma SampleIsDistinctMembers<T>(s: seq<T>, k: nat, random: seq<nat>)
    requires |random| >= |s| && Unique(s)
    ensures Unique(Sample(s, k, random)) && forall x :: x in Sample(s, k, random) ==> x in s
  {
    if |s| > k { PositionsSelect(k, random, |s|); }
  }

  // ----- counting streams -----

  /** How many residue streams remain for the candidates from `m` to `n`: residue `i` has `i + 1` values. */
  function Streams(m: nat, n: nat): nat
    requires m <= n
    decreases n - m
  {
    if m == n then 1 else (m + 1) * Streams(m + 1, n)
  }

  /** How many of those streams, continued from `res`, end with position `j` selected. */
  function Choosing(res: seq<nat>, m: nat, n: nat, j: nat): nat
    requires m <= n
    decreases n - m, m + 2
  {
    if m == n then (if j in res then 1 else 0) else ChoosingBelow(res, m, n, j, m + 1)
  }

  /** The same, summed over the first `c` values of residue `m`. */
  function ChoosingBelow(res: seq<nat>, m: nat, n: nat, j: nat, c: nat): nat
    requires m < n && c <= m + 1
    decreases n - m, c
  {
    if c == 0 then 0 else ChoosingBelow(res, m, n, j, c - 1) + Choosing(Step(res, m, c - 1), m + 1, n, j)
  }

  /** `Choosing * n`, by where position `j` stands. */
  function Share(res: seq<nat>, m: nat, n: nat, j: nat): nat
    requires m <= n
  {
    if j in res then m * Streams(m, n) else if j < m then 0 else |res| * Streams(m, n)
  }

  lemma {:induction false} ShareHolds(res: seq<nat>, m: nat, n: nat, j: nat)
    requires Selection(res, m) && |res| <= m <= n && j < n
    ensures Choosing(res, m, n, j) * n == Share(res, m, n, j)
    decreases n - m, m + 2
  {
    if m < n {
      hide Step;
      var t := Streams(m + 1, n);
      if j in res {
        var p :| 0 <= p < |res| && res[p] == j;
        KeptBelow(res, m, n, j, p, m + 1);
      } else if j < m {
        LostBelow(res, m, n, j, m + 1);
      } else if j == m {
        EnteringBelow(res, m, n, m + 1);
      } else {
        LaterBelow(res, m, n, j, m + 1);
        Regroup(m + 1, |res|, t);
      }
    }
  }

  lemma Regroup(a: nat, b: nat, c: nat)
    ensures (a * b) * c == b * (a * c)
  {
  }

  lemma {:induction false} KeptBelow(res: seq<nat>, m: nat, n: nat, j: nat, p: nat, c: nat)
    requires Selection(res, m) && |res| <= m < n && c <= m + 1
    requires p < |res| && res[p] == j
    ensures ChoosingBelow(res, m, n, j, c) * n == (if p < c then c - 1 else c) * Streams(m, n)
    decreases n - m, c
  {
    if c > 0 {
      KeptBelow(res, m, n, j, p, c - 1);
      var res' := Step(res, m, c - 1);
      ShareHolds(res', m + 1, n, j);
      assert c - 1 != p ==> res'[p] == j;
      assert c - 1 == p ==> j !in res';
      Distribute(ChoosingBelow(res, m, n, j, c - 1), Choosing(res', m + 1, n, j), n);
      Distribute(if p < c - 1 then c - 2 else c - 1, 1, Streams(m, n));
    }
  }

  lemma Distribute(a: int, b: int, n: int)
    ensures (a + b) * n == a * n + b * n
  {
  }

  lemma {:induction false} LostBelow(res: seq<nat>, m: nat, n: nat, j: nat, c: nat)
    requires Selection(res, m) && |res| <= m < n && c <= m + 1 && j < m && j !in res
    ensures ChoosingBelow(res, m, n, j, c) * n == 0
    decreases n - m, c
  {
    if c > 0 {
      LostBelow(res, m, n, j, c - 1);
      ShareHolds(Step(res, m, c - 1), m + 1, n, j);
    }
  }

  lemma {:induction false} EnteringBelow(res: seq<nat>, m: nat, n: nat, c: nat)
    requires Selection(res, m) && |res| <= m < n && c <= m + 1
    ensures ChoosingBelow(res, m, n, m, c) * n == (if c < |res| then c else |res|) * Streams(m, n)
    decreases n - m, c
  {
    if c > 0 {
      EnteringBelow(res, m, n, c - 1);
      var res' := Step(res, m, c - 1);
      ShareHolds(res', m + 1, n, m);
      assert c - 1 < |res| ==> res'[c - 1] == m;
      Distribute(ChoosingBelow(res, m, n, m, c - 1), Choosing(res', m + 1, n, m), n);
      Distribute(c - 1, 1, Streams(m, n));
    }
  }

  lemma {:induction false} LaterBelow(res: seq<nat>, m: nat, n: nat, j: nat, c: nat)
    requires Selection(res, m) && |res| <= m < j < n && c <= m + 1
    ensures ChoosingBelow(res, m, n, j, c) * n == (c * |res|) * Streams(m + 1, n)
    decreases n - m, c
  {
    if c > 0 {
      LaterBelow(res, m, n, j, c - 1);
      var res' := Step(res, m, c - 1);
      ShareHolds(res', m + 1, n, j);
      assert j !in res';
      Distribute(ChoosingBelow(res, m, n, j, c - 1), Choosing(res', m + 1, n, j), n);
      Distribute((c - 1) * |res|, |res|, Streams(m + 1, n));
      assert (c - 1) * |res| + |res| == c * |res| by { Distribute(c - 1, 1, |res|); }
    }
  }

  lemma FirstShare(k: nat, n: nat, j: nat)
    requires k <= n && j < n
    ensures Choosing(FirstPositions(k), k, n, j) * n == k * Streams(k, n)
  {
    var first := FirstPositions(k);
    assert j < k ==> first[j] == j;
    ShareHolds(first, k, n, j);
  }

  // ----- the streams themselves -----

  /** Every residue stream for the candidates from `m` to `n`. */
  ghost function Tails(m: nat, n: nat): set<seq<nat>>
    requires m <= n
    decreases n - m, m + 2
  {
    if m == n then {[]} else TailsBelow(m, n, m + 1)
  }

  /** Those whose first residue is below `c`. */
  ghost function TailsBelow(m: nat, n: nat, c: nat): set<seq<nat>>
    requires m < n && c <= m + 1
    decreases n - m, c
  {
    if c == 0 then {} else TailsBelow(m, n, c - 1) + Prefixed(c - 1, Tails(m + 1, n))
  }

  ghost function Prefixed(x: nat, ts: set<seq<nat>>): set<seq<nat>> {
    set t | t in ts :: [x] + t
  }

  /** The reservoir a stream leads to. */
  function Continue(res: seq<nat>, m: nat, t: seq<nat>): seq<nat>
    decreases |t|
  {
    if t == [] then res else Continue(Step(res, m, t[0]), m + 1, t[1..])
  }

  ghost function Choosers(res: seq<nat>, m: nat, j: nat, ts: set<seq<nat>>): set<seq<nat>> {
    set t | t in ts && j in Continue(res, m, t)
  }

  ghost predicate IsTail(t: seq<nat>, m: nat, n: nat) {
    |t| == n - m && forall i :: 0 <= i < |t| ==> t[i] <= m + i
  }

  lemma {:induction false} TailsAre(m: nat, n: nat, t: seq<nat>)
    requires m <= n
    ensures t in Tails(m, n) <==> IsTail(t, m, n)
    decreases n - m, m + 2
  {
    if m < n { TailsBelowAre(m, n, m + 1, t); }
  }

  lemma {:induction false} TailsBelowAre(m: nat, n: nat, c: nat, t: seq<nat>)
    requires m < n && c <= m + 1
    ensures t in TailsBelow(m, n, c) <==> IsTail(t, m, n) && t[0] < c
    decreases n - m, c
  {
    if c > 0 {
      TailsBelowAre(m, n, c - 1, t);
      if t in Prefixed(c - 1, Tails(m + 1, n)) {
        var u :| u in Tails(m + 1, n) && t == [c - 1] + u;
        TailsAre(m + 1, n, u);
      }
      if IsTail(t, m, n) && t[0] == c - 1 {
        assert t == [c - 1] + t[1..];
        TailsAre(m + 1, n, t[1..]);
      }
    }
  }

  lemma {:induction false} PrefixedCount(x: nat, ts: set<seq<nat>>)
    ensures |Prefixed(x, ts)| == |ts|
  {
    if ts != {} {
      var t :| t in ts;
      PrefixedCount(x, ts - {t});
      assert forall u :: u in ts - {t} ==> [x] + u != [x] + t by {
        forall u | u in ts - {t} ensures [x] + u != [x] + t { assert ([x] + u)[1..] == u && ([x] + t)[1..] == t; }
      }
      assert Prefixed(x, ts) == Prefixed(x, ts - {t}) + {[x] + t};
    }
  }

  /** There are as many streams as `Streams` says. */
  lemma {:induction false} StreamsCounted(m: nat, n: nat)
    requires m <= n
    ensures |Tails(m, n)| == Streams(m, n)
    decreases n - m, m + 2
  {
    if m < n { StreamsCountedBelow(m, n, m + 1); }
  }

  lemma {:induction false} StreamsCountedBelow(m: nat, n: nat, c: nat)
    requires m < n && c <= m + 1
    ensures |TailsBelow(m, n, c)| == c * Streams(m + 1, n)
    decreases n - m, c
  {
    hide Prefixed, Streams, Tails, Choosers;
    if c > 0 {
      StreamsCountedBelow(m, n, c - 1);
      StreamsCounted(m + 1, n);
      LowerApart(m, n, c);
      PrefixedCount(c - 1, Tails(m + 1, n));
      ChoosersApart([], m, 0, TailsBelow(m, n, c - 1), Prefixed(c - 1, Tails(m + 1, n)));
      Distribute(c - 1, 1, Streams(m + 1, n));
    }
  }

  /** As many of them choose `j` as `Choosing` says. */
  lemma {:induction false} ChoosersCounted(res: seq<nat>, m: nat, n: nat, j: nat)
    requires m <= n
    ensures |Choosers(res, m, j, Tails(m, n))| == Choosing(res, m, n, j)
    decreases n - m, m + 2
  {
    if m == n {
      assert Choosers(res, m, j, {[]}) == if j in res then {[]} else {};
    } else {
      ChoosersCountedBelow(res, m, n, j, m + 1);
    }
  }

  lemma NoChoosers(res: seq<nat>, m: nat, j: nat)
    ensures Choosers(res, m, j, {}) == {}
  {
  }

  lemma {:induction false} ChoosersCountedBelow(res: seq<nat>, m: nat, n: nat, j: nat, c: nat)
    requires m < n && c <= m + 1
    ensures |Choosers(res, m, j, TailsBelow(m, n, c))| == ChoosingBelow(res, m, n, j, c)
    decreases n - m, c
  {
    hide Choosers, Prefixed, Step, Tails, Choosing;
    if c == 0 {
      NoChoosers(res, m, j);
    } else {
      var res', tails := Step(res, m, c - 1), Tails(m + 1, n);
      ChoosersCountedBelow(res, m, n, j, c - 1);
      ChoosersCounted(res', m + 1, n, j);
      LowerApart(m, n, c);
      PrefixedCount(c - 1, Choosers(res', m + 1, j, tails));
      PrefixedChoosers(res, m, j, c - 1, tails);
      ChoosersApart(res, m, j, TailsBelow(m, n, c - 1), Prefixed(c - 1, tails));
    }
  }

  lemma LowerApart(m: nat, n: nat, c: nat)
    requires m < n && 0 < c <= m + 1
    ensures TailsBelow(m, n, c - 1) !! Prefixed(c - 1, Tails(m + 1, n))
  {
    var lower, upper := TailsBelow(m, n, c - 1), Prefixed(c - 1, Tails(m + 1, n));
    forall t | t in lower ensures t !in upper { TailsBelowAre(m, n, c - 1, t); }
  }

  lemma ChoosersApart(res: seq<nat>, m: nat, j: nat, lower: set<seq<nat>>, upper: set<seq<nat>>)
    requires lower !! upper
    ensures |lower + upper| == |lower| + |upper|
    ensures |Choosers(res, m, j, lower + upper)| == |Choosers(res, m, j, lower)| + |Choosers(res, m, j, upper)|
  {
    assert Choosers(res, m, j, lower + upper) == Choosers(res, m, j, lower) + Choosers(res, m, j, upper);
  }

  lemma PrefixedChoosers(res: seq<nat>, m: nat, j: nat, x: nat, ts: set<seq<nat>>)
    ensures Choosers(res, m, j, Prefixed(x, ts)) == Prefixed(x, Choosers(Step(res, m, x), m + 1, j, ts))
  {
  }

  /** Fairness: of all the residue streams for `n` members and a reservoir of `k`, exactly k/n select position `j`. */
  lemma ReservoirIsFair(k: nat, n: nat, j: nat)
    requires k <= n && j < n
    ensures |Choosers(FirstPositions(k), k, j, Tails(k, n))| * n == k * |Tails(k, n)|
    ensures forall t: seq<nat> :: t in Tails(k, n) <==> IsTail(t, k, n)
  {
    StreamsCounted(k, n);
    ChoosersCounted(FirstPositions(k), k, n, j);
    FirstShare(k, n, j);
    forall t: seq<nat> ensures t in Tails(k, n) <==> IsTail(t, k, n) { TailsAre(k, n, t); }
  }

  function Residues(random: seq<nat>, m: nat, n: nat): seq<nat>
    requires m <= n <= |random|
    decreases n - m
  {
    if m == n then [] else [random[m] % (m + 1)] + Residues(random, m + 1, n)
  }

  /** The sampling loop follows the stream its random numbers leave as residues. */
  lemma {:induction false} SamplingFollowsStream(k: nat, random: seq<nat>, m: nat, n: nat)
    requires k <= m <= n <= |random|
    ensures Residues(random, m, n) in Tails(m, n)
    ensures Continue(Positions(k, random, m), m, Residues(random, m, n)) == Positions(k, random, n)
    decreases n - m
  {
    if m < n {
      SamplingFollowsStream(k, random, m + 1, n);
      var r := Residues(random, m, n);
      assert r[1..] == Residues(random, m + 1, n);
      TailsAre(m + 1, n, r[1..]);
      assert IsTail(r, m, n);
    }
    TailsAre(m, n, Residues(random, m, n));
  }

  /** The stream that a list of random numbers leaves: candidate `i`, from the k-th on, draws `random[i] % (i + 1)`. */
  lemma {:induction false} ResiduesAre(random: seq<nat>, m: nat, n: nat)
    requires m <= n <= |random|
    ensures |Residues(random, m, n)| == n - m
    ensures forall i :: 0 <= i < n - m ==> Residues(random, m, n)[i] == random[m + i] % (m + i + 1)
    decreases n - m
  {
    if m < n {
      ResiduesAre(random, m + 1, n);
      var r, rest := Residues(random, m, n), Residues(random, m + 1, n);
      assert forall i :: 0 < i < n - m ==> r[i] == rest[i - 1];
    }
  }

  /** A stream, drawn as random numbers, is its own residues. */
  lemma DrawnStream(k: nat, n: nat, random: seq<nat>)
    requires k <= n == |random| && random[k..] in Tails(k, n)
    ensures Residues(random, k, n) == random[k..]
  {
    hide *;
    var t, r := random[k..], Residues(random, k, n);
    ResiduesAre(random, k, n);
    TailsAre(k, n, t);
    TailAt(t, k, n);
    forall i | 0 <= i < n - k ensures r[i] == t[i] { SmallResidue(t[i], k + i + 1); }
    assert r == t;
  }

  lemma TailAt(t: seq<nat>, m: nat, n: nat)
    requires m <= n && IsTail(t, m, n)
    ensures |t| == n - m && forall i :: 0 <= i < |t| ==> t[i] < m + i + 1
  {
  }

  lemma SmallResidue(x: nat, m: nat)
    requires x < m
    ensures x % m == x
  {
  }

  /** The sample holds, in order, what stands at the positions its residue stream leads to. */
  lemma SampleFollowsStream<T>(s: seq<T>, k: nat, random: seq<nat>)
    requires |random| >= |s|
    ensures if |s| <= k then Sample(s, k, random) == s
            else
              var p := Continue(FirstPositions(k), k, Residues(random, k, |s|));
              && |p| == |Sample(s, k, random)| == k
              && forall i :: 0 <= i < k ==> p[i] < |s| && Sample(s, k, random)[i] == s[p[i]]
  {
    hide Step, Continue;
    if |s| > k {
      SamplingFollowsStream(k, random, k, |s|);
      PositionsSelect(k, random, |s|);
    }
  }
}
