/** The truncated enumeration of k-combinations behind `detectSuspiciousClusters` (`_combinations` of
    `src/graph/index.ts`). */
module Clusters {

  const MAX_CLUSTER_CANDIDATES := 30
  const MAX_COMBINATION_CHECKS := 5000

  // ---------- Specification: index vectors in lexicographic order ----------

  /** `v` picks positions of [lo, n) from left to right. */
  ghost predicate Picks(v: seq<nat>, lo: nat, n: nat) {
    (forall i :: 0 <= i < |v| ==> lo <= v[i] < n) && forall i, j :: 0 <= i < j < |v| ==> v[i] < v[j]
  }

  ghost predicate LexLess(v: seq<nat>, w: seq<nat>) {
    exists m :: 0 <= m < |v| && m < |w| && v[..m] == w[..m] && v[m] < w[m]
  }

  function PrependAll<T>(x: T, cs: seq<seq<T>>): seq<seq<T>> {
    seq(|cs|, i requires 0 <= i < |cs| => [x] + cs[i])
  }

  function Combinations(arr: seq<string>, k: nat): seq<seq<string>> {
    if k == 0 then [[]]
    else if |arr| < k then []
    else PrependAll(arr[0], Combinations(arr[1..], k - 1)) + Combinations(arr[1..], k)
  }

  ghost function IndexVectors(lo: nat, n: nat, k: nat): seq<seq<nat>>
    decreases n - lo
  {
    if k == 0 then [[]]
    else if n - lo < k then []
    else PrependAll(lo, IndexVectors(lo + 1, n, k - 1)) + IndexVectors(lo + 1, n, k)
  }

  /** `c` lists the elements of `arr` at the positions `v`. */
  ghost predicate IsPick(arr: seq<string>, v: seq<nat>, c: seq<string>) {
    |v| == |c| && forall j :: 0 <= j < |v| ==> v[j] < |arr| && c[j] == arr[v[j]]
  }

  ghost predicate AllPicks(arr: seq<string>, vs: seq<seq<nat>>, cs: seq<seq<string>>) {
    |vs| == |cs| && forall i :: 0 <= i < |cs| ==> IsPick(arr, vs[i], cs[i])
  }

  function Binomial(n: nat, k: nat): nat {
    if k == 0 then 1 else if n < k then 0 else Binomial(n - 1, k - 1) + Binomial(n - 1, k)
  }

  function Take<T>(s: seq<T>, n: int): seq<T> {
    if n <= 0 then [] else if n >= |s| then s else s[..n]
  }

  // ---------- The operation ----------

  lemma TakeGrows<T>(p: seq<T>, more: seq<T>, n: int)
    ensures Take(p + more, n) == Take(p, n) + Take(more, n - |Take(p, n)|)
  {}

  lemma TakePrepended<T>(x: T, cs: seq<seq<T>>, n: int)
    ensures Take(PrependAll(x, cs), n) == PrependAll(x, Take(cs, n))
  {}

  lemma {:induction false} CombinationsSplit(arr: seq<string>, k: nat, i: nat)
    requires k > 0 && i + k <= |arr|
    ensures Combinations(arr[i..], k) ==
            PrependAll(arr[i], Combinations(arr[i + 1..], k - 1)) + Combinations(arr[i + 1..], k)
  {
    assert arr[i..][1..] == arr[i + 1..];
  }

  /** The first `maxResults` combinations, where one combination of nothing is always returned. */
  method Enumerate(arr: seq<string>, k: nat, maxResults: int) returns (results: seq<seq<string>>)
    ensures results == if k == 0 then [[]] else Take(Combinations(arr, k), maxResults)
    decreases k
  {
    hide Combinations;
    if k == 0 { return [[]]; }
    if |arr| < k { results := []; assert Combinations(arr, k) == [] by { NoneFit(arr, k); } return; }
    results := [];
    ghost var done: seq<seq<string>> := [];
    var i := 0;
    assert arr[0..] == arr;
    while i <= |arr| - k
      invariant 0 <= i <= |arr| - k + 1
      invariant Combinations(arr, k) == done + Combinations(arr[i..], k)
      invariant results == Take(done, maxResults)
      decreases |arr| - i
    {
      if |results| >= maxResults {
        TakeGrows(done, Combinations(arr[i..], k), maxResults);
        return;
      }
      var rest := Enumerate(arr[i + 1..], k - 1, maxResults - |results|);
      ghost var here := Combinations(arr[i + 1..], k - 1);
      CombinationsSplit(arr, k, i);
      OneIsAll(arr[i + 1..], k - 1);
      assert rest == Take(here, maxResults - |results|);
      ghost var before := results;
      results := AppendPrepended(results, arr[i], rest, maxResults);
      TakeTwice(here, maxResults - |before|);
      TakeGrows(done, PrependAll(arr[i], here), maxResults);
      TakePrepended(arr[i], here, maxResults - |before|);
      done := done + PrependAll(arr[i], here);
      i := i + 1;
    }
    assert Combinations(arr[i..], k) == [] by { NoneFit(arr[i..], k); }
  }

  /** The inner loop: each shorter combination gets the current element in front, up to the limit. */
  method AppendPrepended(before: seq<seq<string>>, x: string, rest: seq<seq<string>>, maxResults: int)
    returns (results: seq<seq<string>>)
    requires |before| < maxResults
    ensures results == before + PrependAll(x, Take(rest, maxResults - |before|))
  {
    results := before;
    var j := 0;
    while j < |rest|
      invariant 0 <= j <= |rest| && j <= maxResults - |before|
      invariant results == before + PrependAll(x, rest[..j])
    {
      if |results| >= maxResults { break; }
      results := results + [[x] + rest[j]];
      assert rest[..j + 1] == rest[..j] + [rest[j]];
      j := j + 1;
    }
    assert rest[..j] == Take(rest, maxResults - |before|);
  }

  lemma TakeTwice<T>(s: seq<T>, n: int)
    ensures Take(Take(s, n), n) == Take(s, n)
  {}

  lemma NoneFit(arr: seq<string>, k: nat)
    requires |arr| < k
    ensures Combinations(arr, k) == []
  {}

  lemma OneIsAll(arr: seq<string>, k: nat)
    ensures k == 0 ==> Combinations(arr, k) == [[]]
  {}

  // ---------- The specification is the one intended ----------

  lemma InPrepended(x: nat, vs: seq<seq<nat>>, v: seq<nat>)
    ensures v in PrependAll(x, vs) <==> |v| > 0 && v[0] == x && v[1..] in vs
  {
    if v in PrependAll(x, vs) {
      var i :| 0 <= i < |vs| && PrependAll(x, vs)[i] == v;
      assert v[1..] == vs[i];
    }
    if |v| > 0 && v[0] == x && v[1..] in vs {
      var i :| 0 <= i < |vs| && vs[i] == v[1..];
      assert PrependAll(x, vs)[i] == [x] + vs[i] == v;
    }
  }

  lemma PicksSplit(v: seq<nat>, lo: nat, n: nat)
    requires |v| > 0
    ensures Picks(v, lo, n) <==> (lo < n && v[0] == lo && Picks(v[1..], lo + 1, n)) || Picks(v, lo + 1, n)
  {
    if Picks(v, lo, n) && v[0] == lo {
      assert Picks(v[1..], lo + 1, n);
    }
    if lo < n && v[0] == lo && Picks(v[1..], lo + 1, n) {
      assert forall i :: 1 <= i < |v| ==> v[i] == v[1..][i - 1];
    }
  }

  /** The vectors listed are exactly the increasing choices of k positions. */
  lemma {:induction false} VectorsExact(lo: nat, n: nat, k: nat, v: seq<nat>)
    requires lo <= n
    ensures v in IndexVectors(lo, n, k) <==> |v| == k && Picks(v, lo, n)
    decreases n - lo
  {
    hide Picks, PrependAll;
    if k == 0 {
      assert |v| == 0 ==> Picks(v, lo, n) by { NothingPicked(lo, n); }
    } else if n - lo >= k {
      VectorsExact(lo + 1, n, k, v);
      InPrepended(lo, IndexVectors(lo + 1, n, k - 1), v);
      if |v| > 0 {
        VectorsExact(lo + 1, n, k - 1, v[1..]);
        PicksSplit(v, lo, n);
      }
    } else if |v| == k && Picks(v, lo, n) {
      PicksSpread(v, lo, n, k - 1);
      assert false;
    }
  }

  lemma NothingPicked(lo: nat, n: nat)
    ensures Picks([], lo, n)
  {}

  lemma {:induction false} PicksSpread(v: seq<nat>, lo: nat, n: nat, i: nat)
    requires Picks(v, lo, n) && i < |v|
    ensures lo + i <= v[i] < n
  {
    if i > 0 { PicksSpread(v, lo, n, i - 1); }
  }

  ghost predicate LexSorted(vs: seq<seq<nat>>) {
    forall i, j :: 0 <= i < j < |vs| ==> LexLess(vs[i], vs[j])
  }

  lemma PrependSorted(x: nat, vs: seq<seq<nat>>)
    requires LexSorted(vs)
    ensures LexSorted(PrependAll(x, vs))
  {
    forall i, j | 0 <= i < j < |vs| ensures LexLess([x] + vs[i], [x] + vs[j]) {
      assert LexLess(vs[i], vs[j]);
      PrependKeepsOrder(x, vs[i], vs[j]);
    }
  }

  lemma ConcatSorted(vs: seq<seq<nat>>, ws: seq<seq<nat>>)
    requires LexSorted(vs) && LexSorted(ws)
    requires forall v, w :: v in vs && w in ws ==> LexLess(v, w)
    ensures LexSorted(vs + ws)
  {
    hide LexLess;
  }

  /** They are listed in strictly increasing lexicographic order. */
  lemma {:induction false} VectorsSorted(lo: nat, n: nat, k: nat)
    requires lo <= n
    ensures LexSorted(IndexVectors(lo, n, k))
    decreases n - lo
  {
    if k > 0 && n - lo >= k {
      VectorsSorted(lo + 1, n, k - 1);
      VectorsSorted(lo + 1, n, k);
      hide LexSorted, PrependAll;
      PrependSorted(lo, IndexVectors(lo + 1, n, k - 1));
      forall v, w | v in PrependAll(lo, IndexVectors(lo + 1, n, k - 1)) && w in IndexVectors(lo + 1, n, k)
        ensures LexLess(v, w)
      {
        InPrepended(lo, IndexVectors(lo + 1, n, k - 1), v);
        VectorsExact(lo + 1, n, k, w);
        assert v[..0] == w[..0] && v[0] < w[0];
      }
      ConcatSorted(PrependAll(lo, IndexVectors(lo + 1, n, k - 1)), IndexVectors(lo + 1, n, k));
    }
  }

  lemma PrependKeepsOrder(x: nat, v: seq<nat>, w: seq<nat>)
    requires LexLess(v, w)
    ensures LexLess([x] + v, [x] + w)
  {
    var m :| 0 <= m < |v| && m < |w| && v[..m] == w[..m] && v[m] < w[m];
    assert ([x] + v)[..m + 1] == [x] + v[..m];
    assert ([x] + w)[..m + 1] == [x] + w[..m];
  }

  lemma {:induction false} CombinationsCount(arr: seq<string>, k: nat)
    ensures |Combinations(arr, k)| == Binomial(|arr|, k)
  {
    if k > 0 && |arr| >= k {
      CombinationsCount(arr[1..], k - 1);
      CombinationsCount(arr[1..], k);
    }
  }

  lemma PrependPicks(arr: seq<string>, lo: nat, vs: seq<seq<nat>>, cs: seq<seq<string>>)
    requires lo < |arr| && AllPicks(arr, vs, cs)
    ensures AllPicks(arr, PrependAll(lo, vs), PrependAll(arr[lo], cs))
  {
    forall i | 0 <= i < |cs| ensures IsPick(arr, [lo] + vs[i], [arr[lo]] + cs[i]) {
      assert IsPick(arr, vs[i], cs[i]);
    }
  }

  lemma ConcatPicks(arr: seq<string>, vs: seq<seq<nat>>, cs: seq<seq<string>>, ws: seq<seq<nat>>, ds: seq<seq<string>>)
    requires AllPicks(arr, vs, cs) && AllPicks(arr, ws, ds)
    ensures AllPicks(arr, vs + ws, cs + ds)
  {
    hide IsPick;
  }

  /** The listing picks the elements at the index vectors, in their order. */
  lemma {:induction false} CombinationsAreVectors(arr: seq<string>, lo: nat, k: nat)
    requires lo <= |arr|
    ensures AllPicks(arr, IndexVectors(lo, |arr|, k), Combinations(arr[lo..], k))
    decreases |arr| - lo
  {
    if k > 0 && |arr| - lo >= k {
      CombinationsSplit(arr, k, lo);
      CombinationsAreVectors(arr, lo + 1, k - 1);
      CombinationsAreVectors(arr, lo + 1, k);
      hide AllPicks, PrependAll;
      PrependPicks(arr, lo, IndexVectors(lo + 1, |arr|, k - 1), Combinations(arr[lo + 1..], k - 1));
      ConcatPicks(arr, PrependAll(lo, IndexVectors(lo + 1, |arr|, k - 1)),
                  PrependAll(arr[lo], Combinations(arr[lo + 1..], k - 1)),
                  IndexVectors(lo + 1, |arr|, k), Combinations(arr[lo + 1..], k));
    }
  }

  /** Main result: the enumeration is complete exactly when the limit covers the binomial number, and
      then every choice of k positions is in it. */
  lemma EnumerationComplete(arr: seq<string>, k: nat, maxResults: int)
    requires maxResults >= 1
    ensures Take(Combinations(arr, k), maxResults) == Combinations(arr, k) <==> Binomial(|arr|, k) <= maxResults
    ensures |Take(Combinations(arr, k), maxResults)| ==
            if Binomial(|arr|, k) <= maxResults then Binomial(|arr|, k) else maxResults
    ensures forall v :: |v| == k && Picks(v, 0, |arr|) ==> exists c :: c in Combinations(arr, k) && IsPick(arr, v, c)
  {
    CombinationsCount(arr, k);
    CombinationsAreVectors(arr, 0, k);
    assert arr[0..] == arr;
    var vs, cs := IndexVectors(0, |arr|, k), Combinations(arr, k);
    forall v | |v| == k && Picks(v, 0, |arr|) ensures exists c :: c in cs && IsPick(arr, v, c) {
      VectorsExact(0, |arr|, k, v);
      var i :| 0 <= i < |vs| && vs[i] == v;
      assert cs[i] in cs && IsPick(arr, v, cs[i]);
    }
  }

  lemma {:induction false} BinomialSmall(n: nat)
    ensures Binomial(n, 1) == n
    ensures 2 * Binomial(n, 2) == n * (n - 1)
    ensures 6 * Binomial(n, 3) == n * (n - 1) * (n - 2)
  {
    if n > 0 {
      BinomialSmall(n - 1);
      assert n >= 3 ==> Binomial(n, 3) == Binomial(n - 1, 2) + Binomial(n - 1, 3);
      assert n >= 2 ==> Binomial(n, 2) == Binomial(n - 1, 1) + Binomial(n - 1, 2);
      CubeStep(n);
    }
  }

  lemma CubeStep(n: int)
    ensures n * (n - 1) * (n - 2) == 3 * ((n - 1) * (n - 2)) + (n - 1) * (n - 2) * (n - 3)
    ensures n * (n - 1) == 2 * (n - 1) + (n - 1) * (n - 2)
  {
    var a := (n - 1) * (n - 2);
    assert n * (n - 1) * (n - 2) == n * a;
    assert a * (n - 3) == n * a - 3 * a;
  }

  lemma ProductMonotone(a: int, b: int, c: int, d: int)
    requires 0 <= a <= b && 0 <= c <= d
    ensures a * c <= b * d
  {
    assert a * c <= b * c <= b * d;
  }

  lemma TriplesFit(n: nat)
    requires n <= MAX_CLUSTER_CANDIDATES
    ensures Binomial(n, 3) <= 4060 <= MAX_COMBINATION_CHECKS
  {
    BinomialSmall(n);
    if n >= 3 {
      ProductMonotone(n, 30, n - 1, 29);
      ProductMonotone(n * (n - 1), 870, n - 2, 28);
    }
  }

  lemma TriplePicks(a: nat, b: nat, c: nat, n: nat)
    requires a < b < c < n
    ensures |[a, b, c]| == 3 && Picks([a, b, c], 0, n)
  {}

  lemma TriplePicked(arr: seq<string>, a: nat, b: nat, c: nat, triple: seq<string>)
    requires a < b < c < |arr| && IsPick(arr, [a, b, c], triple)
    ensures triple == [arr[a], arr[b], arr[c]]
  {
    assert [a, b, c][0] == a && [a, b, c][1] == b && [a, b, c][2] == c;
  }

  /** With the default cluster size, every triple among the at most 30 candidates is examined. */
  lemma EveryTripleExamined(candidates: seq<string>, a: nat, b: nat, c: nat)
    requires |candidates| <= 30 && a < b < c < |candidates|
    ensures [candidates[a], candidates[b], candidates[c]] in Take(Combinations(candidates, 3), 5000)
  {
    hide Combinations, Binomial, Take, Picks, IsPick;
    TriplesFit(|candidates|);
    EnumerationComplete(candidates, 3, MAX_COMBINATION_CHECKS);
    var v := [a, b, c];
    TriplePicks(a, b, c, |candidates|);
    var triple :| triple in Combinations(candidates, 3) && IsPick(candidates, v, triple);
    TriplePicked(candidates, a, b, c, triple);
  }
}
