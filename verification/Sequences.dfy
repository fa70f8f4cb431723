/** Facts about sequences that several modules need. */
module Sequences {

  ghost predicate Distinct<T>(s: seq<T>) {
    forall i, j :: 0 <= i < j < |s| ==> s[i] != s[j]
  }

  lemma {:induction false} AtMostOnce<T>(s: seq<T>, x: T)
    requires Distinct(s)
    ensures multiset(s)[x] <= 1
  {
    if s != [] {
      assert s == [s[0]] + s[1..];
      assert forall i, j :: 0 <= i < j < |s[1..]| ==> s[1..][i] == s[i + 1] && s[1..][j] == s[j + 1];
      AtMostOnce(s[1..], x);
      if s[0] == x { assert x !in s[1..]; }
    }
  }

  lemma TwiceInMultiset<T>(s: seq<T>, i: nat, j: nat)
    requires i < j < |s| && s[i] == s[j]
    ensures multiset(s)[s[i]] >= 2
  {
    assert s == s[..j] + [s[j]] + s[j + 1..];
    assert s[i] in s[..j];
  }

  /** A permutation repeats nothing that the original does not repeat. */
  lemma PermutationDistinct<T>(s: seq<T>, t: seq<T>)
    requires Distinct(s) && multiset(s) == multiset(t)
    ensures Distinct(t)
  {
    forall i, j | 0 <= i < j < |t| ensures t[i] != t[j] {
      if t[i] == t[j] {
        AtMostOnce(s, t[i]);
        TwiceInMultiset(t, i, j);
        assert false;
      }
    }
  }

  ghost predicate Free(c: char, s: string) {
    forall i :: 0 <= i < |s| ==> s[i] != c
  }

  /** Text up to the first separator can be read off. */
  lemma FirstSeparatorSplits(sep: char, a: string, b: string, c: string, d: string)
    requires a + [sep] + b == c + [sep] + d && Free(sep, a) && Free(sep, c)
    ensures a == c && b == d
  {
    var t := a + [sep] + b;
    assert t[|a|] == sep && t[|c|] == sep;
    assert forall i :: 0 <= i < |a| ==> t[i] == a[i];
    assert forall i :: 0 <= i < |c| ==> t[i] == c[i];
    assert |a| == |c|;
    assert a == t[..|a|] && c == t[..|c|] && b == t[|a| + 1..] && d == t[|c| + 1..];
  }

  /** So can text from the last separator on. */
  lemma LastSeparatorSplits(sep: char, a: string, b: string, c: string, d: string)
    requires a + [sep] + b == c + [sep] + d && Free(sep, b) && Free(sep, d)
    ensures a == c && b == d
  {
    var t := a + [sep] + b;
    assert t[|a|] == sep && t[|c|] == sep;
    assert forall i :: |a| < i < |t| ==> t[i] == b[i - |a| - 1];
    assert forall i :: |c| < i < |t| ==> t[i] == d[i - |c| - 1];
    assert |a| == |c|;
    assert a == t[..|a|] && c == t[..|c|] && b == t[|a| + 1..] && d == t[|c| + 1..];
  }
}
