/** Order-preserving filtering (`Array.prototype.filter`, list comprehensions with `if`). */
module Seqs {

  /** The elements of `s` that satisfy `p`, in their original order. */
  function Keep<T>(s: seq<T>, p: T -> bool): (r: seq<T>)
    ensures |r| <= |s|
    ensures forall i :: 0 <= i < |r| ==> r[i] in s && p(r[i])
    ensures forall i :: 0 <= i < |s| && p(s[i]) ==> s[i] in r
  {
    if |s| == 0 then [] else (if p(s[0]) then [s[0]] else []) + Keep(s[1..], p)
  }

  /** `a` can be obtained from `b` by deleting elements. */
  predicate SubsequenceOf<T(==)>(a: seq<T>, b: seq<T>)
    decreases |b|
  {
    a == [] || (b != [] && ((a[0] == b[0] && SubsequenceOf(a[1..], b[1..])) || SubsequenceOf(a, b[1..])))
  }

  lemma {:induction false} KeepSubsequence<T>(s: seq<T>, p: T -> bool)
    ensures SubsequenceOf(Keep(s, p), s)
  {
    if |s| > 0 {
      KeepSubsequence(s[1..], p);
      var a := Keep(s, p);
      if p(s[0]) {
        assert a == [s[0]] + Keep(s[1..], p);
        assert a[1..] == Keep(s[1..], p);
        assert a[0] == s[0];
      } else {
        assert a == Keep(s[1..], p);
      }
    }
  }

  /** Keeping elements that all pass changes nothing. */
  lemma {:induction false} KeepAll<T>(s: seq<T>, p: T -> bool)
    requires forall i :: 0 <= i < |s| ==> p(s[i])
    ensures Keep(s, p) == s
  {
    if |s| > 0 {
      KeepAll(s[1..], p);
      assert [s[0]] + s[1..] == s;
    }
  }

  /** Keeping elements none of which passes gives the empty sequence. */
  lemma KeepNone<T>(s: seq<T>, p: T -> bool)
    requires forall i :: 0 <= i < |s| ==> !p(s[i])
    ensures Keep(s, p) == []
  {
  }

  /** Two filters applied one after the other commute. */
  lemma {:induction false} KeepCommutes<T>(s: seq<T>, p: T -> bool, q: T -> bool)
    ensures Keep(Keep(s, p), q) == Keep(Keep(s, q), p)
  {
    if |s| > 0 {
      KeepCommutes(s[1..], p, q);
      KeepAppend([s[0]], s[1..], p);
      KeepAppend([s[0]], s[1..], q);
      assert s == [s[0]] + s[1..];
      KeepAppend(Keep([s[0]], p), Keep(s[1..], p), q);
      KeepAppend(Keep([s[0]], q), Keep(s[1..], q), p);
    }
  }

  lemma {:induction false} KeepAppend<T>(a: seq<T>, b: seq<T>, p: T -> bool)
    ensures Keep(a + b, p) == Keep(a, p) + Keep(b, p)
  {
    if |a| > 0 {
      assert (a + b)[1..] == a[1..] + b;
      KeepAppend(a[1..], b, p);
    } else {
      assert a + b == b;
    }
  }

  predicate Distinct<T(==)>(s: seq<T>) {
    forall i, j :: 0 <= i < j < |s| ==> s[i] != s[j]
  }

  /** Filtering a sequence without repetitions keeps it without repetitions. */
  lemma {:induction false} KeepDistinct<T>(s: seq<T>, p: T -> bool)
    requires Distinct(s)
    ensures Distinct(Keep(s, p))
    ensures forall x :: x in Keep(s, p) <==> x in s && p(x)
  {
    if |s| > 0 {
      KeepDistinct(s[1..], p);
      assert Distinct(s[1..]);
      assert s[0] !in s[1..];
    }
  }

  /** The distinct elements of `s` in order of first appearance (the keys a dictionary gains). */
  function Dedupe<T(==, !new)>(s: seq<T>): (r: seq<T>)
    ensures Distinct(r)
    ensures forall x :: x in r <==> x in s
  {
    if s == [] then []
    else
      var d := Dedupe(s[..|s| - 1]);
      var x := s[|s| - 1];
      assert s == s[..|s| - 1] + [x];
      if x in d then d else d + [x]
  }

  /** The number of times `x` occurs in `s`. */
  function Occurrences<T(==)>(s: seq<T>, x: T): (n: nat)
    ensures n == 0 <==> x !in s
  {
    if s == [] then 0
    else
      assert s == s[..|s| - 1] + [s[|s| - 1]];
      Occurrences(s[..|s| - 1], x) + if s[|s| - 1] == x then 1 else 0
  }

  /** The occurrences in `s` of all the `keys`, added up. */
  function SumOccurrences<T(==)>(keys: seq<T>, s: seq<T>): nat {
    if keys == [] then 0 else SumOccurrences(keys[..|keys| - 1], s) + Occurrences(s, keys[|keys| - 1])
  }

  lemma OccurrencesSnoc<T>(s: seq<T>, x: T, y: T)
    ensures Occurrences(s + [x], y) == Occurrences(s, y) + if x == y then 1 else 0
  {
    assert (s + [x])[..|s + [x]| - 1] == s;
  }

  /** Appending `x` adds one to the sum exactly when `x` is among distinct keys. */
  lemma {:induction false} SumOccurrencesSnoc<T>(keys: seq<T>, s: seq<T>, x: T)
    requires Distinct(keys)
    ensures SumOccurrences(keys, s + [x]) == SumOccurrences(keys, s) + if x in keys then 1 else 0
  {
    if keys != [] {
      var init := keys[..|keys| - 1];
      var last := keys[|keys| - 1];
      assert keys == init + [last];
      assert Distinct(init);
      SumOccurrencesSnoc(init, s, x);
      OccurrencesSnoc(s, x, last);
      assert x in keys <==> x in init || x == last;
      assert x == last ==> x !in init;
    }
  }

  /** Every element of `s` is counted once under its first appearance. */
  lemma {:induction false} DedupeCounts<T(!new)>(s: seq<T>)
    ensures SumOccurrences(Dedupe(s), s) == |s|
  {
    if s != [] {
      var init := s[..|s| - 1];
      var x := s[|s| - 1];
      assert s == init + [x];
      DedupeCounts(init);
      var d := Dedupe(init);
      SumOccurrencesSnoc(d, init, x);
      if x !in d {
        assert Dedupe(s) == d + [x];
        assert (d + [x])[..|d + [x]| - 1] == d;
        OccurrencesSnoc(init, x, x);
      }
    }
  }
}
