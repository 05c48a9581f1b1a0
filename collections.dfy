/** Kotlin's read-only list operations that the screens use (`filter`, `map`,
    `count`, `maxOfOrNull`), on Dafny sequences. */
module Collections {
  import opened Kotlin

  /** `a` is `b` with some elements left out, the rest in their order. */
  ghost predicate IsSubsequence<T>(a: seq<T>, b: seq<T>)
    decreases |b|
  {
    if a == [] then true
    else if b == [] then false
    else (a[0] == b[0] && IsSubsequence(a[1..], b[1..])) || IsSubsequence(a, b[1..])
  }

  /** The number of elements of `s` that satisfy `p`: `s.count(p)`. */
  function Count<T>(s: seq<T>, p: T -> bool): (n: nat)
    ensures n <= |s|
    ensures n == 0 <==> forall x :: x in s ==> !p(x)
    ensures n == |s| <==> forall x :: x in s ==> p(x)
  {
    if s == [] then 0 else (if p(s[0]) then 1 else 0) + Count(s[1..], p)
  }

  /** `s.filter(keep)`. */
  function Filter<T(!new)>(s: seq<T>, keep: T -> bool): (r: seq<T>)
    ensures |r| == Count(s, keep)
    ensures forall x :: x in r <==> x in s && keep(x)
    ensures IsSubsequence(r, s)
  {
    if s == [] then []
    else if keep(s[0]) then [s[0]] + Filter(s[1..], keep)
    else Filter(s[1..], keep)
  }

  /** `s.map(f)`. */
  function Map<T, U>(s: seq<T>, f: T -> U): (r: seq<U>)
    ensures |r| == |s|
    ensures forall i :: 0 <= i < |s| ==> r[i] == f(s[i])
  {
    if s == [] then [] else [f(s[0])] + Map(s[1..], f)
  }

  /** `s.maxOfOrNull(selector)` for an `Int` selector. */
  function MaxOfOrNull<T>(s: seq<T>, selector: T -> Int32): (r: Option<Int32>)
    ensures r.None? <==> s == []
    ensures r.Some? ==> exists x :: x in s && selector(x) == r.value
    ensures r.Some? ==> forall x :: x in s ==> selector(x) <= r.value
  {
    if s == [] then None
    else
      var rest := MaxOfOrNull(s[1..], selector);
      if rest.Some? && rest.value > selector(s[0]) then rest else Some(selector(s[0]))
  }

  /** A filter that keeps everything is the identity. */
  lemma {:induction false} FilterKeepsAll<T(!new)>(s: seq<T>, keep: T -> bool)
    requires forall x :: x in s ==> keep(x)
    ensures Filter(s, keep) == s
  {
    if s != [] {
      assert keep(s[0]) by { assert s[0] in s; }
      assert forall x :: x in s[1..] ==> x in s;
      FilterKeepsAll(s[1..], keep);
      assert s == [s[0]] + s[1..];
    }
  }

  /** Counting with a predicate that agrees with `p` on `s` gives the same number. */
  lemma {:induction false} CountCongruent<T>(s: seq<T>, p: T -> bool, p': T -> bool)
    requires forall x :: x in s ==> p(x) == p'(x)
    ensures Count(s, p) == Count(s, p')
  {
    if s != [] {
      assert forall x :: x in s[1..] ==> x in s;
      CountCongruent(s[1..], p, p');
    }
  }

  /** Every element splits `s` into those that satisfy `p` and those that do not. */
  lemma {:induction false} CountSplit<T>(s: seq<T>, p: T -> bool, notP: T -> bool)
    requires forall x :: x in s ==> notP(x) == !p(x)
    ensures Count(s, p) + Count(s, notP) == |s|
  {
    if s != [] {
      assert forall x :: x in s[1..] ==> x in s;
      CountSplit(s[1..], p, notP);
    }
  }

  /** Elements of a subsequence are elements of the original. */
  lemma {:induction false} SubsequenceMembers<T>(a: seq<T>, b: seq<T>, x: T)
    requires IsSubsequence(a, b)
    requires x in a
    ensures x in b
    decreases |b|
  {
    if a[0] == b[0] && IsSubsequence(a[1..], b[1..]) {
      if x != a[0] {
        SubsequenceMembers(a[1..], b[1..], x);
      }
    } else {
      SubsequenceMembers(a, b[1..], x);
    }
  }

  /** No two elements of `s` share a key. */
  ghost predicate DistinctBy<T, K>(s: seq<T>, key: T -> K)
  {
    forall i, j :: 0 <= i < j < |s| ==> key(s[i]) != key(s[j])
  }

  /** Leaving elements out keeps the keys distinct. */
  lemma {:induction false} SubsequenceKeepsDistinct<T, K>(a: seq<T>, b: seq<T>, key: T -> K)
    requires IsSubsequence(a, b)
    requires DistinctBy(b, key)
    ensures DistinctBy(a, key)
    decreases |b|
  {
    if a != [] {
      assert DistinctBy(b[1..], key) by {
        forall i, j | 0 <= i < j < |b| - 1 ensures key(b[1..][i]) != key(b[1..][j]) {
          assert b[1..][i] == b[i + 1] && b[1..][j] == b[j + 1];
        }
      }
      if a[0] == b[0] && IsSubsequence(a[1..], b[1..]) {
        SubsequenceKeepsDistinct(a[1..], b[1..], key);
        forall j | 0 < j < |a| ensures key(a[0]) != key(a[j]) {
          assert a[j] == a[1..][j - 1];
          SubsequenceMembers(a[1..], b[1..], a[j]);
          var k :| 0 <= k < |b[1..]| && b[1..][k] == a[j];
          assert b[k + 1] == a[j];
        }
        forall i, j | 0 < i < j < |a| ensures key(a[i]) != key(a[j]) {
          assert a[i] == a[1..][i - 1] && a[j] == a[1..][j - 1];
        }
      } else {
        SubsequenceKeepsDistinct(a, b[1..], key);
      }
    }
  }
}
