/**
 * Generic sequence operations used by both halves of the model: the first
 * index of an element (Array.prototype.indexOf / String.prototype.indexOf),
 * removal of that first occurrence (String.prototype.replace with a plain
 * string pattern, and the DOM's appendChild detaching an existing child),
 * and order-preserving selection (subsequences).
 */
module Sequences {

  /** The index of the first occurrence of `x` in `s`, or -1 when there is none. */
  function IndexOf<T(==)>(s: seq<T>, x: T): (i: int)
    ensures -1 <= i < |s|
    ensures i == -1 <==> x !in s
    ensures 0 <= i ==> s[i] == x && x !in s[..i]
  {
    if s == [] then -1
    else if s[0] == x then 0
    else
      var j := IndexOf(s[1..], x);
      assert s[1..][..if j < 0 then 0 else j] == s[1..if j < 0 then 1 else j + 1];
      if j < 0 then -1 else j + 1
  }

  /** Past a prefix that lacks `x`, the first `x` is found where it is first found in the rest. */
  lemma {:induction false} IndexOfAfter<T>(a: seq<T>, b: seq<T>, x: T)
    requires x !in a && x in b
    ensures IndexOf(a + b, x) == |a| + IndexOf(b, x)
  {
    if a == [] {
      assert a + b == b;
    } else {
      assert (a + b)[1..] == a[1..] + b;
      IndexOfAfter(a[1..], b, x);
    }
  }

  /** `s` without its first occurrence of `x`; `s` itself when `x` does not occur. */
  function RemoveFirst<T(==)>(s: seq<T>, x: T): (r: seq<T>)
    ensures x !in s ==> r == s
    ensures x in s ==> |r| == |s| - 1
  {
    if s == [] then []
    else if s[0] == x then s[1..]
    else [s[0]] + RemoveFirst(s[1..], x)
  }

  /** RemoveFirst cuts out exactly the element at the first index of `x`. */
  lemma {:induction false} RemoveFirstAt<T>(s: seq<T>, x: T)
    requires x in s
    ensures RemoveFirst(s, x) == s[..IndexOf(s, x)] + s[IndexOf(s, x) + 1..]
  {
    if s[0] != x {
      assert x in s[1..];
      RemoveFirstAt(s[1..], x);
      var j := IndexOf(s[1..], x);
      assert s[..j + 1] == [s[0]] + s[1..][..j];
      assert s[j + 2..] == s[1..][j + 1..];
    }
  }

  /** RemoveFirst takes away one copy of `x`, when there is one, and nothing else. */
  lemma {:induction false} RemoveFirstMultiset<T>(s: seq<T>, x: T)
    ensures multiset(RemoveFirst(s, x)) == if x in s then multiset(s) - multiset{x} else multiset(s)
  {
    if s != [] {
      assert s == [s[0]] + s[1..];
      if s[0] != x {
        RemoveFirstMultiset(s[1..], x);
        assert x in s <==> x in s[1..];
      }
    }
  }

  /** RemoveFirst takes away one copy of `x`; multiset difference already leaves a missing `x` alone. */
  lemma RemoveFirstDifference<T>(s: seq<T>, x: T)
    ensures multiset(RemoveFirst(s, x)) == multiset(s) - multiset{x}
  {
    RemoveFirstMultiset(s, x);
    if x !in s {
      assert multiset(s) - multiset{x} == multiset(s);
    }
  }

  /** Removing the first `a` and then the first `b` takes one copy of each, when present, and nothing else. */
  lemma RemoveTwoMultiset<T>(t: seq<T>, a: T, b: T)
    ensures multiset(RemoveFirst(RemoveFirst(t, a), b)) == multiset(t) - multiset{a} - multiset{b}
  {
    RemoveFirstDifference(t, a);
    RemoveFirstDifference(RemoveFirst(t, a), b);
  }

  /** Removing the first `x` only touches the part of the sequence where it first occurs. */
  lemma {:induction false} RemoveFirstAppend<T>(s: seq<T>, t: seq<T>, x: T)
    requires x in s
    ensures RemoveFirst(s + t, x) == RemoveFirst(s, x) + t
  {
    if s[0] != x {
      assert (s + t)[1..] == s[1..] + t;
      RemoveFirstAppend(s[1..], t, x);
    } else {
      assert (s + t)[1..] == s[1..] + t;
    }
  }

  /** `a` is `b` with some elements left out, the rest kept in their order. */
  predicate IsSubsequence<T(==)>(a: seq<T>, b: seq<T>)
    decreases |b|
  {
    if a == [] then true
    else if b == [] then false
    else if a[0] == b[0] then IsSubsequence(a[1..], b[1..])
    else IsSubsequence(a, b[1..])
  }
}
