/** Array and Set helpers: `filter`, `map`, and the insertion order of a JavaScript `Set`. */
module Seqs {

  /** `a` is `b` with some elements left out, the rest kept in order. */
  predicate IsSubsequence<T(==)>(a: seq<T>, b: seq<T>)
    decreases |a| + |b|
  {
    a == [] || (b != [] && ((a[0] == b[0] && IsSubsequence(a[1..], b[1..])) || IsSubsequence(a, b[1..])))
  }

  /** No element occurs twice. */
  predicate NoDup<T(==)>(s: seq<T>) {
    forall i, j :: 0 <= i < j < |s| ==> s[i] != s[j]
  }

  /** `Array.prototype.filter`. */
  function Filter<T>(p: T -> bool, s: seq<T>): (r: seq<T>)
    ensures |r| <= |s|
  {
    if s == [] then [] else (if p(s[0]) then [s[0]] else []) + Filter(p, s[1..])
  }

  /** `r` holds every copy in `s` of each element that passes `p`, and no copy of the others. */
  ghost predicate KeepsCopies<T(!new)>(r: seq<T>, s: seq<T>, p: T -> bool) {
    forall x :: multiset(r)[x] == if p(x) then multiset(s)[x] else 0
  }

  /** The filter keeps every copy of an element that passes, and no copy of the others. */
  lemma {:induction false} FilterCopies<T(!new)>(p: T -> bool, s: seq<T>)
    ensures KeepsCopies(Filter(p, s), s, p)
  {
    if s != [] {
      FilterCopies(p, s[1..]);
      assert s == [s[0]] + s[1..];
      assert multiset(s) == multiset([s[0]]) + multiset(s[1..]);
    }
  }

  /** The filter keeps exactly the elements that pass, in their original order. */
  lemma {:induction false} FilterKeeps<T(!new)>(p: T -> bool, s: seq<T>)
    ensures forall x :: x in Filter(p, s) <==> x in s && p(x)
    ensures IsSubsequence(Filter(p, s), s)
  {
    if s != [] {
      FilterKeeps(p, s[1..]);
      var rest := Filter(p, s[1..]);
      assert forall x :: x in s <==> x == s[0] || x in s[1..];
      if p(s[0]) {
        assert Filter(p, s) == [s[0]] + rest;
        assert ([s[0]] + rest)[1..] == rest;
      } else {
        assert Filter(p, s) == rest;
      }
    }
  }

  /** A filter yields nothing exactly when no element passes. */
  lemma {:induction false} FilterEmpty<T>(p: T -> bool, s: seq<T>)
    ensures Filter(p, s) == [] <==> forall i :: 0 <= i < |s| ==> !p(s[i])
  {
    if s != [] {
      FilterEmpty(p, s[1..]);
      assert forall i :: 1 <= i < |s| ==> s[i] == s[1..][i - 1];
    }
  }

  lemma FilterCons<T>(p: T -> bool, x: T, s: seq<T>)
    ensures Filter(p, [x] + s) == (if p(x) then [x] else []) + Filter(p, s)
  {
    assert ([x] + s)[1..] == s;
  }

  /** `Array.prototype.map`. */
  function Map<T, U>(f: T -> U, s: seq<T>): (r: seq<U>)
    ensures |r| == |s|
    ensures forall i :: 0 <= i < |s| ==> r[i] == f(s[i])
  {
    if s == [] then [] else [f(s[0])] + Map(f, s[1..])
  }

  lemma MapCons<T, U>(f: T -> U, x: T, s: seq<T>)
    ensures Map(f, [x] + s) == [f(x)] + Map(f, s)
  {
    assert ([x] + s)[1..] == s;
  }

  /** Adds the elements of `xs` that are not yet present, in order:
      the insertion-ordered contents of a `Set` built from `a` followed by `xs`. */
  function InsertAll<T(==,!new)>(a: seq<T>, xs: seq<T>): (r: seq<T>)
    ensures NoDup(a) ==> NoDup(r)
    ensures forall x :: x in r <==> x in a || x in xs
    ensures |a| <= |r| && r[..|a|] == a
    decreases |xs|
  {
    if xs == [] then a else InsertAll(if xs[0] in a then a else a + [xs[0]], xs[1..])
  }

  /** `new Set(xs)`, listed in iteration (first-insertion) order. */
  function Dedup<T(==,!new)>(xs: seq<T>): (r: seq<T>)
    ensures NoDup(r)
    ensures forall x :: x in r <==> x in xs
  {
    InsertAll([], xs)
  }

  /** A sequence without repetitions has as many elements as the set of its elements. */
  lemma {:induction false} NoDupCardinality<T>(s: seq<T>)
    requires NoDup(s)
    ensures |(set x | x in s)| == |s|
  {
    if s != [] {
      var rest := s[1..];
      assert NoDup(rest) by {
        forall i, j | 0 <= i < j < |rest| ensures rest[i] != rest[j] {
          assert rest[i] == s[i + 1] && rest[j] == s[j + 1];
        }
      }
      NoDupCardinality(rest);
      assert s[0] !in rest by {
        forall k | 0 <= k < |rest| ensures rest[k] != s[0] {
          assert rest[k] == s[k + 1];
        }
      }
      assert (set x | x in s) == (set x | x in rest) + {s[0]} by {
        forall x ensures x in s <==> x in rest || x == s[0] {
          if x in s {
            var k :| 0 <= k < |s| && s[k] == x;
            if k > 0 { assert rest[k - 1] == x; }
          }
        }
      }
    }
  }

  /** A `Set` built from `xs` has one entry per distinct value of `xs`. */
  lemma DedupSize<T(!new)>(xs: seq<T>)
    ensures |Dedup(xs)| == |(set x | x in xs)|
  {
    var r := Dedup(xs);
    NoDupCardinality(r);
    assert (set x | x in r) == (set x | x in xs);
  }

  lemma {:induction false} InsertAllAppend<T(!new)>(x: seq<T>, a: seq<T>, b: seq<T>)
    ensures InsertAll(x, a + b) == InsertAll(InsertAll(x, a), b)
    decreases |a|
  {
    if a != [] {
      assert (a + b)[0] == a[0] && (a + b)[1..] == a[1..] + b;
      InsertAllAppend(if a[0] in x then x else x + [a[0]], a[1..], b);
    } else {
      assert a + b == b;
    }
  }

  lemma {:induction false} InsertAllFresh<T(!new)>(x: seq<T>, a: seq<T>)
    requires NoDup(x + a)
    ensures InsertAll(x, a) == x + a
    decreases |a|
  {
    if a != [] {
      assert (x + a)[|x|] == a[0];
      assert a[0] !in x by {
        forall k | 0 <= k < |x| ensures x[k] != a[0] {
          assert (x + a)[k] == x[k];
        }
      }
      assert x + [a[0]] + a[1..] == x + a;
      InsertAllFresh(x + [a[0]], a[1..]);
    }
  }

  /** `new Set([...s, ...xs])` for a set `s` without repetitions: the elements of `s` keep their
      places, the new elements of `xs` follow in order. */
  lemma DedupAppend<T(!new)>(s: seq<T>, xs: seq<T>)
    requires NoDup(s)
    ensures Dedup(s + xs) == InsertAll(s, xs)
    ensures s <= Dedup(s + xs)
  {
    InsertAllAppend([], s, xs);
    assert [] + s == s;
    InsertAllFresh([], s);
  }

  lemma {:induction false} SubsequenceTrans<T(!new)>(a: seq<T>, b: seq<T>, c: seq<T>)
    requires IsSubsequence(a, b) && IsSubsequence(b, c)
    ensures IsSubsequence(a, c)
    decreases |a| + |b| + |c|
  {
    if a != [] {
      assert b != [] && c != [];
      if a[0] == b[0] && IsSubsequence(a[1..], b[1..]) {
        if b[0] == c[0] && IsSubsequence(b[1..], c[1..]) {
          SubsequenceTrans(a[1..], b[1..], c[1..]);
        } else {
          SubsequenceTrans(a, b, c[1..]);
        }
      } else {
        if b[0] == c[0] && IsSubsequence(b[1..], c[1..]) {
          SubsequenceTrans(a, b[1..], c[1..]);
        } else {
          SubsequenceTrans(a, b, c[1..]);
        }
      }
    }
  }

  /** A subsequence of the tail is a subsequence of the whole. */
  lemma SubsequenceDropHead<T>(a: seq<T>, b: seq<T>)
    requires b != [] && IsSubsequence(a, b[1..])
    ensures IsSubsequence(a, b)
  {
  }
}
