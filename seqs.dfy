/**
 * The array combinators the source builds every update from:
 * `Array.prototype.filter`, `Array.prototype.map` and a summing
 * `Array.prototype.reduce`, each defined once over sequences.
 */
module Seqs {

  /** `s.filter(p)`: the elements of `s` that satisfy `p`, in their order. */
  function Filter<T(==)>(s: seq<T>, p: T -> bool): (r: seq<T>)
    ensures |r| <= |s|
  {
    if s == [] then [] else (if p(s[0]) then [s[0]] else []) + Filter(s[1..], p)
  }

  /** What the filter keeps: elements of `s` that pass, and every element of `s` that passes. */
  lemma {:induction false} FilterMembers<T>(s: seq<T>, p: T -> bool)
    ensures forall i :: 0 <= i < |Filter(s, p)| ==> Filter(s, p)[i] in s && p(Filter(s, p)[i])
    ensures forall i :: 0 <= i < |s| && p(s[i]) ==> s[i] in Filter(s, p)
  {
    if s != [] {
      FilterMembers(s[1..], p);
      var head := if p(s[0]) then [s[0]] else [];
      var rest := Filter(s[1..], p);
      assert Filter(s, p) == head + rest;
      forall i | 0 <= i < |s| && p(s[i]) ensures s[i] in Filter(s, p) {
        if i > 0 {
          assert s[i] == s[1..][i - 1];
        }
      }
    }
  }

  /** Filtering distributes over concatenation, so the kept elements keep their order. */
  lemma {:induction false} FilterConcat<T>(a: seq<T>, b: seq<T>, p: T -> bool)
    ensures Filter(a + b, p) == Filter(a, p) + Filter(b, p)
  {
    if a == [] {
      assert a + b == b;
    } else {
      var head := if p(a[0]) then [a[0]] else [];
      var ab := a + b;
      assert ab[0] == a[0] && ab[1..] == a[1..] + b;
      calc {
        Filter(ab, p);
        head + Filter(a[1..] + b, p);
        { FilterConcat(a[1..], b, p); }
        head + (Filter(a[1..], p) + Filter(b, p));
        (head + Filter(a[1..], p)) + Filter(b, p);
      }
    }
  }

  /** A filter that every element passes changes nothing. */
  lemma {:induction false} FilterKeepsAll<T>(s: seq<T>, p: T -> bool)
    requires forall i :: 0 <= i < |s| ==> p(s[i])
    ensures Filter(s, p) == s
  {
    if s != [] {
      FilterKeepsAll(s[1..], p);
    }
  }

  /** A filter that every element fails yields the empty sequence. */
  lemma {:induction false} FilterDropsAll<T>(s: seq<T>, p: T -> bool)
    requires forall i :: 0 <= i < |s| ==> !p(s[i])
    ensures Filter(s, p) == []
  {
    if s != [] {
      FilterDropsAll(s[1..], p);
    }
  }

  /** A filter that only the element at `i` fails removes exactly position `i`. */
  lemma {:induction false} FilterDropsOne<T>(s: seq<T>, p: T -> bool, i: nat)
    requires i < |s| && !p(s[i])
    requires forall j :: 0 <= j < |s| && j != i ==> p(s[j])
    ensures Filter(s, p) == s[..i] + s[i + 1..]
  {
    var tail := s[1..];
    if i == 0 {
      assert forall j :: 0 <= j < |tail| ==> p(tail[j]) by {
        forall j | 0 <= j < |tail| ensures p(tail[j]) { assert tail[j] == s[j + 1]; }
      }
      FilterKeepsAll(tail, p);
      assert s[..0] + s[1..] == tail;
    } else {
      assert forall j :: 0 <= j < |tail| && j != i - 1 ==> p(tail[j]) by {
        forall j | 0 <= j < |tail| && j != i - 1 ensures p(tail[j]) { assert tail[j] == s[j + 1]; }
      }
      assert tail[i - 1] == s[i];
      FilterDropsOne(tail, p, i - 1);
      assert p(s[0]);
      assert s[..i] == [s[0]] + tail[..i - 1];
      assert s[i + 1..] == tail[i..];
      calc {
        Filter(s, p);
        [s[0]] + Filter(tail, p);
        [s[0]] + (tail[..i - 1] + tail[i..]);
        ([s[0]] + tail[..i - 1]) + tail[i..];
        s[..i] + s[i + 1..];
      }
    }
  }

  /** `s.map(f)`: `f` applied to every element, length and positions kept. */
  function Map<T>(s: seq<T>, f: T -> T): (r: seq<T>)
    ensures |r| == |s|
    ensures forall i :: 0 <= i < |s| ==> r[i] == f(s[i])
  {
    if s == [] then [] else [f(s[0])] + Map(s[1..], f)
  }

  /** A map that fixes every element except position `i` is an update of that one position. */
  lemma MapTouchesOne<T>(s: seq<T>, f: T -> T, i: nat)
    requires i < |s|
    requires forall j :: 0 <= j < |s| && j != i ==> f(s[j]) == s[j]
    ensures Map(s, f) == s[i := f(s[i])]
  {
    var r := Map(s, f);
    forall j | 0 <= j < |s| ensures r[j] == s[i := f(s[i])][j] {
      if j != i {
        assert f(s[j]) == s[j];
      }
    }
  }

  /** `s.reduce((sum, x) => sum + f(x), 0)`: a left fold from 0. */
  function Sum<T>(s: seq<T>, f: T -> int): int
  {
    if s == [] then 0 else Sum(s[..|s| - 1], f) + f(s[|s| - 1])
  }

  lemma SumSingleton<T>(x: T, f: T -> int)
    ensures Sum([x], f) == f(x)
  {
    assert [x][..0] == [];
    assert Sum([], f) == 0;
  }

  lemma {:induction false} SumConcat<T>(a: seq<T>, b: seq<T>, f: T -> int)
    ensures Sum(a + b, f) == Sum(a, f) + Sum(b, f)
    decreases |b|
  {
    if b == [] {
      assert a + b == a;
    } else {
      var b' := b[..|b| - 1];
      assert (a + b)[..|a + b| - 1] == a + b';
      assert (a + b)[|a + b| - 1] == b[|b| - 1];
      SumConcat(a, b', f);
    }
  }

  /** The sum does not depend on the order of the elements. */
  lemma {:induction false} SumPermutation<T>(a: seq<T>, b: seq<T>, f: T -> int)
    requires multiset(a) == multiset(b)
    ensures Sum(a, f) == Sum(b, f)
    decreases |a|
  {
    if a == [] {
      assert |multiset(b)| == 0;
      assert b == [];
    } else {
      var x := a[|a| - 1];
      var a' := a[..|a| - 1];
      assert a == a' + [x];
      assert x in multiset(b);
      var j :| 0 <= j < |b| && b[j] == x;
      var b' := b[..j] + b[j + 1..];
      assert b == b[..j] + [x] + b[j + 1..];
      assert multiset(a') == multiset(a) - multiset{x};
      assert multiset(b') == multiset(b) - multiset{x};
      SumPermutation(a', b', f);
      SumRemove(b, j, f);
    }
  }

  /** Replacing the element at `i` changes the sum by the difference of the two terms. */
  lemma SumUpdate<T>(s: seq<T>, i: nat, x: T, f: T -> int)
    requires i < |s|
    ensures Sum(s[i := x], f) == Sum(s, f) - f(s[i]) + f(x)
  {
    var before, y, after := s[..i], s[i], s[i + 1..];
    assert s == (before + [y]) + after;
    assert s[i := x] == (before + [x]) + after;
    SumConcat(before + [y], after, f);
    SumConcat(before, [y], f);
    SumConcat(before + [x], after, f);
    SumConcat(before, [x], f);
    SumSingleton(y, f);
    SumSingleton(x, f);
  }

  /** Removing the element at `i` takes its term out of the sum. */
  lemma SumRemove<T>(s: seq<T>, i: nat, f: T -> int)
    requires i < |s|
    ensures Sum(s[..i] + s[i + 1..], f) == Sum(s, f) - f(s[i])
  {
    var before, y, after := s[..i], s[i], s[i + 1..];
    assert s == (before + [y]) + after;
    SumConcat(before + [y], after, f);
    SumConcat(before, [y], f);
    SumConcat(before, after, f);
    SumSingleton(y, f);
  }

  /** When every term is at least 1 the sum is at least the number of terms. */
  lemma {:induction false} SumAtLeastLength<T>(s: seq<T>, f: T -> int)
    requires forall i :: 0 <= i < |s| ==> f(s[i]) >= 1
    ensures Sum(s, f) >= |s|
  {
    if s != [] {
      SumAtLeastLength(s[..|s| - 1], f);
    }
  }
}
