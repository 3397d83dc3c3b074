/** The array primitives the storage layer uses: `findIndex`, `filter` and a conditional `map`. */
module Lists {
  import opened Wrappers

  /** `s.findIndex(p)`, with `None` for -1. */
  function FindFirst<T>(s: seq<T>, p: T -> bool): (r: Option<nat>)
    ensures r.None? <==> forall i :: 0 <= i < |s| ==> !p(s[i])
    ensures r.Some? ==> r.value < |s| && p(s[r.value]) && forall i :: 0 <= i < r.value ==> !p(s[i])
  {
    if s == [] then None
    else if p(s[0]) then Some(0)
    else match FindFirst(s[1..], p)
      case None => None
      case Some(k) => Some(k + 1)
  }

  /** `s.filter(keep)`. */
  function Filter<T>(s: seq<T>, keep: T -> bool): (r: seq<T>)
    ensures |r| <= |s|
    ensures forall x :: x in r ==> x in s && keep(x)
    ensures forall i :: 0 <= i < |s| && keep(s[i]) ==> s[i] in r
  {
    if s == [] then [] else (if keep(s[0]) then [s[0]] else []) + Filter(s[1..], keep)
  }

  /** Filtering a concatenation filters each part. */
  lemma {:induction false} FilterAppend<T>(a: seq<T>, b: seq<T>, keep: T -> bool)
    ensures Filter(a + b, keep) == Filter(a, keep) + Filter(b, keep)
  {
    if a == [] {
      assert a + b == b;
    } else {
      assert (a + b)[1..] == a[1..] + b;
      FilterAppend(a[1..], b, keep);
    }
  }

  /** Filtering keeps the length exactly when every element is kept. */
  lemma {:induction false} FilterLength<T>(s: seq<T>, keep: T -> bool)
    ensures |Filter(s, keep)| == |s| <==> forall i :: 0 <= i < |s| ==> keep(s[i])
  {
    if s != [] {
      FilterLength(s[1..], keep);
      if !keep(s[0]) {
        assert |Filter(s, keep)| == |Filter(s[1..], keep)| <= |s| - 1;
      } else {
        forall i | 0 <= i < |s| - 1 ensures s[1..][i] == s[i + 1] { }
      }
    }
  }

  /** Filtering with a predicate every element satisfies changes nothing. */
  lemma {:induction false} FilterAll<T>(s: seq<T>, keep: T -> bool)
    requires forall i :: 0 <= i < |s| ==> keep(s[i])
    ensures Filter(s, keep) == s
  {
    if s != [] {
      FilterAll(s[1..], keep);
    }
  }

  /** `s.map(x => p(x) ? y : x)`: every element satisfying `p` becomes `y`. */
  function ReplaceWhere<T>(s: seq<T>, p: T -> bool, y: T): (r: seq<T>)
    ensures |r| == |s|
    ensures forall i :: 0 <= i < |s| ==> r[i] == if p(s[i]) then y else s[i]
  {
    seq(|s|, i requires 0 <= i < |s| => if p(s[i]) then y else s[i])
  }

  /** `s.reduce((total, x) => total + f(x), 0)`: a left fold of `f` over the list. */
  function SumOf<T>(s: seq<T>, f: T -> real): real {
    if s == [] then 0.0 else SumOf(s[..|s| - 1], f) + f(s[|s| - 1])
  }

  /** Summing distributes over concatenation. */
  lemma {:induction false} SumOfAppend<T>(a: seq<T>, b: seq<T>, f: T -> real)
    ensures SumOf(a + b, f) == SumOf(a, f) + SumOf(b, f)
  {
    if b != [] {
      assert (a + b)[..|a + b| - 1] == a + b[..|b| - 1];
      SumOfAppend(a, b[..|b| - 1], f);
    } else {
      assert a + b == a;
    }
  }

  /** A sum does not depend on the order of the summands. */
  lemma {:induction false} SumOfPermutation<T>(a: seq<T>, b: seq<T>, f: T -> real)
    requires multiset(a) == multiset(b)
    ensures SumOf(a, f) == SumOf(b, f)
  {
    if a != [] {
      var x := a[|a| - 1];
      assert x in multiset(b);
      var k :| 0 <= k < |b| && b[k] == x;
      var a' := a[..|a| - 1];
      var b' := b[..k] + b[k + 1..];
      assert a == a' + [x];
      assert b == b[..k] + [x] + b[k + 1..];
      assert multiset(a') == multiset(a) - multiset{x};
      assert multiset(b') == multiset(b) - multiset{x};
      SumOfPermutation(a', b', f);
      SumOfAppend(b[..k], [x], f);
      SumOfAppend(b[..k] + [x], b[k + 1..], f);
      SumOfAppend(b[..k], b[k + 1..], f);
      assert SumOf([x], f) == f(x) by { assert [x][..0] == []; }
    } else {
      assert |b| == |multiset(b)| == 0;
    }
  }

  /** The length of `s.slice(0, limit)` for a list of length `n`: a negative limit counts from the end. */
  function SliceEnd(n: nat, limit: int): (e: nat)
    ensures e <= n
    ensures limit >= 0 ==> e == if limit <= n then limit else n
    ensures limit < 0 ==> e == if n + limit >= 0 then n + limit else 0
  {
    if limit >= 0 then (if limit <= n then limit else n)
    else if n + limit >= 0 then n + limit else 0
  }

  /** `s.slice(0, limit)`. */
  function Slice<T>(s: seq<T>, limit: int): seq<T> {
    s[..SliceEnd(|s|, limit)]
  }

  predicate SortedDesc<T>(s: seq<T>, key: T -> real) {
    forall i, j :: 0 <= i < j < |s| ==> key(s[i]) >= key(s[j])
  }

  /** Places `x` after every element whose key is at least its own. */
  function InsertDesc<T>(x: T, s: seq<T>, key: T -> real): seq<T> {
    if s == [] then [x]
    else if key(x) > key(s[0]) then [x] + s
    else [s[0]] + InsertDesc(x, s[1..], key)
  }

  /**
   * `s.sort((a, b) => key(b) - key(a))`: a stable sort into non-increasing
   * key order, by insertion of the elements in their input order.
   */
  function SortDesc<T>(s: seq<T>, key: T -> real): seq<T> {
    if s == [] then [] else InsertDesc(s[|s| - 1], SortDesc(s[..|s| - 1], key), key)
  }

  /** Inserting keeps the elements and puts `x` or the old first element in front. */
  lemma {:induction false} InsertDescElements<T>(x: T, s: seq<T>, key: T -> real)
    ensures multiset(InsertDesc(x, s, key)) == multiset(s) + multiset{x}
    ensures |InsertDesc(x, s, key)| == |s| + 1
    ensures InsertDesc(x, s, key)[0] == x || (s != [] && InsertDesc(x, s, key)[0] == s[0])
  {
    if s != [] && key(x) <= key(s[0]) {
      InsertDescElements(x, s[1..], key);
      assert s == [s[0]] + s[1..];
    }
  }

  lemma {:induction false} InsertDescSorted<T>(x: T, s: seq<T>, key: T -> real)
    requires SortedDesc(s, key)
    ensures SortedDesc(InsertDesc(x, s, key), key)
  {
    if s != [] && key(x) <= key(s[0]) {
      InsertDescSorted(x, s[1..], key);
      InsertDescElements(x, s[1..], key);
      var r := InsertDesc(x, s, key);
      var r' := InsertDesc(x, s[1..], key);
      assert r == [s[0]] + r';
      assert forall j :: 0 <= j < |r'| ==> key(s[0]) >= key(r'[j]) by {
        forall j | 0 <= j < |r'| ensures key(s[0]) >= key(r'[j]) {
          assert r'[j] in multiset(s[1..]) + multiset{x};
          if r'[j] != x {
            assert r'[j] in s[1..];
          }
        }
      }
    }
  }

  /**
   * In a sorted list, an element whose `f`-value appears nowhere in the prefix
   * `s.slice(0, limit)` has a key no greater than any key in that prefix.
   */
  lemma SliceDominates<T, K>(s: seq<T>, key: T -> real, f: T -> K, limit: int, b: nat)
    requires SortedDesc(s, key) && b < |s|
    requires forall i :: 0 <= i < |Slice(s, limit)| ==> f(Slice(s, limit)[i]) != f(s[b])
    ensures forall i :: 0 <= i < |Slice(s, limit)| ==> key(Slice(s, limit)[i]) >= key(s[b])
  {
    var r := Slice(s, limit);
    forall i | 0 <= i < |r| ensures key(r[i]) >= key(s[b]) {
      assert r[i] == s[i];
    }
  }

  /** The sort yields the same elements, in non-increasing key order. */
  lemma {:induction false} SortDescCorrect<T>(s: seq<T>, key: T -> real)
    ensures SortedDesc(SortDesc(s, key), key)
    ensures multiset(SortDesc(s, key)) == multiset(s)
    ensures |SortDesc(s, key)| == |s|
  {
    if s != [] {
      SortDescCorrect(s[..|s| - 1], key);
      InsertDescSorted(s[|s| - 1], SortDesc(s[..|s| - 1], key), key);
      InsertDescElements(s[|s| - 1], SortDesc(s[..|s| - 1], key), key);
      assert s == s[..|s| - 1] + [s[|s| - 1]];
    }
  }

  /** A list whose elements have pairwise different keys holds each element at most once. */
  lemma {:induction false} DistinctKeysMultiplicity<T, K>(a: seq<T>, f: T -> K, x: T)
    requires forall i, j :: 0 <= i < j < |a| ==> f(a[i]) != f(a[j])
    ensures multiset(a)[x] <= 1
  {
    if a != [] {
      var a' := a[..|a| - 1];
      assert a == a' + [a[|a| - 1]];
      DistinctKeysMultiplicity(a', f, x);
    }
  }

  /** Reordering a list keeps its keys pairwise different. */
  lemma PermutationKeepsKeysDistinct<T, K>(a: seq<T>, b: seq<T>, f: T -> K)
    requires multiset(a) == multiset(b)
    requires forall i, j :: 0 <= i < j < |a| ==> f(a[i]) != f(a[j])
    ensures forall i, j :: 0 <= i < j < |b| ==> f(b[i]) != f(b[j])
  {
    forall i, j | 0 <= i < j < |b| ensures f(b[i]) != f(b[j]) {
      if b[i] == b[j] {
        assert b == b[..j] + [b[j]] + b[j + 1..];
        assert b[i] in b[..j];
        assert multiset(b)[b[i]] >= 2;
        DistinctKeysMultiplicity(a, f, b[i]);
      } else {
        assert b[i] in multiset(a) && b[j] in multiset(a);
        var k :| 0 <= k < |a| && a[k] == b[i];
        var l :| 0 <= l < |a| && a[l] == b[j];
        assert k != l;
        if k < l { assert f(a[k]) != f(a[l]); } else { assert f(a[l]) != f(a[k]); }
      }
    }
  }
}
