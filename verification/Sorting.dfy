/** What sort.SliceStable promises, as a function, and the byte order of strings. */
module Sorting {

  /** x goes behind everything it is not less than. */
  function Insert<T(!new)>(s: seq<T>, x: T, less: (T, T) -> bool): (r: seq<T>)
    ensures |r| == |s| + 1
    ensures forall y :: y in r <==> y == x || y in s
  {
    if s == [] || less(x, s[0]) then [x] + s
    else
      assert forall y :: y in s <==> y == s[0] || y in s[1..];
      [s[0]] + Insert(s[1..], x, less)
  }

  function StableSort<T(!new)>(s: seq<T>, less: (T, T) -> bool): (r: seq<T>)
    ensures |r| == |s|
    ensures forall y :: y in r <==> y in s
  {
    if s == [] then []
    else
      assert forall y :: y in s <==> y == s[|s| - 1] || y in s[..|s| - 1];
      Insert(StableSort(s[..|s| - 1], less), s[|s| - 1], less)
  }

  /** A strict weak order on the elements at hand: what a comparison function has to be. */
  ghost predicate WeakOrder<T(!new)>(less: (T, T) -> bool) {
    && (forall x, y :: less(x, y) ==> !less(y, x))
    && (forall x, y, z :: less(x, z) ==> less(x, y) || less(y, z))
  }

  ghost predicate Sorted<T>(s: seq<T>, less: (T, T) -> bool) {
    forall i, j :: 0 <= i < j < |s| ==> !less(s[j], s[i])
  }

  /** The elements that compare equal to k, in order. */
  ghost function Alike<T>(s: seq<T>, k: T, less: (T, T) -> bool): seq<T> {
    if s == [] then []
    else Alike(s[..|s| - 1], k, less) + if !less(s[|s| - 1], k) && !less(k, s[|s| - 1]) then [s[|s| - 1]] else []
  }

  lemma {:induction false} AlikeConcat<T>(a: seq<T>, b: seq<T>, k: T, less: (T, T) -> bool)
    ensures Alike(a + b, k, less) == Alike(a, k, less) + Alike(b, k, less)
  {
    if b == [] {
      assert a + b == a;
    } else {
      assert (a + b)[..|a + b| - 1] == a + b[..|b| - 1];
      AlikeConcat(a, b[..|b| - 1], k, less);
    }
  }

  lemma {:induction false} NoneAlike<T>(s: seq<T>, k: T, less: (T, T) -> bool)
    requires forall i :: 0 <= i < |s| ==> less(k, s[i])
    ensures Alike(s, k, less) == []
  {
    if s != [] { NoneAlike(s[..|s| - 1], k, less); }
  }

  lemma {:induction false} InsertSorts<T(!new)>(s: seq<T>, x: T, less: (T, T) -> bool)
    requires WeakOrder(less) && Sorted(s, less)
    ensures Sorted(Insert(s, x, less), less)
    ensures multiset(Insert(s, x, less)) == multiset(s) + multiset{x}
  {
    if s == [] || less(x, s[0]) {
      assert Insert(s, x, less) == [x] + s;
    } else {
      var rest := Insert(s[1..], x, less);
      InsertSorts(s[1..], x, less);
      assert s == [s[0]] + s[1..] && Insert(s, x, less) == [s[0]] + rest;
      forall j | 0 <= j < |rest| ensures !less(rest[j], s[0]) {
        assert rest[j] in rest;
        if rest[j] != x {
          var i :| 0 <= i < |s[1..]| && s[1..][i] == rest[j];
          assert rest[j] == s[i + 1];
        }
      }
    }
  }

  lemma {:induction false} InsertIsStable<T(!new)>(s: seq<T>, x: T, k: T, less: (T, T) -> bool)
    requires WeakOrder(less) && Sorted(s, less)
    ensures Alike(Insert(s, x, less), k, less) == Alike(s + [x], k, less)
  {
    if s == [] {
    } else if less(x, s[0]) {
      AlikeConcat([x], s, k, less);
      AlikeConcat(s, [x], k, less);
      if !less(x, k) && !less(k, x) {
        assert forall i :: 0 <= i < |s| ==> less(k, s[i]);
        NoneAlike(s, k, less);
      }
      assert Alike([x], k, less) == [x] || Alike([x], k, less) == [];
    } else {
      InsertIsStable(s[1..], x, k, less);
      AlikeConcat([s[0]], Insert(s[1..], x, less), k, less);
      AlikeConcat([s[0]], s[1..] + [x], k, less);
      assert [s[0]] + (s[1..] + [x]) == s + [x];
    }
  }

  /** The result is sorted, has the same elements, and keeps equal ones in their order. */
  lemma {:induction false} StableSortSorts<T(!new)>(s: seq<T>, less: (T, T) -> bool)
    requires WeakOrder(less)
    ensures Sorted(StableSort(s, less), less)
    ensures multiset(StableSort(s, less)) == multiset(s)
    ensures forall k :: Alike(StableSort(s, less), k, less) == Alike(s, k, less)
  {
    if s != [] {
      var front, x := s[..|s| - 1], s[|s| - 1];
      StableSortSorts(front, less);
      InsertSorts(StableSort(front, less), x, less);
      assert s == front + [x];
      forall k ensures Alike(StableSort(s, less), k, less) == Alike(s, k, less) {
        InsertIsStable(StableSort(front, less), x, k, less);
        AlikeConcat(StableSort(front, less), [x], k, less);
        AlikeConcat(front, [x], k, less);
      }
    }
  }

  /** The order of Go strings, on the code points. */
  predicate LexLess(a: string, b: string) {
    b != [] && (a == [] || a[0] < b[0] || (a[0] == b[0] && LexLess(a[1..], b[1..])))
  }

  lemma {:induction false} LexLessIsStrict(a: string, b: string)
    ensures LexLess(a, b) ==> !LexLess(b, a)
    ensures !LexLess(a, b) && !LexLess(b, a) ==> a == b
  {
    if a != [] && b != [] && a[0] == b[0] {
      LexLessIsStrict(a[1..], b[1..]);
      assert a == [a[0]] + a[1..] && b == [b[0]] + b[1..];
    }
  }

  lemma {:induction false} LexLessCompares(a: string, b: string, c: string)
    requires LexLess(a, c)
    ensures LexLess(a, b) || LexLess(b, c)
  {
    if a != [] && b != [] && a[0] == b[0] == c[0] {
      LexLessCompares(a[1..], b[1..], c[1..]);
    }
  }
}
