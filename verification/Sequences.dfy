/** What several of the models need about sequences of anything. */
module Sequences {

  ghost predicate Distinct<T>(s: seq<T>) {
    forall i, j :: 0 <= i < j < |s| ==> s[i] != s[j]
  }

  lemma ConcatDistinct<T>(a: seq<T>, b: seq<T>)
    requires Distinct(a) && Distinct(b)
    requires forall i, j :: 0 <= i < |a| && 0 <= j < |b| ==> a[i] != b[j]
    ensures Distinct(a + b)
  {
  }

  lemma DistinctParts<T>(a: seq<T>, b: seq<T>)
    requires Distinct(a + b)
    ensures Distinct(a) && Distinct(b) && forall x :: x in a ==> x !in b
  {
    var s := a + b;
    forall i, j | 0 <= i < |a| && 0 <= j < |b| ensures a[i] != b[j] {
      assert s[i] == a[i] && s[|a| + j] == b[j];
    }
    forall i, j | 0 <= i < j < |a| ensures a[i] != a[j] {
      assert s[i] == a[i] && s[j] == a[j];
    }
    forall i, j | 0 <= i < j < |b| ensures b[i] != b[j] {
      assert s[|a| + i] == b[i] && s[|a| + j] == b[j];
    }
  }

  /** Positions into a list of some length, in order. */
  ghost predicate Ascending(picks: seq<int>, length: nat) {
    && (forall i, j :: 0 <= i < j < |picks| ==> picks[i] < picks[j])
    && (forall i :: 0 <= i < |picks| ==> 0 <= picks[i] < length)
  }

  /** The second list is what the elements of the first that give anything give, in order. */
  ghost predicate GivenBy<A(!new), B(!new)>(xs: seq<A>, ys: seq<B>, gives: (A, B) -> bool) {
    exists picks :: GivenAt(xs, ys, gives, picks)
  }

  ghost predicate GivenAt<A(!new), B(!new)>(xs: seq<A>, ys: seq<B>, gives: (A, B) -> bool, picks: seq<int>) {
    && |picks| == |ys| && Ascending(picks, |xs|)
    && (forall i :: 0 <= i < |ys| ==> gives(xs[picks[i]], ys[i]))
    && (forall k :: 0 <= k < |xs| && k !in picks ==> forall y :: !gives(xs[k], y))
  }

  lemma AscendingGrows(picks: seq<int>, length: nat)
    requires Ascending(picks, length)
    ensures Ascending(picks + [length], length + 1)
  {
  }

  lemma OneMoreGiven<A(!new), B(!new)>(xs: seq<A>, ys: seq<B>, gives: (A, B) -> bool, x: A, y: B)
    requires GivenBy(xs, ys, gives) && gives(x, y)
    ensures GivenBy(xs + [x], ys + [y], gives)
  {
    var picks :| GivenAt(xs, ys, gives, picks);
    OneMoreAt(xs, ys, gives, picks, x, y);
  }

  lemma OneMoreAt<A(!new), B(!new)>(xs: seq<A>, ys: seq<B>, gives: (A, B) -> bool, picks: seq<int>, x: A, y: B)
    requires GivenAt(xs, ys, gives, picks) && gives(x, y)
    ensures GivenAt(xs + [x], ys + [y], gives, picks + [|xs|])
  {
    AscendingGrows(picks, |xs|);
    var more := picks + [|xs|];
    assert more[|picks|] == |xs|;
    assert forall k :: k in picks ==> k in more;
    forall i | 0 <= i < |more| ensures gives((xs + [x])[more[i]], (ys + [y])[i]) {
      if i < |picks| { assert more[i] == picks[i] < |xs|; }
    }
  }

  lemma NoneMoreGiven<A(!new), B(!new)>(xs: seq<A>, ys: seq<B>, gives: (A, B) -> bool, x: A)
    requires GivenBy(xs, ys, gives) && forall y :: !gives(x, y)
    ensures GivenBy(xs + [x], ys, gives)
  {
    var picks :| GivenAt(xs, ys, gives, picks);
    assert GivenAt(xs + [x], ys, gives, picks);
  }

  lemma NothingGiven<A(!new), B(!new)>(gives: (A, B) -> bool)
    ensures GivenBy([], [], gives)
  {
    assert GivenAt([], [], gives, []);
  }
}
