/** The recursive JSON transforms of the workflow runtime. */
module Transforms {
  import opened JsonValues
  import opened Sequences
  import opened Text

  // ---------- locations and sizes ----------

  datatype Step = Key(k: string) | At(i: nat)

  /** The value at a location. */
  function Find(v: Value, p: seq<Step>): Option<Value>
    decreases |p|
  {
    if p == [] then Some(v)
    else match p[0]
      case Key(k) => if v.Obj? && k in v.fields then Find(v.fields[k], p[1..]) else None
      case At(i) => if v.Arr? && i < |v.items| then Find(v.items[i], p[1..]) else None
  }

  /**
   A sum over the entries of an object or array: perKey for each key, perItem for each item,
   and with deep the same for what they hold.
   */
  ghost function Total(v: Value, perKey: string -> nat, perItem: nat, deep: bool): nat
    decreases v, 1, 0
  {
    match v
    case Obj(fields) => TotalOfKeys(v, fields.Keys, perKey, perItem, deep)
    case Arr(items) => TotalOfItems(v, |items|, perKey, perItem, deep)
    case _ => 0
  }

  ghost function TotalOfKeys(v: Value, keys: set<string>, perKey: string -> nat, perItem: nat, deep: bool): nat
    requires v.Obj? && keys <= v.fields.Keys
    decreases v, 0, |keys|
  {
    if keys == {} then 0
    else
      var k :| k in keys;
      EntryTotal(v, k, perKey, perItem, deep) + TotalOfKeys(v, keys - {k}, perKey, perItem, deep)
  }

  ghost function EntryTotal(v: Value, k: string, perKey: string -> nat, perItem: nat, deep: bool): nat
    requires v.Obj? && k in v.fields
    decreases v, 0, 0
  {
    perKey(k) + if deep then Total(v.fields[k], perKey, perItem, deep) else 0
  }

  ghost function TotalOfItems(v: Value, n: nat, perKey: string -> nat, perItem: nat, deep: bool): nat
    requires v.Arr? && n <= |v.items|
    decreases v, 0, n
  {
    if n == 0 then 0
    else TotalOfItems(v, n - 1, perKey, perItem, deep) + perItem + if deep then Total(v.items[n - 1], perKey, perItem, deep) else 0
  }

  /** The sum may start with any key. */
  lemma {:induction false} TotalPicks(v: Value, keys: set<string>, k: string, perKey: string -> nat,
                                      perItem: nat, deep: bool)
    requires v.Obj? && keys <= v.fields.Keys && k in keys
    ensures TotalOfKeys(v, keys, perKey, perItem, deep)
         == EntryTotal(v, k, perKey, perItem, deep) + TotalOfKeys(v, keys - {k}, perKey, perItem, deep)
    decreases |keys|
  {
    hide EntryTotal;
    var first: string :| first in keys
      && TotalOfKeys(v, keys, perKey, perItem, deep)
         == EntryTotal(v, first, perKey, perItem, deep) + TotalOfKeys(v, keys - {first}, perKey, perItem, deep);
    if first != k {
      TotalPicks(v, keys - {first}, k, perKey, perItem, deep);
      TotalPicks(v, keys - {k}, first, perKey, perItem, deep);
      assert keys - {first} - {k} == keys - {k} - {first};
    }
  }

  /** The sum over some keys depends on those entries only. */
  lemma {:induction false} TotalAgrees(v: Value, w: Value, keys: set<string>, perKey: string -> nat,
                                       perItem: nat, deep: bool)
    requires v.Obj? && w.Obj? && keys <= v.fields.Keys && keys <= w.fields.Keys
    requires forall k :: k in keys ==> v.fields[k] == w.fields[k]
    ensures TotalOfKeys(v, keys, perKey, perItem, deep) == TotalOfKeys(w, keys, perKey, perItem, deep)
    decreases |keys|
  {
    if k :| k in keys {
      TotalPicks(v, keys, k, perKey, perItem, deep);
      TotalPicks(w, keys, k, perKey, perItem, deep);
      TotalAgrees(v, w, keys - {k}, perKey, perItem, deep);
    }
  }

  lemma TotalOfNoKeys(v: Value, perKey: string -> nat, perItem: nat, deep: bool)
    requires v.Obj?
    ensures TotalOfKeys(v, {}, perKey, perItem, deep) == 0
    ensures Total(v, perKey, perItem, deep) == TotalOfKeys(v, v.fields.Keys, perKey, perItem, deep)
  {
  }

  /** An entry more adds what it counts. */
  lemma TotalGrows(m: Object, k: string, child: Value, perKey: string -> nat, perItem: nat, deep: bool)
    requires k !in m
    ensures Total(Obj(m[k := child]), perKey, perItem, deep)
         == Total(Obj(m), perKey, perItem, deep) + perKey(k) + if deep then Total(child, perKey, perItem, deep) else 0
  {
    var v, w := Obj(m[k := child]), Obj(m);
    TotalPicks(v, m.Keys + {k}, k, perKey, perItem, deep);
    TotalAgrees(v, w, m.Keys, perKey, perItem, deep);
    assert v.fields.Keys == m.Keys + {k} && m.Keys + {k} - {k} == m.Keys;
  }

  lemma {:induction false} ItemsAgree(v: Value, w: Value, n: nat, perKey: string -> nat, perItem: nat, deep: bool)
    requires v.Arr? && w.Arr? && n <= |v.items| && n <= |w.items| && v.items[..n] == w.items[..n]
    ensures TotalOfItems(v, n, perKey, perItem, deep) == TotalOfItems(w, n, perKey, perItem, deep)
  {
    if n > 0 {
      assert v.items[..n][..n - 1] == v.items[..n - 1] && w.items[..n][..n - 1] == w.items[..n - 1];
      assert v.items[..n][n - 1] == v.items[n - 1] && w.items[..n][n - 1] == w.items[n - 1];
      ItemsAgree(v, w, n - 1, perKey, perItem, deep);
    }
  }

  lemma TotalAppends(items: seq<Value>, child: Value, perKey: string -> nat, perItem: nat, deep: bool)
    ensures Total(Arr(items + [child]), perKey, perItem, deep)
         == Total(Arr(items), perKey, perItem, deep) + perItem + if deep then Total(child, perKey, perItem, deep) else 0
  {
    ItemsAgree(Arr(items + [child]), Arr(items), |items|, perKey, perItem, deep);
  }

  function One(k: string): nat { 1 }

  /** How many values a value holds, itself included. */
  ghost function Size(v: Value): nat { 1 + Total(v, One, 1, true) }

  // ---------- removing fields ----------

  /** The value without the listed keys, at the top or at every depth. */
  function Removed(v: Value, names: set<string>, deep: bool): Value
    decreases v
  {
    match v
    case Obj(m) => Obj(map k | k in m && k !in names :: if deep then Removed(m[k], names, deep) else m[k])
    case Arr(items) =>
      if deep then Arr(seq(|items|, i requires 0 <= i < |items| => Removed(items[i], names, deep))) else v
    case _ => v
  }

  /** The location of a listed key that is not inside another listed key. */
  ghost predicate Dropped(v: Value, names: set<string>, deep: bool, p: seq<Step>)
    decreases |p|
  {
    p != [] &&
    match p[0]
    case Key(k) =>
      v.Obj? && k in v.fields && if k in names then |p| == 1 else deep && Dropped(v.fields[k], names, deep, p[1..])
    case At(i) => v.Arr? && deep && i < |v.items| && Dropped(v.items[i], names, deep, p[1..])
  }

  ghost predicate Under(base: seq<Step>, p: seq<Step>) {
    |base| < |p| && p[..|base|] == base
  }

  /** The dropped locations whose first step is among the given ones. */
  ghost predicate DroppedFrom(v: Value, names: set<string>, deep: bool, base: seq<Step>, first: set<Step>,
                              p: seq<Step>)
  {
    Under(base, p) && p[|base|] in first && Dropped(v, names, deep, p[|base|..])
  }

  ghost predicate Lists(paths: seq<seq<Step>>, v: Value, names: set<string>, deep: bool, base: seq<Step>,
                        first: set<Step>)
  {
    && (forall p :: p in paths <==> DroppedFrom(v, names, deep, base, first, p))
    && Distinct(paths)
  }

  lemma ListsConcat(a: seq<seq<Step>>, b: seq<seq<Step>>, v: Value, names: set<string>, deep: bool,
                    base: seq<Step>, done: set<Step>, s: Step)
    requires Lists(a, v, names, deep, base, done) && Lists(b, v, names, deep, base, {s}) && s !in done
    ensures Lists(a + b, v, names, deep, base, done + {s})
  {
    hide Dropped;
    forall i, j | 0 <= i < |a| && 0 <= j < |b| ensures a[i] != b[j] {
      assert a[i] in a && b[j] in b;
      assert a[i][|base|] in done && b[j][|base|] == s;
    }
  }

  /** The step into a value. */
  ghost predicate Enters(v: Value, s: Step, child: Value) {
    match s
    case Key(k) => v.Obj? && k in v.fields && child == v.fields[k]
    case At(i) => v.Arr? && i < |v.items| && child == v.items[i]
  }

  ghost function FirstSteps(v: Value): set<Step> {
    match v
    case Obj(m) => set k | k in m :: Key(k)
    case Arr(items) => set i | 0 <= i < |items| :: At(i)
    case _ => {}
  }

  /** What is dropped below one entry is what is dropped from the entry's value. */
  lemma ListsBelow(paths: seq<seq<Step>>, v: Value, names: set<string>, base: seq<Step>, s: Step, child: Value)
    requires Enters(v, s, child) && (s.Key? ==> s.k !in names)
    requires Lists(paths, child, names, true, base + [s], FirstSteps(child))
    ensures Lists(paths, v, names, true, base, {s})
  {
    forall p ensures p in paths <==> DroppedFrom(v, names, true, base, {s}, p) {
      if |base| + 1 <= |p| { assert p[|base|..][1..] == p[|base| + 1..]; }
      if Under(base, p) && p[|base|] == s { assert p[..|base| + 1] == base + [s]; }
      if Under(base + [s], p) { assert p[..|base|] == (base + [s])[..|base|] == base && p[|base|] == s; }
      if |base| + 1 <= |p| && Dropped(child, names, true, p[|base| + 1..]) { assert p[|base| + 1..][0] in FirstSteps(child); }
    }
  }

  lemma ListsKey(v: Value, names: set<string>, deep: bool, base: seq<Step>, k: string)
    requires v.Obj? && k in v.fields
    ensures k in names ==> Lists([base + [Key(k)]], v, names, deep, base, {Key(k)})
    ensures k !in names && !deep ==> Lists([], v, names, deep, base, {Key(k)})
  {
    if k in names {
      forall p ensures p in [base + [Key(k)]] <==> DroppedFrom(v, names, deep, base, {Key(k)}, p) {
        if DroppedFrom(v, names, deep, base, {Key(k)}, p) { assert p == p[..|base|] + p[|base|..] && p[|base|..] == [Key(k)]; }
        assert (base + [Key(k)])[|base|..] == [Key(k)];
      }
    }
  }

  lemma ListsNothing(v: Value, names: set<string>, deep: bool, base: seq<Step>)
    ensures Lists([], v, names, deep, base, {})
    ensures !v.Obj? && !(v.Arr? && deep) ==> Lists([], v, names, deep, base, FirstSteps(v))
  {
  }

  /**
   `removeFields`: the value without the listed keys, and the location of each removed key,
   once; the count is the number of locations. The map may yield its keys in any order.
   */
  method RemoveFields(v: Value, names: set<string>, deep: bool, base: seq<Step>)
    returns (result: Value, count: nat, paths: seq<seq<Step>>)
    ensures result == Removed(v, names, deep)
    ensures count == |paths| && Lists(paths, v, names, deep, base, FirstSteps(v))
    decreases v, 1
  {
    match v
    case Obj(_) => result, count, paths := RemoveFromObject(v, names, deep, base);
    case Arr(_) =>
      if deep {
        result, count, paths := RemoveFromItems(v, names, base);
      } else {
        ListsNothing(v, names, deep, base);
        result, count, paths := v, 0, [];
      }
    case _ =>
      ListsNothing(v, names, deep, base);
      result, count, paths := v, 0, [];
  }

  /** The entries kept once all but the given keys are looked at. */
  ghost function Kept(v: Value, rest: set<string>, names: set<string>, deep: bool): Object
    requires v.Obj?
  {
    map k | k in v.fields && k !in rest && k !in names :: if deep then Removed(v.fields[k], names, deep) else v.fields[k]
  }

  lemma KeptEnds(v: Value, names: set<string>, deep: bool)
    requires v.Obj?
    ensures Kept(v, v.fields.Keys, names, deep) == map[] && Obj(Kept(v, {}, names, deep)) == Removed(v, names, deep)
  {
  }

  lemma KeptStep(v: Value, rest: set<string>, names: set<string>, deep: bool, k: string)
    requires v.Obj? && k in rest && k in v.fields
    ensures Kept(v, rest - {k}, names, deep)
         == if k in names then Kept(v, rest, names, deep)
            else Kept(v, rest, names, deep)[k := if deep then Removed(v.fields[k], names, deep) else v.fields[k]]
  {
  }

  lemma StepsGrow(v: Value, rest: set<string>, k: string)
    requires v.Obj? && k in rest && rest <= v.fields.Keys
    ensures StepsBut(v, rest - {k}) == StepsBut(v, rest) + {Key(k)} && Key(k) !in StepsBut(v, rest)
  {
  }

  /** The entries looked at. */
  ghost function StepsBut(v: Value, rest: set<string>): set<Step>
    requires v.Obj?
  {
    set k | k in v.fields && k !in rest :: Key(k)
  }

  lemma StepsEnds(v: Value)
    requires v.Obj?
    ensures StepsBut(v, v.fields.Keys) == {} && StepsBut(v, {}) == FirstSteps(v)
  {
  }

  method RemoveFromObject(v: Value, names: set<string>, deep: bool, base: seq<Step>)
    returns (result: Value, count: nat, paths: seq<seq<Step>>)
    requires v.Obj?
    ensures result == Removed(v, names, deep)
    ensures count == |paths| && Lists(paths, v, names, deep, base, FirstSteps(v))
    decreases v, 0
  {
    hide Lists, Kept, StepsBut, Removed, FirstSteps;
    ListsNothing(v, names, deep, base);
    KeptEnds(v, names, deep);
    StepsEnds(v);
    count, paths := 0, [];
    var m := v.fields;
    var rest, kept := m.Keys, map[];
    while rest != {}
      invariant rest <= m.Keys && kept == Kept(v, rest, names, deep)
      invariant count == |paths| && Lists(paths, v, names, deep, base, StepsBut(v, rest))
      decreases |rest|
    {
      var k :| k in rest;
      ListsKey(v, names, deep, base, k);
      KeptStep(v, rest, names, deep, k);
      StepsGrow(v, rest, k);
      var more: seq<seq<Step>> := [];
      if k in names {
        more := [base + [Key(k)]];
      } else if deep {
        var child, n;
        child, n, more := RemoveFields(m[k], names, deep, base + [Key(k)]);
        ListsBelow(more, v, names, base, Key(k), m[k]);
        kept := kept[k := child];
      } else {
        kept := kept[k := m[k]];
      }
      ListsConcat(paths, more, v, names, deep, base, StepsBut(v, rest), Key(k));
      count, paths, rest := count + |more|, paths + more, rest - {k};
    }
    result := Obj(kept);
  }

  method RemoveFromItems(v: Value, names: set<string>, base: seq<Step>)
    returns (result: Value, count: nat, paths: seq<seq<Step>>)
    requires v.Arr?
    ensures result == Removed(v, names, true)
    ensures count == |paths| && Lists(paths, v, names, true, base, FirstSteps(v))
    decreases v, 0
  {
    hide Lists;
    ListsNothing(v, names, true, base);
    count, paths := 0, [];
    var items, kept := v.items, [];
    ghost var done: set<Step> := {};
    var i := 0;
    while i < |items|
      invariant 0 <= i <= |items| && |kept| == i && done == (set j | 0 <= j < i :: At(j))
      invariant forall j :: 0 <= j < i ==> kept[j] == Removed(items[j], names, true)
      invariant count == |paths| && Lists(paths, v, names, true, base, done)
    {
      var child, n, more := RemoveFields(items[i], names, true, base + [At(i)]);
      ListsBelow(more, v, names, base, At(i), items[i]);
      ListsConcat(paths, more, v, names, true, base, done, At(i));
      kept := kept + [child];
      count, paths, done := count + n, paths + more, done + {At(i)};
      i := i + 1;
    }
    assert done == FirstSteps(v);
    result := Arr(kept);
  }

  /** No listed key anywhere (at the top only, without deep). */
  ghost predicate Free(v: Value, names: set<string>, deep: bool)
    decreases v
  {
    match v
    case Obj(m) => forall k :: k in m ==> k !in names && (deep ==> Free(m[k], names, deep))
    case Arr(items) => deep ==> forall i :: 0 <= i < |items| ==> Free(items[i], names, deep)
    case _ => true
  }

  lemma {:induction false} RemovedIsFree(v: Value, names: set<string>, deep: bool)
    ensures Free(Removed(v, names, deep), names, deep)
    decreases v
  {
    match v
    case Obj(m) =>
      if deep {
        forall k | k in m ensures Free(Removed(m[k], names, deep), names, deep) { RemovedIsFree(m[k], names, deep); }
      }
    case Arr(items) =>
      if deep {
        forall i | 0 <= i < |items| ensures Free(Removed(items[i], names, deep), names, deep) {
          RemovedIsFree(items[i], names, deep);
        }
      }
    case _ =>
  }

  /** Nothing is removed exactly when there is nothing to remove; so removing twice is removing once. */
  lemma {:induction false} RemovedUnchangedExactly(v: Value, names: set<string>, deep: bool)
    ensures Removed(v, names, deep) == v <==> Free(v, names, deep)
    decreases v
  {
    match v
    case Obj(m) =>
      if deep {
        forall k | k in m ensures Removed(m[k], names, deep) == m[k] <==> Free(m[k], names, deep) {
          RemovedUnchangedExactly(m[k], names, deep);
        }
      }
      var r := Removed(v, names, deep).fields;
      if r == m { assert forall k :: k in m ==> k in r && r[k] == m[k]; }
      if Free(v, names, deep) { assert r == m; }
    case Arr(items) =>
      if deep {
        forall i | 0 <= i < |items|
          ensures Removed(items[i], names, deep) == items[i] <==> Free(items[i], names, deep)
        {
          RemovedUnchangedExactly(items[i], names, deep);
        }
        var r := Removed(v, names, deep).items;
        if r == items { assert forall i :: 0 <= i < |items| ==> r[i] == items[i]; }
        if Free(v, names, deep) { assert r == items; }
      }
    case _ =>
  }

  lemma RemovingTwiceIsRemovingOnce(v: Value, names: set<string>, deep: bool)
    ensures Removed(Removed(v, names, deep), names, deep) == Removed(v, names, deep)
  {
  }

  /** The location goes through no listed key. */
  ghost predicate Clear(p: seq<Step>, names: set<string>) {
    p == [] || ((p[0].Key? ==> p[0].k !in names) && Clear(p[1..], names))
  }

  /** Everything else is still where it was: a location survives exactly when it goes through no listed key. */
  lemma {:induction false} OtherLocationsStay(v: Value, names: set<string>, p: seq<Step>)
    ensures Find(Removed(v, names, true), p)
         == if Find(v, p).Some? && Clear(p, names) then Some(Removed(Find(v, p).value, names, true)) else None
    decreases |p|
  {
    if p != [] {
      match p[0]
      case Key(k) => if v.Obj? && k in v.fields { OtherLocationsStay(v.fields[k], names, p[1..]); }
      case At(i) => if v.Arr? && i < |v.items| { OtherLocationsStay(v.items[i], names, p[1..]); }
    }
  }

  // ---------- filtering empty values ----------

  /** `isEmptyTransformValue` */
  predicate IsEmpty(v: Value) {
    match v
    case Null => true
    case Str(s) => TrimSpace(s) == ""
    case Arr(items) => |items| == 0
    case Obj(m) => |m| == 0
    case _ => false
  }

  /** Null, a blank text, and an array or object without entries count as empty; numbers and truth values never do. */
  lemma IsEmptyExactly(v: Value)
    ensures IsEmpty(v) <==>
            v == Null || v == Arr([]) || v == Obj(map[]) || (v.Str? && TrimSpace(v.s) == "")
  {
    hide TrimSpace;
  }

  /** The value without the entries that are empty, or are empty once filtered themselves. */
  function Filtered(v: Value, deep: bool): Value
    decreases v, 1
  {
    match v
    case Obj(m) =>
      Obj(map k | k in m && !IsEmpty(if deep then Filtered(m[k], deep) else m[k]) :: if deep then Filtered(m[k], deep) else m[k])
    case Arr(items) => Arr(FilteredItems(v, |items|, deep))
    case _ => v
  }

  function FilteredItems(v: Value, n: nat, deep: bool): seq<Value>
    requires v.Arr? && n <= |v.items|
    decreases v, 0, n
  {
    if n == 0 then []
    else
      var next := if deep then Filtered(v.items[n - 1], deep) else v.items[n - 1];
      FilteredItems(v, n - 1, deep) + if IsEmpty(next) then [] else [next]
  }

  ghost function NextOf(child: Value, deep: bool): Value { if deep then Filtered(child, deep) else child }

  ghost function FilteredBut(v: Value, rest: set<string>, deep: bool): Object
    requires v.Obj?
  {
    map k | k in v.fields && k !in rest && !IsEmpty(NextOf(v.fields[k], deep)) :: NextOf(v.fields[k], deep)
  }

  lemma FilteredEnds(v: Value, deep: bool)
    requires v.Obj?
    ensures FilteredBut(v, v.fields.Keys, deep) == map[] && Obj(FilteredBut(v, {}, deep)) == Filtered(v, deep)
  {
  }

  lemma FilteredStep(v: Value, rest: set<string>, deep: bool, k: string)
    requires v.Obj? && k in rest && k in v.fields
    ensures k !in FilteredBut(v, rest, deep)
    ensures FilteredBut(v, rest - {k}, deep)
         == if IsEmpty(NextOf(v.fields[k], deep)) then FilteredBut(v, rest, deep)
            else FilteredBut(v, rest, deep)[k := NextOf(v.fields[k], deep)]
  {
  }

  lemma EmptyIsOne(v: Value)
    requires IsEmpty(v)
    ensures Size(v) == 1
  {
    if v.Obj? {
      assert v.fields.Keys == {};
      TotalOfNoKeys(v, One, 1, true);
    }
    if v.Arr? { assert TotalOfItems(v, 0, One, 1, true) == 0; }
  }

  /**
   `filterEmptyValues`: the count is exactly the number of values that are gone. The map may
   yield its keys in any order.
   */
  method FilterEmptyValues(v: Value, deep: bool) returns (result: Value, removed: nat)
    ensures result == Filtered(v, deep)
    ensures Size(v) == Size(result) + removed
    decreases v, 1
  {
    match v
    case Obj(_) => result, removed := FilterObject(v, deep);
    case Arr(_) => result, removed := FilterItems(v, deep);
    case _ => result, removed := v, 0;
  }

  method FilterChild(child: Value, deep: bool, ghost v: Value) returns (next: Value, removed: nat)
    requires child < v
    ensures next == NextOf(child, deep) && Size(child) == Size(next) + removed
    decreases v, 0, 0
  {
    next, removed := child, 0;
    if deep { next, removed := FilterEmptyValues(child, deep); }
  }

  method FilterObject(v: Value, deep: bool) returns (result: Value, removed: nat)
    requires v.Obj?
    ensures result == Filtered(v, deep) && Size(v) == Size(result) + removed
    decreases v, 0, 1
  {
    hide Filtered, FilteredBut, NextOf, IsEmpty, Total, TotalOfKeys;
    FilteredEnds(v, deep);
    TotalOfNoKeys(v, One, 1, true);
    var m := v.fields;
    var rest, kept: Object := m.Keys, map[];
    TotalOfNoKeys(Obj(kept), One, 1, true);
    assert kept.Keys == {};
    removed := 0;
    while rest != {}
      invariant rest <= m.Keys && kept == FilteredBut(v, rest, deep)
      invariant Total(v, One, 1, true) == TotalOfKeys(v, rest, One, 1, true) + Total(Obj(kept), One, 1, true) + removed
      decreases |rest|
    {
      var k :| k in rest;
      var next, n := FilterChild(m[k], deep, v);
      FilteredStep(v, rest, deep, k);
      TotalPicks(v, rest, k, One, 1, true);
      removed := removed + n;
      if IsEmpty(next) {
        EmptyIsOne(next);
        removed := removed + 1;
      } else {
        TotalGrows(kept, k, next, One, 1, true);
        kept := kept[k := next];
      }
      rest := rest - {k};
    }
    result := Obj(kept);
  }

  method FilterItems(v: Value, deep: bool) returns (result: Value, removed: nat)
    requires v.Arr?
    ensures result == Filtered(v, deep) && Size(v) == Size(result) + removed
    decreases v, 0, 1
  {
    hide IsEmpty;
    var items, kept := v.items, [];
    removed := 0;
    var i := 0;
    while i < |items|
      invariant 0 <= i <= |items| && kept == FilteredItems(v, i, deep)
      invariant TotalOfItems(v, i, One, 1, true) == Total(Arr(kept), One, 1, true) + removed
    {
      var next, n := FilterChild(items[i], deep, v);
      removed := removed + n;
      if IsEmpty(next) {
        EmptyIsOne(next);
        removed := removed + 1;
      } else {
        TotalAppends(kept, next, One, 1, true);
        kept := kept + [next];
      }
      i := i + 1;
    }
    result := Arr(kept);
  }

  /** No empty value strictly below the root (one level below, without deep). */
  ghost predicate Full(v: Value, deep: bool)
    decreases v
  {
    match v
    case Obj(m) => forall k :: k in m ==> !IsEmpty(m[k]) && (deep ==> Full(m[k], deep))
    case Arr(items) => forall i :: 0 <= i < |items| ==> !IsEmpty(items[i]) && (deep ==> Full(items[i], deep))
    case _ => true
  }

  lemma {:induction false} FilteredIsFull(v: Value, deep: bool)
    ensures Full(Filtered(v, deep), deep)
    decreases v, 1
  {
    match v
    case Obj(m) =>
      if deep { forall k | k in m ensures Full(Filtered(m[k], deep), deep) { FilteredIsFull(m[k], deep); } }
    case Arr(items) => FilteredItemsAreFull(v, |items|, deep);
    case _ =>
  }

  lemma {:induction false} FilteredItemsAreFull(v: Value, n: nat, deep: bool)
    requires v.Arr? && n <= |v.items|
    ensures Full(Arr(FilteredItems(v, n, deep)), deep)
    decreases v, 0, n
  {
    if n > 0 {
      FilteredItemsAreFull(v, n - 1, deep);
      if deep { FilteredIsFull(v.items[n - 1], deep); }
      var front, all := Arr(FilteredItems(v, n - 1, deep)), Arr(FilteredItems(v, n, deep));
      forall i | 0 <= i < |all.items| ensures !IsEmpty(all.items[i]) && (deep ==> Full(all.items[i], deep)) {
        if i < |front.items| { assert all.items[i] == front.items[i]; }
      }
    }
  }

  /** A value without empty ones below it stays as it is. */
  lemma {:induction false} FullStays(v: Value, deep: bool)
    requires Full(v, deep)
    ensures Filtered(v, deep) == v
    decreases v, 1
  {
    match v
    case Obj(m) =>
      if deep { forall k | k in m ensures Filtered(m[k], deep) == m[k] { FullStays(m[k], deep); } }
      assert Filtered(v, deep).fields == m;
    case Arr(items) => FullItemsStay(v, |items|, deep); assert items[..|items|] == items;
    case _ =>
  }

  lemma {:induction false} FullItemsStay(v: Value, n: nat, deep: bool)
    requires v.Arr? && n <= |v.items| && Full(v, deep)
    ensures FilteredItems(v, n, deep) == v.items[..n]
    decreases v, 0, n
  {
    if n > 0 {
      FullItemsStay(v, n - 1, deep);
      if deep { FullStays(v.items[n - 1], deep); }
      assert v.items[..n] == v.items[..n - 1] + [v.items[n - 1]];
    }
  }

  /** One pass is enough: a second one changes nothing, and so removes nothing. */
  lemma FilteringTwiceIsFilteringOnce(v: Value, deep: bool)
    ensures Filtered(Filtered(v, deep), deep) == Filtered(v, deep)
    ensures Filtered(v, deep) == v <==> Full(v, deep)
  {
    FilteredIsFull(v, deep);
    FullStays(Filtered(v, deep), deep);
    if Full(v, deep) { FullStays(v, deep); }
  }

  // ---------- renaming fields ----------

  /** What a key becomes: a blank new name means none. */
  function NextKey(renames: map<string, string>, k: string): string {
    if k in renames && TrimSpace(renames[k]) != "" then TrimSpace(renames[k]) else k
  }

  function Counts(renames: map<string, string>): string -> nat {
    k => if k in renames && TrimSpace(renames[k]) != "" then 1 else 0
  }

  lemma NextKeyIs(renames: map<string, string>, k: string)
    ensures NextKey(renames, k) == if k in renames && TrimSpace(renames[k]) != "" then TrimSpace(renames[k]) else k
  {
  }

  /**
   The results renaming can have: where several keys of an object end up with one name, the
   entry looked at last wins, and the map may yield them in any order.
   */
  ghost predicate RenamedTo(v: Value, renames: map<string, string>, deep: bool, r: Value)
    decreases v
  {
    match v
    case Obj(m) =>
      && r.Obj?
      && (forall k :: k in m ==> NextKey(renames, k) in r.fields)
      && forall n :: n in r.fields ==>
           exists k :: k in m && NextKey(renames, k) == n
                       && if deep then RenamedTo(m[k], renames, deep, r.fields[n]) else r.fields[n] == m[k]
    case Arr(items) =>
      if !deep then r == v
      else r.Arr? && |r.items| == |items| && forall i :: 0 <= i < |items| ==> RenamedTo(items[i], renames, deep, r.items[i])
    case _ => r == v
  }

  lemma {:induction false} FlatItemsCountNothing(v: Value, n: nat, perKey: string -> nat)
    requires v.Arr? && n <= |v.items|
    ensures TotalOfItems(v, n, perKey, 0, false) == 0
  {
    if n > 0 { FlatItemsCountNothing(v, n - 1, perKey); }
  }

  /** `renameFields`; the count is the number of keys that got a new name. */
  method RenameFields(v: Value, renames: map<string, string>, deep: bool) returns (result: Value, count: nat)
    ensures RenamedTo(v, renames, deep, result)
    ensures count == Total(v, Counts(renames), 0, deep)
    decreases v, 1
  {
    match v
    case Obj(_) => result, count := RenameObject(v, renames, deep);
    case Arr(items) =>
      if deep {
        result, count := RenameItems(v, renames);
      } else {
        FlatItemsCountNothing(v, |items|, Counts(renames));
        result, count := v, 0;
      }
    case _ => result, count := v, 0;
  }

  /** The value stored for an entry. */
  ghost predicate EntryRenamed(v: Value, k: string, renames: map<string, string>, deep: bool, n: string, child: Value) {
    && v.Obj? && k in v.fields && NextKey(renames, k) == n
    && if deep then RenamedTo(v.fields[k], renames, deep, child) else child == v.fields[k]
  }

  method RenameObject(v: Value, renames: map<string, string>, deep: bool) returns (result: Value, count: nat)
    requires v.Obj?
    ensures RenamedTo(v, renames, deep, result)
    ensures count == Total(v, Counts(renames), 0, deep)
    decreases v, 0
  {
    hide NextKey, Total, TotalOfKeys, TrimSpace, RenamedTo;
    var m := v.fields;
    var rest, kept: Object := m.Keys, map[];
    count := 0;
    TotalOfNoKeys(v, Counts(renames), 0, deep);
    while rest != {}
      invariant rest <= m.Keys
      invariant forall k :: k in m && k !in rest ==> NextKey(renames, k) in kept
      invariant forall n :: n in kept ==> exists k :: EntryRenamed(v, k, renames, deep, n, kept[n])
      invariant Total(v, Counts(renames), 0, deep) == TotalOfKeys(v, rest, Counts(renames), 0, deep) + count
      decreases |rest|
    {
      var k :| k in rest;
      TotalPicks(v, rest, k, Counts(renames), 0, deep);
      NextKeyIs(renames, k);
      var nextKey, renamed := k, if k in renames then TrimSpace(renames[k]) else "";
      if renamed != "" { nextKey, count := renamed, count + 1; }
      var child := m[k];
      if deep {
        var n;
        child, n := RenameFields(m[k], renames, deep);
        count := count + n;
      }
      assert EntryRenamed(v, k, renames, deep, nextKey, child);
      kept := kept[nextKey := child];
      rest := rest - {k};
    }
    result := Obj(kept);
    RenamedObject(v, renames, deep, kept);
  }

  lemma RenamedObject(v: Value, renames: map<string, string>, deep: bool, kept: Object)
    requires v.Obj? && forall k :: k in v.fields ==> NextKey(renames, k) in kept
    requires forall n :: n in kept ==> exists k :: EntryRenamed(v, k, renames, deep, n, kept[n])
    ensures RenamedTo(v, renames, deep, Obj(kept))
  {
  }

  method RenameItems(v: Value, renames: map<string, string>) returns (result: Value, count: nat)
    requires v.Arr?
    ensures RenamedTo(v, renames, true, result)
    ensures count == Total(v, Counts(renames), 0, true)
    decreases v, 0
  {
    var items, kept := v.items, [];
    var i := 0;
    count := 0;
    while i < |items|
      invariant 0 <= i <= |items| && |kept| == i
      invariant forall j :: 0 <= j < i ==> RenamedTo(items[j], renames, true, kept[j])
      invariant count == TotalOfItems(v, i, Counts(renames), 0, true)
    {
      var child, n := RenameFields(items[i], renames, true);
      kept, count := kept + [child], count + n;
      i := i + 1;
    }
    result := Arr(kept);
  }

  /** Each key that can be renamed is one the second map turns back. */
  ghost predicate Reversible(v: Value, renames: map<string, string>, inverse: map<string, string>, deep: bool)
    decreases v
  {
    match v
    case Obj(m) => forall k :: k in m ==>
                     NextKey(inverse, NextKey(renames, k)) == k && (deep ==> Reversible(m[k], renames, inverse, deep))
    case Arr(items) => deep ==> forall i :: 0 <= i < |items| ==> Reversible(items[i], renames, inverse, deep)
    case _ => true
  }

  lemma SameKeysBack(v: Value, renames: map<string, string>, inverse: map<string, string>, deep: bool, r: Value,
                     w: Value)
    requires v.Obj? && Reversible(v, renames, inverse, deep)
    requires RenamedTo(v, renames, deep, r) && RenamedTo(r, inverse, deep, w)
    ensures w.Obj? && w.fields.Keys == v.fields.Keys
  {
    hide NextKey;
    forall k | k in v.fields ensures k in w.fields {
      var n := NextKey(renames, k);
      assert n in r.fields && NextKey(inverse, n) in w.fields;
    }
    forall k | k in w.fields ensures k in v.fields {
      var n :| n in r.fields && NextKey(inverse, n) == k;
      var j :| j in v.fields && NextKey(renames, j) == n;
    }
  }

  /** Renaming there and back gives the value back, whatever order the maps yield their keys in. */
  lemma {:induction false} RenamingIsUndone(v: Value, renames: map<string, string>, inverse: map<string, string>,
                                            deep: bool, r: Value, w: Value)
    requires Reversible(v, renames, inverse, deep) && RenamedTo(v, renames, deep, r) && RenamedTo(r, inverse, deep, w)
    ensures w == v
    decreases v
  {
    hide NextKey;
    match v
    case Obj(m) => ObjectIsUndone(v, renames, inverse, deep, r, w);
    case Arr(items) =>
      if deep {
        forall i | 0 <= i < |items| ensures w.items[i] == items[i] {
          RenamingIsUndone(items[i], renames, inverse, deep, r.items[i], w.items[i]);
        }
        assert w.items == items;
      }
    case _ =>
  }

  lemma {:induction false} ObjectIsUndone(v: Value, renames: map<string, string>, inverse: map<string, string>,
                                          deep: bool, r: Value, w: Value)
    requires v.Obj? && Reversible(v, renames, inverse, deep)
    requires RenamedTo(v, renames, deep, r) && RenamedTo(r, inverse, deep, w)
    ensures w == v
    decreases v, 1
  {
    hide NextKey, RenamedTo, Reversible;
    SameKeysBack(v, renames, inverse, deep, r, w);
    forall k | k in v.fields ensures w.fields[k] == v.fields[k] {
      KeyIsUndone(v, renames, inverse, deep, r, w, k);
    }
    assert w.fields == v.fields;
  }

  lemma {:induction false} KeyIsUndone(v: Value, renames: map<string, string>, inverse: map<string, string>,
                                       deep: bool, r: Value, w: Value, k: string)
    requires v.Obj? && Reversible(v, renames, inverse, deep)
    requires RenamedTo(v, renames, deep, r) && RenamedTo(r, inverse, deep, w)
    requires k in v.fields && k in w.fields
    ensures w.fields[k] == v.fields[k]
    decreases v, 0
  {
    hide NextKey;
    var n :| n in r.fields && NextKey(inverse, n) == k
             && if deep then RenamedTo(r.fields[n], inverse, deep, w.fields[k]) else w.fields[k] == r.fields[n];
    var j :| j in v.fields && NextKey(renames, j) == n
             && if deep then RenamedTo(v.fields[j], renames, deep, r.fields[n]) else r.fields[n] == v.fields[j];
    assert j == k;
    if deep { RenamingIsUndone(v.fields[k], renames, inverse, deep, r.fields[n], w.fields[k]); }
  }

  /** An injective renaming between trimmed names, and the way back. */
  ghost predicate Inverses(renames: map<string, string>, inverse: map<string, string>) {
    && (forall k :: k in renames ==>
          Trimmed(k) && k != "" && Trimmed(renames[k]) && renames[k] != "" && renames[k] in inverse && inverse[renames[k]] == k)
    && forall n :: n in inverse ==> exists k :: k in renames && renames[k] == n
  }

  /** No key that keeps its name already has one of the new names. */
  ghost predicate FreshIn(v: Value, renames: map<string, string>, inverse: map<string, string>, deep: bool)
    decreases v
  {
    match v
    case Obj(m) => forall k :: k in m ==> (k in renames || k !in inverse) && (deep ==> FreshIn(m[k], renames, inverse, deep))
    case Arr(items) => deep ==> forall i :: 0 <= i < |items| ==> FreshIn(items[i], renames, inverse, deep)
    case _ => true
  }

  lemma KeyComesBack(renames: map<string, string>, inverse: map<string, string>, k: string)
    requires Inverses(renames, inverse) && (k in renames || k !in inverse)
    ensures NextKey(inverse, NextKey(renames, k)) == k
  {
  }

  /** An injective renaming onto fresh trimmed names is undone by the inverse map. */
  lemma {:induction false} FreshRenamingIsReversible(v: Value, renames: map<string, string>, inverse: map<string,
                                                     string>, deep: bool)
    requires Inverses(renames, inverse) && FreshIn(v, renames, inverse, deep)
    ensures Reversible(v, renames, inverse, deep)
    decreases v
  {
    hide NextKey, Inverses;
    match v
    case Obj(m) =>
      forall k | k in m
        ensures NextKey(inverse, NextKey(renames, k)) == k && (deep ==> Reversible(m[k], renames, inverse, deep))
      {
        KeyComesBack(renames, inverse, k);
        if deep { FreshRenamingIsReversible(m[k], renames, inverse, deep); }
      }
    case Arr(items) =>
      if deep {
        forall i | 0 <= i < |items| ensures Reversible(items[i], renames, inverse, deep) {
          FreshRenamingIsReversible(items[i], renames, inverse, deep);
        }
      }
    case _ =>
  }

  /** Without freshness the result depends on the order of the map: either entry may be lost. */
  lemma RenamingOntoTakenKeyLosesOne()
    ensures var v, renames := Obj(map["a" := Num(1), "b" := Num(2)]), map["a" := "b"];
            RenamedTo(v, renames, true, Obj(map["b" := Num(1)])) && RenamedTo(v, renames, true, Obj(map["b" := Num(2)]))
  {
    var renames := map["a" := "b"];
    TrimSpaceTrims("b");
    assert NextKey(renames, "a") == "b" && NextKey(renames, "b") == "b";
  }

  // ---------- when the order of the map does not matter ----------

  ghost function NewKeys(m: Object, renames: map<string, string>): set<string> {
    set k | k in m :: NextKey(renames, k)
  }

  ghost function OldKey(m: Object, renames: map<string, string>, n: string): (k: string)
    requires n in NewKeys(m, renames)
    ensures k in m && NextKey(renames, k) == n
  {
    var k :| k in m && NextKey(renames, k) == n;
    k
  }

  /** One of the results renaming can have. */
  ghost function Renaming(v: Value, renames: map<string, string>, deep: bool): Value
    decreases v
  {
    match v
    case Obj(m) =>
      Obj(map n | n in NewKeys(m, renames) ::
            var k := OldKey(m, renames, n);
            if deep then Renaming(m[k], renames, deep) else m[k])
    case Arr(items) =>
      if deep then Arr(seq(|items|, i requires 0 <= i < |items| => Renaming(items[i], renames, deep))) else v
    case _ => v
  }

  lemma {:induction false} RenamingIsPossible(v: Value, renames: map<string, string>, deep: bool)
    ensures RenamedTo(v, renames, deep, Renaming(v, renames, deep))
    decreases v
  {
    hide NextKey;
    match v
    case Obj(m) =>
      if deep {
        forall k | k in m ensures RenamedTo(m[k], renames, deep, Renaming(m[k], renames, deep)) {
          RenamingIsPossible(m[k], renames, deep);
        }
      }
    case Arr(items) =>
      if deep {
        forall i | 0 <= i < |items| ensures RenamedTo(items[i], renames, deep, Renaming(items[i], renames, deep)) {
          RenamingIsPossible(items[i], renames, deep);
        }
      }
    case _ =>
  }

  ghost function RenamedEntry(v: Value, k: string, renames: map<string, string>, deep: bool): Value
    requires v.Obj? && k in v.fields
  {
    if deep then Renaming(v.fields[k], renames, deep) else v.fields[k]
  }

  /** Keys that end up with one name hold values that end up the same, at every depth. */
  ghost predicate Agreeing(v: Value, renames: map<string, string>, deep: bool)
    decreases v
  {
    match v
    case Obj(m) =>
      && (forall j, k :: j in m && k in m && NextKey(renames, j) == NextKey(renames, k) ==>
            RenamedEntry(v, j, renames, deep) == RenamedEntry(v, k, renames, deep))
      && (deep ==> forall k :: k in m ==> Agreeing(m[k], renames, deep))
    case Arr(items) => deep ==> forall i :: 0 <= i < |items| ==> Agreeing(items[i], renames, deep)
    case _ => true
  }

  lemma {:induction false} AgreeingHasOneResult(v: Value, renames: map<string, string>, deep: bool, r: Value)
    requires Agreeing(v, renames, deep) && RenamedTo(v, renames, deep, r)
    ensures r == Renaming(v, renames, deep)
    decreases v
  {
    hide NextKey;
    match v
    case Obj(m) =>
      var one := Renaming(v, renames, deep).fields;
      forall n | n in r.fields ensures n in one && r.fields[n] == one[n] {
        var k :| k in m && NextKey(renames, k) == n
                 && if deep then RenamedTo(m[k], renames, deep, r.fields[n]) else r.fields[n] == m[k];
        if deep { AgreeingHasOneResult(m[k], renames, deep, r.fields[n]); }
        assert RenamedEntry(v, k, renames, deep) == RenamedEntry(v, OldKey(m, renames, n), renames, deep);
      }
      assert r.fields == one;
    case Arr(items) =>
      if deep {
        forall i | 0 <= i < |items| ensures r.items[i] == Renaming(items[i], renames, deep) {
          AgreeingHasOneResult(items[i], renames, deep, r.items[i]);
        }
        assert r.items == Renaming(v, renames, deep).items;
      }
    case _ =>
  }

  /** Whichever key of a class is looked at last, its entry may be the one that stays. */
  lemma OneEntrySwapped(v: Value, renames: map<string, string>, deep: bool, k: string, child: Value)
    requires v.Obj? && k in v.fields
    requires if deep then RenamedTo(v.fields[k], renames, deep, child) else child == v.fields[k]
    ensures RenamedTo(v, renames, deep, Obj(Renaming(v, renames, deep).fields[NextKey(renames, k) := child]))
  {
    hide NextKey;
    RenamingIsPossible(v, renames, deep);
  }

  lemma {:induction false} DisagreeingHasAnotherResult(v: Value, renames: map<string, string>, deep: bool)
    returns (r: Value)
    requires !Agreeing(v, renames, deep)
    ensures RenamedTo(v, renames, deep, r) && r != Renaming(v, renames, deep)
    decreases v
  {
    hide NextKey;
    var one := Renaming(v, renames, deep);
    match v
    case Obj(m) =>
      var k, child := DisagreeingEntry(v, renames, deep);
      OneEntrySwapped(v, renames, deep, k, child);
      r := Obj(one.fields[NextKey(renames, k) := child]);
      assert r.fields[NextKey(renames, k)] != one.fields[NextKey(renames, k)];
    case Arr(items) =>
      var i :| 0 <= i < |items| && !Agreeing(items[i], renames, deep);
      var other := DisagreeingHasAnotherResult(items[i], renames, deep);
      RenamingIsPossible(v, renames, deep);
      r := Arr(one.items[i := other]);
      assert r.items[i] != one.items[i];
  }

  lemma {:induction false} DisagreeingEntry(v: Value, renames: map<string, string>, deep: bool)
    returns (k: string, child: Value)
    requires v.Obj? && !Agreeing(v, renames, deep)
    ensures k in v.fields
    ensures if deep then RenamedTo(v.fields[k], renames, deep, child) else child == v.fields[k]
    ensures NextKey(renames, k) in Renaming(v, renames, deep).fields
         && child != Renaming(v, renames, deep).fields[NextKey(renames, k)]
    decreases v, 0
  {
    hide NextKey;
    var m, one := v.fields, Renaming(v, renames, deep).fields;
    if i, j :| i in m && j in m && NextKey(renames, i) == NextKey(renames, j)
               && RenamedEntry(v, i, renames, deep) != RenamedEntry(v, j, renames, deep) {
      k := if RenamedEntry(v, i, renames, deep) != one[NextKey(renames, i)] then i else j;
      child := RenamedEntry(v, k, renames, deep);
      if deep { RenamingIsPossible(m[k], renames, deep); }
    } else {
      k :| k in m && !Agreeing(m[k], renames, deep);
      child := DisagreeingHasAnotherResult(m[k], renames, deep);
      if child == one[NextKey(renames, k)] {
        RenamingIsPossible(m[k], renames, deep);
        child := Renaming(m[k], renames, deep);
      }
    }
  }

  /** The result is the same for every order of the maps exactly when keys that end up with one name agree. */
  lemma RenamingIgnoresOrderExactly(v: Value, renames: map<string, string>, deep: bool)
    ensures (forall r, s :: RenamedTo(v, renames, deep, r) && RenamedTo(v, renames, deep, s) ==> r == s)
       <==> Agreeing(v, renames, deep)
  {
    if Agreeing(v, renames, deep) {
      forall r | RenamedTo(v, renames, deep, r) ensures r == Renaming(v, renames, deep) {
        AgreeingHasOneResult(v, renames, deep, r);
      }
    } else {
      var r := DisagreeingHasAnotherResult(v, renames, deep);
      RenamingIsPossible(v, renames, deep);
    }
  }

  /** Without deep that is: keys that end up with one name hold the same value. */
  lemma FlatRenamingIgnoresOrderExactly(m: Object, renames: map<string, string>)
    ensures (forall r, s :: RenamedTo(Obj(m), renames, false, r) && RenamedTo(Obj(m), renames, false, s) ==> r == s)
       <==> forall j, k :: j in m && k in m && NextKey(renames, j) == NextKey(renames, k) ==> m[j] == m[k]
  {
    RenamingIgnoresOrderExactly(Obj(m), renames, false);
  }
}
