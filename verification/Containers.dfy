/**
 Decoded JSON as it lies on the heap: maps and slices are containers that values refer to,
 so a write into a nested map is seen by everyone who holds it. What containers denote,
 how they are built and read, and the path writes that update them in place.
 */
module Containers {
  import opened JsonValues

  class GoMap {
    var entries: map<string, Any>

    constructor (entries: map<string, Any>)
      ensures this.entries == entries
    {
      this.entries := entries;
    }
  }

  class GoSlice {
    var items: seq<Any>

    constructor (items: seq<Any>)
      ensures this.items == items
    {
      this.items := items;
    }
  }

  /** What an `any` holds: a scalar, or a reference to a container. */
  datatype Any = Scalar(v: Value) | MapRef(m: GoMap) | SliceRef(s: GoSlice)

  // ---------- denotation ----------

  /** The containers reached from a are in repr, and together they spell out v; they may be shared inside it. */
  ghost predicate Denotes(a: Any, v: Value, repr: set<object>)
    reads repr
    decreases v
  {
    match v
    case Obj(fields) =>
      && a.MapRef? && a.m in repr && a.m.entries.Keys == fields.Keys
      && forall k :: k in fields ==> Denotes(a.m.entries[k], fields[k], repr)
    case Arr(items) =>
      && a.SliceRef? && a.s in repr && |a.s.items| == |items|
      && forall i :: 0 <= i < |items| ==> Denotes(a.s.items[i], items[i], repr)
    case _ => a == Scalar(v)
  }

  lemma {:induction false} DenotesMore(a: Any, v: Value, repr: set<object>, more: set<object>)
    requires Denotes(a, v, repr) && repr <= more
    ensures Denotes(a, v, more)
    decreases v
  {
    match v
    case Obj(fields) =>
      forall k | k in fields
        ensures Denotes(a.m.entries[k], fields[k], more)
      {
        DenotesMore(a.m.entries[k], fields[k], repr, more);
      }
    case Arr(items) =>
      forall i | 0 <= i < |items|
        ensures Denotes(a.s.items[i], items[i], more)
      {
        DenotesMore(a.s.items[i], items[i], repr, more);
      }
    case _ =>
  }

  /** A container denotes one value only. */
  lemma {:induction false} DenotesOne(a: Any, v: Value, w: Value, repr: set<object>, other: set<object>)
    requires Denotes(a, v, repr) && Denotes(a, w, other)
    ensures v == w
    decreases v
  {
    match v
    case Obj(fields) =>
      forall k | k in fields
        ensures fields[k] == w.fields[k]
      {
        DenotesOne(a.m.entries[k], fields[k], w.fields[k], repr, other);
      }
      assert fields == w.fields;
    case Arr(items) =>
      forall i | 0 <= i < |items|
        ensures items[i] == w.items[i]
      {
        DenotesOne(a.s.items[i], items[i], w.items[i], repr, other);
      }
      assert items == w.items;
    case _ =>
  }

  // ---------- location ----------

  datatype Step = Key(k: string) | Index(i: nat)

  /** Where each container lies. As a container has one location, nothing is shared. */
  type Layout = map<object, seq<Step>>

  /** The containers reached from a lie at and below path, and together they spell out v. */
  ghost predicate Located(a: Any, v: Value, at: Layout, path: seq<Step>)
    reads at.Keys
    decreases v
  {
    match v
    case Obj(fields) =>
      && a.MapRef? && a.m in at && at[a.m] == path && a.m.entries.Keys == fields.Keys
      && forall k :: k in fields ==> Located(a.m.entries[k], fields[k], at, path + [Key(k)])
    case Arr(items) =>
      && a.SliceRef? && a.s in at && at[a.s] == path && |a.s.items| == |items|
      && forall i :: 0 <= i < |items| ==> Located(a.s.items[i], items[i], at, path + [Index(i)])
    case _ => a == Scalar(v)
  }

  lemma {:induction false} LocatedDenotes(a: Any, v: Value, at: Layout, path: seq<Step>)
    requires Located(a, v, at, path)
    ensures Denotes(a, v, at.Keys)
    decreases v
  {
    match v
    case Obj(fields) =>
      forall k | k in fields
        ensures Denotes(a.m.entries[k], fields[k], at.Keys)
      {
        LocatedDenotes(a.m.entries[k], fields[k], at, path + [Key(k)]);
      }
    case Arr(items) =>
      forall i | 0 <= i < |items|
        ensures Denotes(a.s.items[i], items[i], at.Keys)
      {
        LocatedDenotes(a.s.items[i], items[i], at, path + [Index(i)]);
      }
    case _ =>
  }

  ghost predicate Extends(more: Layout, at: Layout) {
    forall o :: o in at ==> o in more && more[o] == at[o]
  }

  lemma {:induction false} LocatedMore(a: Any, v: Value, at: Layout, path: seq<Step>, more: Layout)
    requires Located(a, v, at, path) && Extends(more, at)
    ensures Located(a, v, more, path)
    decreases v
  {
    match v
    case Obj(fields) =>
      forall k | k in fields
        ensures Located(a.m.entries[k], fields[k], more, path + [Key(k)])
      {
        LocatedMore(a.m.entries[k], fields[k], at, path + [Key(k)], more);
      }
    case Arr(items) =>
      forall i | 0 <= i < |items|
        ensures Located(a.s.items[i], items[i], more, path + [Index(i)])
      {
        LocatedMore(a.s.items[i], items[i], at, path + [Index(i)], more);
      }
    case _ =>
  }

  // ---------- building and reading ----------

  ghost predicate AllLocated(entries: map<string, Any>, fields: Object, at: Layout, path: seq<Step>)
    reads at.Keys
  {
    entries.Keys <= fields.Keys && forall k :: k in entries ==> Located(entries[k], fields[k], at, path + [Key(k)])
  }

  lemma NothingLocated(fields: Object, path: seq<Step>)
    ensures AllLocated(map[], fields, map[], path)
  {
  }

  lemma OneMoreLocated(entries: map<string, Any>, fields: Object, at: Layout, path: seq<Step>, k: string, child: Any,
                       more: Layout)
    requires AllLocated(entries, fields, at, path) && k in fields && Located(child, fields[k], more, path + [Key(k)])
    requires at.Keys !! more.Keys
    ensures AllLocated(entries[k := child], fields, at + more, path)
  {
    hide Located;
    forall j | j in entries
      ensures Located(entries[j], fields[j], at + more, path + [Key(j)])
    {
      LocatedMore(entries[j], fields[j], at, path + [Key(j)], at + more);
    }
    LocatedMore(child, fields[k], more, path + [Key(k)], at + more);
  }

  lemma MapLocated(m: GoMap, fields: Object, inner: Layout, path: seq<Step>)
    requires m.entries.Keys == fields.Keys && AllLocated(m.entries, fields, inner, path) && m !in inner
    ensures Located(MapRef(m), Obj(fields), inner[m := path], path)
  {
    var at := inner[m := path];
    forall k | k in fields ensures Located(m.entries[k], fields[k], at, path + [Key(k)]) {
      LocatedMore(m.entries[k], fields[k], inner, path + [Key(k)], at);
    }
  }

  ghost predicate ItemsLocated(out: seq<Any>, items: seq<Value>, at: Layout, path: seq<Step>)
    reads at.Keys
  {
    |out| <= |items| && forall i :: 0 <= i < |out| ==> Located(out[i], items[i], at, path + [Index(i)])
  }

  lemma OneMoreItem(out: seq<Any>, items: seq<Value>, at: Layout, path: seq<Step>, child: Any, more: Layout)
    requires ItemsLocated(out, items, at, path) && |out| < |items|
    requires Located(child, items[|out|], more, path + [Index(|out|)]) && at.Keys !! more.Keys
    ensures ItemsLocated(out + [child], items, at + more, path)
  {
    hide Located;
    forall i | 0 <= i < |out| ensures Located(out[i], items[i], at + more, path + [Index(i)]) {
      LocatedMore(out[i], items[i], at, path + [Index(i)], at + more);
    }
    LocatedMore(child, items[|out|], more, path + [Index(|out|)], at + more);
  }

  lemma SliceLocated(s: GoSlice, items: seq<Value>, inner: Layout, path: seq<Step>)
    requires |s.items| == |items| && ItemsLocated(s.items, items, inner, path) && s !in inner
    ensures Located(SliceRef(s), Arr(items), inner[s := path], path)
  {
    var at := inner[s := path];
    forall i | 0 <= i < |items| ensures Located(s.items[i], items[i], at, path + [Index(i)]) {
      LocatedMore(s.items[i], items[i], inner, path + [Index(i)], at);
    }
  }

  /** New containers that spell out a value. */
  method Build(v: Value, ghost path: seq<Step>) returns (a: Any, ghost at: Layout)
    ensures Located(a, v, at, path) && fresh(at.Keys)
    decreases v, 2
  {
    match v
    case Obj(fields) =>
      var m;
      m, at := BuildMap(fields, path);
      a := MapRef(m);
    case Arr(items) =>
      var out: seq<Any> := [];
      ghost var inner: Layout := map[];
      for i := 0 to |items|
        invariant |out| == i && fresh(inner.Keys) && ItemsLocated(out, items, inner, path)
      {
        var child, more := Build(items[i], path + [Index(i)]);
        OneMoreItem(out, items, inner, path, child, more);
        out, inner := out + [child], inner + more;
      }
      var s := new GoSlice(out);
      SliceLocated(s, items, inner, path);
      a, at := SliceRef(s), inner[s := path];
    case _ => a, at := Scalar(v), map[];
  }

  method BuildEntries(fields: Object, ghost path: seq<Step>) returns (entries: map<string, Any>, ghost inner: Layout)
    ensures entries.Keys == fields.Keys && AllLocated(entries, fields, inner, path) && fresh(inner.Keys)
    decreases Obj(fields), 0
  {
    hide Located, AllLocated;
    NothingLocated(fields, path);
    entries, inner := map[], map[];
    var rest := fields.Keys;
    while rest != {}
      invariant rest <= fields.Keys && entries.Keys == fields.Keys - rest && fresh(inner.Keys)
      invariant AllLocated(entries, fields, inner, path)
      decreases |rest|
    {
      var k :| k in rest;
      var child, more := Build(fields[k], path + [Key(k)]);
      OneMoreLocated(entries, fields, inner, path, k, child, more);
      entries, inner, rest := entries[k := child], inner + more, rest - {k};
    }
  }

  method BuildMap(fields: Object, ghost path: seq<Step>) returns (m: GoMap, ghost at: Layout)
    ensures Located(MapRef(m), Obj(fields), at, path) && fresh(at.Keys)
    decreases Obj(fields), 1
  {
    var entries, inner := BuildEntries(fields, path);
    m := new GoMap(entries);
    MapLocated(m, fields, inner, path);
    at := inner[m := path];
  }

  ghost predicate AllDenote(entries: map<string, Any>, fields: Object, repr: set<object>)
    reads repr
  {
    entries.Keys == fields.Keys && forall k :: k in entries ==> Denotes(entries[k], fields[k], repr)
  }

  /** The value that containers spell out. */
  method ValueOf(a: Any, ghost v: Value, ghost repr: set<object>) returns (w: Value)
    requires Denotes(a, v, repr)
    ensures w == v
    decreases v, 1
  {
    match a
    case Scalar(x) => w := x;
    case MapRef(m) =>
      var fields := FieldsOf(m.entries, v.fields, repr);
      w := Obj(fields);
    case SliceRef(s) =>
      var items: seq<Value> := [];
      for i := 0 to |s.items|
        invariant items == v.items[..i]
      {
        var item := ValueOf(s.items[i], v.items[i], repr);
        items := items + [item];
      }
      w := Arr(items);
  }

  method FieldsOf(entries: map<string, Any>, ghost v: Object, ghost repr: set<object>) returns (fields: Object)
    requires AllDenote(entries, v, repr)
    ensures fields == v
    decreases Obj(v), 0
  {
    fields := map[];
    var rest := entries.Keys;
    while rest != {}
      invariant rest <= entries.Keys && fields.Keys == entries.Keys - rest
      invariant forall k :: k in fields ==> fields[k] == v[k]
      decreases |rest|
    {
      var k :| k in rest;
      var field := ValueOf(entries[k], v[k], repr);
      fields, rest := fields[k := field], rest - {k};
    }
  }

  /** What lies in its own places spells out the same wherever it is counted in. */
  lemma SpellsOut(m: GoMap, fields: Object, at: Layout, repr: set<object>)
    requires Located(MapRef(m), Obj(fields), at, []) && at.Keys <= repr
    ensures Denotes(MapRef(m), Obj(fields), repr)
  {
    LocatedDenotes(MapRef(m), Obj(fields), at, []);
    DenotesMore(MapRef(m), Obj(fields), at.Keys, repr);
  }

  // ---------- changing one map in place ----------

  /** The contents of containers at some moment. */
  datatype Heap = Heap(maps: map<GoMap, map<string, Any>>, slices: map<GoSlice, seq<Any>>)

  /** The containers still have these contents. */
  ghost predicate Shows(h: Heap, at: Layout)
    reads at.Keys
  {
    && (forall m: GoMap :: m in at ==> m in h.maps && h.maps[m] == m.entries)
    && (forall s: GoSlice :: s in at ==> s in h.slices && h.slices[s] == s.items)
  }

  ghost function HeapOf(at: Layout): (h: Heap)
    reads at.Keys
    ensures Shows(h, at)
  {
    Heap(map m: GoMap | m in at.Keys :: m.entries, map s: GoSlice | s in at.Keys :: s.items)
  }

  /** What `Located` says, at the moment the contents were taken. */
  ghost predicate LocatedIn(h: Heap, a: Any, v: Value, at: Layout, path: seq<Step>)
    decreases v
  {
    match v
    case Obj(fields) =>
      && a.MapRef? && a.m in at && at[a.m] == path && a.m in h.maps && h.maps[a.m].Keys == fields.Keys
      && forall k :: k in fields ==> LocatedIn(h, h.maps[a.m][k], fields[k], at, path + [Key(k)])
    case Arr(items) =>
      && a.SliceRef? && a.s in at && at[a.s] == path && a.s in h.slices && |h.slices[a.s]| == |items|
      && forall i :: 0 <= i < |items| ==> LocatedIn(h, h.slices[a.s][i], items[i], at, path + [Index(i)])
    case _ => a == Scalar(v)
  }

  lemma {:induction false} LocatedShown(h: Heap, a: Any, v: Value, at: Layout, path: seq<Step>)
    requires Shows(h, at)
    ensures Located(a, v, at, path) <==> LocatedIn(h, a, v, at, path)
    decreases v
  {
    match v
    case Obj(fields) =>
      if a.MapRef? && a.m in at && a.m.entries.Keys == fields.Keys {
        forall k | k in fields
          ensures Located(a.m.entries[k], fields[k], at, path + [Key(k)])
             <==> LocatedIn(h, h.maps[a.m][k], fields[k], at, path + [Key(k)])
        {
          LocatedShown(h, a.m.entries[k], fields[k], at, path + [Key(k)]);
        }
      }
    case Arr(items) =>
      if a.SliceRef? && a.s in at && |a.s.items| == |items| {
        forall i | 0 <= i < |items|
          ensures Located(a.s.items[i], items[i], at, path + [Index(i)])
             <==> LocatedIn(h, h.slices[a.s][i], items[i], at, path + [Index(i)])
        {
          LocatedShown(h, a.s.items[i], items[i], at, path + [Index(i)]);
        }
      }
    case _ =>
  }

  /** Between the two moments no container changed but m. */
  ghost predicate OnlyChanged(h: Heap, h': Heap, at: Layout, m: GoMap) {
    && (forall o: GoMap :: o in at && o != m && o in h.maps ==> o in h'.maps && h'.maps[o] == h.maps[o])
    && (forall o: GoSlice :: o in at && o in h.slices ==> o in h'.slices && h'.slices[o] == h.slices[o])
  }

  /** A change of one map is not seen from containers that do not lie above it. */
  lemma {:induction false} Unmoved(h: Heap, h': Heap, a: Any, v: Value, at: Layout, path: seq<Step>, m: GoMap)
    requires LocatedIn(h, a, v, at, path) && m in at && !(path <= at[m]) && OnlyChanged(h, h', at, m)
    ensures LocatedIn(h', a, v, at, path)
    decreases v
  {
    match v
    case Obj(fields) =>
      forall k | k in fields ensures LocatedIn(h', h'.maps[a.m][k], fields[k], at, path + [Key(k)]) {
        Unmoved(h, h', h.maps[a.m][k], fields[k], at, path + [Key(k)], m);
      }
    case Arr(items) =>
      forall i | 0 <= i < |items| ensures LocatedIn(h', h'.slices[a.s][i], items[i], at, path + [Index(i)]) {
        Unmoved(h, h', h.slices[a.s][i], items[i], at, path + [Index(i)], m);
      }
    case _ =>
  }

  lemma {:induction false} LocatedInMore(h: Heap, a: Any, v: Value, at: Layout, path: seq<Step>, more: Layout)
    requires LocatedIn(h, a, v, at, path) && Extends(more, at)
    ensures LocatedIn(h, a, v, more, path)
    decreases v
  {
    match v
    case Obj(fields) =>
      forall k | k in fields ensures LocatedIn(h, h.maps[a.m][k], fields[k], more, path + [Key(k)]) {
        LocatedInMore(h, h.maps[a.m][k], fields[k], at, path + [Key(k)], more);
      }
    case Arr(items) =>
      forall i | 0 <= i < |items| ensures LocatedIn(h, h.slices[a.s][i], items[i], more, path + [Index(i)]) {
        LocatedInMore(h, h.slices[a.s][i], items[i], at, path + [Index(i)], more);
      }
    case _ =>
  }

  /** What lies below the other keys of a map that is changed, or that is on the way to the change. */
  lemma OthersUnmoved(h: Heap, h': Heap, root: GoMap, data: Object, at: Layout, path: seq<Step>, key: string, m: GoMap,
                      more: Layout)
    requires LocatedIn(h, MapRef(root), Obj(data), at, path) && OnlyChanged(h, h', at, m) && Extends(more, at)
    requires m in at && (at[m] == path || path + [Key(key)] <= at[m])
    ensures forall k :: k in data && k != key ==>
              k in h.maps[root] && LocatedIn(h', h.maps[root][k], data[k], more, path + [Key(k)])
  {
    forall k | k in data && k != key ensures LocatedIn(h', h.maps[root][k], data[k], more, path + [Key(k)]) {
      assert LocatedIn(h, h.maps[root][k], data[k], at, path + [Key(k)]);
      if path + [Key(key)] <= at[m] {
        assert at[m][|path|] == (path + [Key(key)])[|path|] && (path + [Key(k)])[|path|] == Key(k);
      }
      Unmoved(h, h', h.maps[root][k], data[k], at, path + [Key(k)], m);
      LocatedInMore(h', h.maps[root][k], data[k], at, path + [Key(k)], more);
    }
  }

  function Keys(keys: seq<string>): seq<Step> {
    seq(|keys|, i requires 0 <= i < |keys| => Key(keys[i]))
  }

  /** Following the keys from one map leads to the other. */
  ghost predicate Leads(root: GoMap, keys: seq<string>, m: GoMap, repr: set<object>)
    reads repr
    decreases |keys|
  {
    && root in repr
    && (if keys == [] then root == m
        else
          && keys[0] in root.entries && root.entries[keys[0]].MapRef?
          && Leads(root.entries[keys[0]].m, keys[1..], m, repr))
  }

  lemma KeysUnfold(keys: seq<string>)
    requires keys != []
    ensures Keys(keys) == [Key(keys[0])] + Keys(keys[1..])
  {
  }

  /** What the keys lead to lies where they say, and denotes what the value holds there. */
  lemma {:induction false} LeadsToLocated(root: GoMap, data: Object, at: Layout, path: seq<Step>,
                                          keys: seq<string>, m: GoMap)
    requires Located(MapRef(root), Obj(data), at, path) && Leads(root, keys, m, at.Keys)
    ensures m in at && at[m] == path + Keys(keys) && Way(data, keys)
    ensures Located(MapRef(m), Obj(ChildAt(data, keys)), at, path + Keys(keys))
    decreases |keys|
  {
    if keys == [] {
      assert path + Keys(keys) == path;
    } else {
      var key := keys[0];
      assert key in data && Located(root.entries[key], data[key], at, path + [Key(key)]);
      LeadsToLocated(root.entries[key].m, Child(data, key), at, path + [Key(key)], keys[1..], m);
      KeysUnfold(keys);
      assert path + [Key(key)] + Keys(keys[1..]) == path + Keys(keys);
    }
  }

  lemma {:induction false} LeadsFurther(root: GoMap, keys: seq<string>, m: GoMap, key: string, repr: set<object>)
    requires Leads(root, keys, m, repr) && m in repr
    requires key in m.entries && m.entries[key].MapRef? && m.entries[key].m in repr
    ensures Leads(root, keys + [key], m.entries[key].m, repr)
    decreases |keys|
  {
    if keys != [] {
      LeadsFurther(root.entries[keys[0]].m, keys[1..], m, key, repr);
      assert (keys + [key])[1..] == keys[1..] + [key];
    } else {
      assert (keys + [key])[1..] == [];
    }
  }

  /** What `Leads` says, at the moment the contents were taken. */
  ghost predicate LeadsIn(h: Heap, root: GoMap, keys: seq<string>, m: GoMap, repr: set<object>)
    decreases |keys|
  {
    && root in repr && root in h.maps
    && (if keys == [] then root == m
        else
          && keys[0] in h.maps[root] && h.maps[root][keys[0]].MapRef?
          && LeadsIn(h, h.maps[root][keys[0]].m, keys[1..], m, repr))
  }

  lemma {:induction false} LeadsShown(h: Heap, root: GoMap, keys: seq<string>, m: GoMap, at: Layout)
    requires Shows(h, at)
    ensures Leads(root, keys, m, at.Keys) <==> LeadsIn(h, root, keys, m, at.Keys)
    decreases |keys|
  {
    if keys != [] && root in at && keys[0] in root.entries && root.entries[keys[0]].MapRef? {
      LeadsShown(h, root.entries[keys[0]].m, keys[1..], m, at);
    }
  }

  /** Setting one entry of the map that the keys lead to sets that location of the denoted value, and only that. */
  lemma {:induction false} EntrySet(h: Heap, h': Heap, root: GoMap, data: Object, at: Layout, path: seq<Step>,
                                    keys: seq<string>, m: GoMap, key: string, child: Any, w: Value, more: Layout)
    requires LocatedIn(h, MapRef(root), Obj(data), at, path) && LeadsIn(h, root, keys, m, at.Keys)
    requires m in at && at[m] == path + Keys(keys) && m in h.maps && OnlyChanged(h, h', at, m)
    requires m in h'.maps && h'.maps[m] == h.maps[m][key := child]
    requires Extends(more, at) && LocatedIn(h', child, w, more, path + Keys(keys) + [Key(key)])
    requires NoBlank(keys) && key != ""
    ensures LocatedIn(h', MapRef(root), Obj(WriteParts(data, keys + [key], w)), more, path)
    ensures LeadsIn(h', root, keys, m, more.Keys)
    decreases |keys|
  {
    hide LocatedIn, WriteParts, Extends;
    if keys == [] {
      assert path + Keys(keys) == path && keys + [key] == [key];
      RootLocated(h, root, data, at, path, more);
      OthersUnmoved(h, h', root, data, at, path, key, root, more);
      Reassembled(h', root, data, key, w, more, path);
      OneKey(data, key, w);
    } else {
      var k0, rest := keys[0], keys[1..];
      var next := h.maps[root][k0].m;
      KeysUnfold(keys);
      assert path + Keys(keys) == path + [Key(k0)] + Keys(rest);
      RootLocated(h, root, data, at, path, more);
      FirstKeyLocated(h, root, data, at, path, k0);
      EntrySet(h, h', next, Child(data, k0), at, path + [Key(k0)], rest, m, key, child, w, more);
      assert root != m;
      OthersUnmoved(h, h', root, data, at, path, k0, m, more);
      assert keys + [key] == [k0] + (rest + [key]);
      BelowFirstKey(data, k0, rest + [key], w);
      Reassembled(h', root, data, k0, Obj(WriteParts(Child(data, k0), rest + [key], w)), more, path);
    }
  }

  lemma RootLocated(h: Heap, root: GoMap, data: Object, at: Layout, path: seq<Step>, more: Layout)
    requires LocatedIn(h, MapRef(root), Obj(data), at, path) && Extends(more, at)
    ensures root in at && at[root] == path && root in more && more[root] == path
    ensures root in h.maps && h.maps[root].Keys == data.Keys
  {
  }

  lemma FirstKeyLocated(h: Heap, root: GoMap, data: Object, at: Layout, path: seq<Step>, key: string)
    requires LocatedIn(h, MapRef(root), Obj(data), at, path)
    requires key in h.maps[root] && h.maps[root][key].MapRef?
    ensures LocatedIn(h, h.maps[root][key], Obj(Child(data, key)), at, path + [Key(key)])
  {
    assert LocatedIn(h, h.maps[root][key], data[key], at, path + [Key(key)]);
  }

  lemma Reassembled(h: Heap, root: GoMap, data: Object, key: string, inner: Value, at: Layout, path: seq<Step>)
    requires root in at && at[root] == path && root in h.maps && h.maps[root].Keys == data.Keys + {key}
    requires LocatedIn(h, h.maps[root][key], inner, at, path + [Key(key)])
    requires forall k :: k in data && k != key ==> LocatedIn(h, h.maps[root][k], data[k], at, path + [Key(k)])
    ensures LocatedIn(h, MapRef(root), Obj(data[key := inner]), at, path)
  {
  }

  // ---------- writing along a path ----------

  /** The same containers, lying below another path. */
  ghost function Moved(at: Layout, src: seq<Step>, dst: seq<Step>): Layout {
    map o | o in at && src <= at[o] :: dst + at[o][|src|..]
  }

  lemma {:induction false} MovedLocated(a: Any, v: Value, at: Layout, src: seq<Step>, dst: seq<Step>, rest: seq<Step>)
    requires Located(a, v, at, src + rest)
    ensures Located(a, v, Moved(at, src, dst), dst + rest)
    decreases v
  {
    var moved := Moved(at, src, dst);
    match v
    case Obj(fields) =>
      forall k | k in fields ensures Located(a.m.entries[k], fields[k], moved, dst + rest + [Key(k)]) {
        assert src + rest + [Key(k)] == src + (rest + [Key(k)]) && dst + rest + [Key(k)] == dst + (rest + [Key(k)]);
        MovedLocated(a.m.entries[k], fields[k], at, src, dst, rest + [Key(k)]);
      }
    case Arr(items) =>
      forall i | 0 <= i < |items| ensures Located(a.s.items[i], items[i], moved, dst + rest + [Index(i)]) {
        assert src + rest + [Index(i)] == src + (rest + [Index(i)]) && dst + rest + [Index(i)] == dst + (rest + [Index(i)]);
        MovedLocated(a.s.items[i], items[i], at, src, dst, rest + [Index(i)]);
      }
    case _ =>
  }

  lemma LeadsToItself(root: GoMap, data: Object, at: Layout, path: seq<Step>)
    requires Located(MapRef(root), Obj(data), at, path)
    ensures Leads(root, [], root, at.Keys)
  {
  }

  /** A container that was elsewhere has been put under a key of the map that the keys lead to. */
  lemma EntryPut(h: Heap, root: GoMap, data: Object, at: Layout, path: seq<Step>, keys: seq<string>, m: GoMap,
                 key: string,
                 child: Any, w: Value, placed: Layout, from: seq<Step>)
    returns (more: Layout)
    requires LocatedIn(h, MapRef(root), Obj(data), at, path) && LeadsIn(h, root, keys, m, at.Keys)
    requires m in at && at[m] == path + Keys(keys) && m in h.maps
    requires Shows(h.(maps := h.maps[m := h.maps[m][key := child]]), at)
    requires Located(child, w, placed, from) && placed.Keys !! at.Keys
    requires NoBlank(keys) && key != ""
    ensures Located(MapRef(root), Obj(WriteParts(data, keys + [key], w)), more, path)
    ensures Leads(root, keys, m, more.Keys)
    ensures at.Keys <= more.Keys <= at.Keys + placed.Keys
    ensures child.MapRef? && w.Obj? ==> child.m in more
  {
    hide Leads, LeadsIn, LocatedIn, WriteParts;
    var there := path + Keys(keys) + [Key(key)];
    var moved := Moved(placed, from, there);
    assert from + [] == from && there + [] == there;
    MovedLocated(child, w, placed, from, there, []);
    more := at + moved;
    LocatedMore(child, w, moved, there, more);
    var h' := HeapOf(more);
    LocatedShown(h', child, w, more, there);
    NowChanged(h, h', at, more, m, key, child);
    EntrySet(h, h', root, data, at, path, keys, m, key, child, w, more);
    LocatedShown(h', MapRef(root), Obj(WriteParts(data, keys + [key], w)), more, path);
    LeadsShown(h', root, keys, m, more);
  }

  lemma NowChanged(h: Heap, h': Heap, at: Layout, more: Layout, m: GoMap, key: string, child: Any)
    requires m in at && m in h.maps && Extends(more, at) && Shows(h', more)
    requires Shows(h.(maps := h.maps[m := h.maps[m][key := child]]), at)
    ensures OnlyChanged(h, h', at, m) && m in h'.maps && h'.maps[m] == h.maps[m][key := child]
  {
  }

  /** Puts a container that was elsewhere under a key of the map that the keys lead to. */
  method PutEntry(ghost root: GoMap, m: GoMap, key: string, child: Any, ghost keys: seq<string>, ghost data: Object,
                  ghost at: Layout, ghost path: seq<Step>, ghost w: Value, ghost placed: Layout, ghost from: seq<Step>)
    returns (ghost more: Layout)
    requires Located(MapRef(root), Obj(data), at, path) && Leads(root, keys, m, at.Keys)
    requires Located(child, w, placed, from) && placed.Keys !! at.Keys
    requires NoBlank(keys) && key != ""
    modifies m
    ensures m.entries == old(m.entries)[key := child]
    ensures Located(MapRef(root), Obj(WriteParts(data, keys + [key], w)), more, path)
    ensures Leads(root, keys, m, more.Keys)
    ensures at.Keys <= more.Keys <= at.Keys + placed.Keys
    ensures child.MapRef? && w.Obj? ==> child.m in more
  {
    hide Located, LocatedIn, Leads, LeadsIn, WriteParts;
    ghost var h := HeapOf(at);
    LeadsToLocated(root, data, at, path, keys, m);
    LocatedShown(h, MapRef(root), Obj(data), at, path);
    LeadsShown(h, root, keys, m, at);
    m.entries := m.entries[key := child];
    more := EntryPut(h, root, data, at, path, keys, m, key, child, w, placed, from);
  }

  lemma EntryIsLocated(m: GoMap, fields: Object, at: Layout, path: seq<Step>, key: string)
    requires Located(MapRef(m), Obj(fields), at, path)
    ensures key in m.entries <==> key in fields
    ensures key in fields ==> (m.entries[key].MapRef? <==> fields[key].Obj?)
    ensures key in fields && fields[key].Obj? ==> m.entries[key].m in at
  {
    assert key in fields ==> Located(m.entries[key], fields[key], at, path + [Key(key)]);
  }

  lemma EmptyMapLocated(m: GoMap)
    requires m.entries == map[]
    ensures Located(MapRef(m), Obj(map[]), map[m := []], [])
  {
  }

  lemma NoChild(m: Object, key: string)
    requires !(key in m && m[key].Obj?)
    ensures Child(m, key) == map[]
  {
  }

  /** What a step into an object, made when missing, leaves of the value. */
  function Entered(data: Object, keys: seq<string>, part: string): Object {
    var fields := ChildAt(data, keys);
    if part in fields && fields[part].Obj? then data else WriteParts(data, keys + [part], Obj(map[]))
  }

  lemma EnteredIsOnTheWay(data: Object, keys: seq<string>, part: string, rest: seq<string>, v: Value)
    requires NoBlank(keys) && part != "" && rest != []
    ensures WriteParts(Entered(data, keys, part), keys + [part] + rest, v) == WriteParts(data, keys + [part] + rest, v)
  {
    hide WriteParts;
    var fields := ChildAt(data, keys);
    if !(part in fields && fields[part].Obj?) {
      NoChild(fields, part);
      MissingStep(data, keys, part, rest, v);
    }
  }

  /** One step of the walk: the map under the key, made when there is none. */
  method Enter(ghost root: GoMap, current: GoMap, part: string, ghost keys: seq<string>, ghost data: Object,
               ghost at: Layout, ghost path: seq<Step>)
    returns (next: GoMap, ghost now: Layout)
    requires Located(MapRef(root), Obj(data), at, path) && Leads(root, keys, current, at.Keys)
    requires NoBlank(keys) && part != ""
    modifies at.Keys
    ensures Located(MapRef(root), Obj(Entered(data, keys, part)), now, path)
    ensures Leads(root, keys + [part], next, now.Keys)
    ensures at.Keys <= now.Keys && fresh(now.Keys - at.Keys)
  {
    hide Located, WriteParts, Leads, Extends, Way, ChildAt, Child, Moved;
    now := at;
    LeadsToLocated(root, data, at, path, keys, current);
    EntryIsLocated(current, ChildAt(data, keys), at, path + Keys(keys), part);
    if !(part in current.entries && current.entries[part].MapRef?) {
      next := new GoMap(map[]);
      EmptyMapLocated(next);
      now := PutEntry(root, current, part, MapRef(next), keys, data, at, path, Obj(map[]), map[next := []], []);
    }
    LeadsFurther(root, keys, current, part, now.Keys);
    next := current.entries[part].m;
  }

  lemma BlankIsSkipped(seen: Object, keys: seq<string>, parts: seq<string>, i: nat, v: Value)
    requires i < |parts| && parts[i] == "" && NoBlank(keys) && Way(seen, keys)
    ensures if i + 1 < |parts| then WriteParts(seen, keys + parts[i + 1..], v) == WriteParts(seen, keys + parts[i..], v)
            else WriteParts(seen, keys + parts[i..], v) == seen
  {
    hide WriteParts, Way;
    var rest := parts[i + 1..];
    assert parts[i..] == [""] + rest && keys + parts[i..] == keys + [""] + rest;
    BlankStep(seen, keys, rest, v);
    if rest == [] {
      BlankEndStep(seen, keys, v);
      assert keys + parts[i..] == keys + [""];
    }
  }

  lemma StepIsTaken(seen: Object, keys: seq<string>, parts: seq<string>, i: nat, v: Value)
    requires i + 1 < |parts| && parts[i] != "" && NoBlank(keys)
    ensures WriteParts(Entered(seen, keys, parts[i]), keys + [parts[i]] + parts[i + 1..], v)
         == WriteParts(seen, keys + parts[i..], v)
  {
    assert keys + parts[i..] == keys + [parts[i]] + parts[i + 1..];
    EnteredIsOnTheWay(seen, keys, parts[i], parts[i + 1..], v);
  }

  /**
   `writeParts`, in place, from the map that the keys lead to: the walk makes missing steps
   as it goes, and nobody who reads the root afterwards sees anything but the path write.
   */
  method WritePath(ghost root: GoMap, start: GoMap, parts: seq<string>, value: Any,
                   ghost base: seq<string>, ghost data: Object, ghost at: Layout, ghost path: seq<Step>,
                   ghost v: Value, ghost written: Layout, ghost from: seq<Step>)
    returns (ghost now: Layout)
    requires Located(MapRef(root), Obj(data), at, path) && Leads(root, base, start, at.Keys) && NoBlank(base)
    requires Located(value, v, written, from) && at.Keys !! written.Keys
    modifies at.Keys
    ensures Located(MapRef(root), Obj(WriteParts(data, base + [""] + parts, v)), now, path)
    ensures at.Keys <= now.Keys && fresh(now.Keys - at.Keys - written.Keys)
  {
    hide *;
    var current := start;
    ghost var keys: seq<string>, seen := base, data;
    now := at;
    LeadsToLocated(root, data, at, path, base, start);
    WriteStarts(data, base, parts, v);
    for i := 0 to |parts|
      invariant Located(MapRef(root), Obj(seen), now, path)
      invariant Leads(root, keys, current, now.Keys) && NoBlank(keys)
      invariant if i < |parts| then WriteParts(seen, keys + parts[i..], v) == WriteParts(data, base + [""] + parts, v)
                else seen == WriteParts(data, base + [""] + parts, v)
      invariant at.Keys <= now.Keys && fresh(now.Keys - at.Keys) && now.Keys !! written.Keys
    {
      var part := parts[i];
      LeadsToLocated(root, seen, now, path, keys, current);
      if part == "" {
        BlankIsSkipped(seen, keys, parts, i, v);
        continue;
      }
      if i == |parts| - 1 {
        assert keys + parts[i..] == keys + [part];
        now := PutEntry(root, current, part, value, keys, seen, now, path, v, written, from);
        return;
      }
      StepIsTaken(seen, keys, parts, i, v);
      NotBlankExtends(keys, part);
      var next, grown := Enter(root, current, part, keys, seen, now, path);
      current, now, seen, keys := next, grown, Entered(seen, keys, part), keys + [part];
    }
  }

  lemma WriteStarts(data: Object, base: seq<string>, parts: seq<string>, v: Value)
    requires NoBlank(base) && Way(data, base)
    ensures if parts == [] then data == WriteParts(data, base + [""] + parts, v)
            else WriteParts(data, base + parts[0..], v) == WriteParts(data, base + [""] + parts, v)
  {
    hide WriteParts;
    BlankStep(data, base, parts, v);
    assert parts[0..] == parts;
    if parts == [] {
      BlankEndStep(data, base, v);
      assert base + [""] + parts == base + [""];
    }
  }

  lemma NotBlankExtends(keys: seq<string>, part: string)
    requires NoBlank(keys) && part != ""
    ensures NoBlank(keys + [part])
  {
  }
}
