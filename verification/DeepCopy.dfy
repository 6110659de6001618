/**
 The deep copies the instance store hands out and takes in, and the run context makes for
 every merged result: nested maps and slices are copied container by container, and what was
 shared in the original no longer is in the copy.
 */
module DeepCopy {
  import opened JsonValues
  import opened Containers

  /** `cloneAny`: the copy spells out the same value, consists of new containers only and shares none of them. */
  method CloneAny(a: Any, ghost v: Value, ghost repr: set<object>, ghost path: seq<Step>)
    returns (copy: Any, ghost at: Layout)
    requires Denotes(a, v, repr)
    ensures Located(copy, v, at, path) && fresh(at.Keys)
    decreases v, 1
  {
    match a
    case MapRef(m) =>
      var cloned;
      cloned, at := CloneMap(m, v, repr, path);
      copy := MapRef(cloned);
    case SliceRef(s) =>
      var out;
      out, at := CloneSlice(s, v, repr, path);
      copy := SliceRef(out);
    case Scalar(_) => copy, at := a, map[];
  }

  /** `cloneMapRecursive`, in whatever order the map is iterated. */
  method CloneMap(m: GoMap, ghost v: Value, ghost repr: set<object>, ghost path: seq<Step>)
    returns (copy: GoMap, ghost at: Layout)
    requires Denotes(MapRef(m), v, repr)
    ensures Located(MapRef(copy), v, at, path) && fresh(at.Keys)
    decreases v, 0, 1
  {
    var cloned, inner := CloneEntries(m.entries, v, repr, path);
    copy := new GoMap(cloned);
    at := inner[copy := path];
    hide Denotes, Located, AllDenote, AllLocated;
    MapLocated(copy, v.fields, inner, path);
  }

  method CloneEntries(entries: map<string, Any>, ghost v: Value, ghost repr: set<object>, ghost path: seq<Step>)
    returns (cloned: map<string, Any>, ghost inner: Layout)
    requires v.Obj? && AllDenote(entries, v.fields, repr)
    ensures cloned.Keys == entries.Keys && AllLocated(cloned, v.fields, inner, path) && fresh(inner.Keys)
    decreases v, 0, 0
  {
    hide Denotes, Located, AllLocated;
    NothingLocated(v.fields, path);
    cloned, inner := map[], map[];
    var rest := entries.Keys;
    while rest != {}
      invariant rest <= entries.Keys && cloned.Keys == entries.Keys - rest && fresh(inner.Keys)
      invariant AllLocated(cloned, v.fields, inner, path)
      decreases |rest|
    {
      var k :| k in rest;
      var child, more := CloneAny(entries[k], v.fields[k], repr, path + [Key(k)]);
      OneMoreLocated(cloned, v.fields, inner, path, k, child, more);
      cloned, inner, rest := cloned[k := child], inner + more, rest - {k};
    }
  }

  method CloneSlice(s: GoSlice, ghost v: Value, ghost repr: set<object>, ghost path: seq<Step>)
    returns (copy: GoSlice, ghost at: Layout)
    requires Denotes(SliceRef(s), v, repr)
    ensures Located(SliceRef(copy), v, at, path) && fresh(at.Keys)
    decreases v, 0
  {
    var out: seq<Any> := [];
    ghost var inner: Layout := map[];
    for i := 0 to |s.items|
      invariant |out| == i && fresh(inner.Keys) && ItemsLocated(out, v.items, inner, path)
    {
      var child, more := CloneAny(s.items[i], v.items[i], repr, path + [Index(i)]);
      OneMoreItem(out, v.items, inner, path, child, more);
      out, inner := out + [child], inner + more;
    }
    copy := new GoSlice(out);
    SliceLocated(copy, v.items, inner, path);
    at := inner[copy := path];
  }

  /** Whatever is done to the original afterwards, the copy still spells out the old value. */
  method CopyOutlivesChanges(a: Any, ghost v: Value, ghost repr: set<object>, m: GoMap, entries: map<string, Any>,
                             s: GoSlice, items: seq<Any>)
    returns (copy: Any, ghost at: Layout)
    requires Denotes(a, v, repr)
    modifies m, s
    ensures Located(copy, v, at, []) && fresh(at.Keys)
    ensures m.entries == entries && s.items == items
  {
    copy, at := CloneAny(a, v, repr, []);
    m.entries, s.items := entries, items;
  }
}
