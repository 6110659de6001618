/** Decoded JSON: what the engines pass around as `any`, and the path-addressed objects inside it. */
module JsonValues {
  import opened Text

  type Object = map<string, Value>

  datatype Value =
    | Null
    | Bool(b: bool)
    | Num(n: int)
    | Str(s: string)
    | Arr(items: seq<Value>)
    | Obj(fields: Object)

  /** The object stored under a key, or an empty one when something else or nothing is. */
  function Child(m: Object, key: string): Object {
    if key in m && m[key].Obj? then m[key].fields else map[]
  }

  /** The object that keys lead to, empty where something else or nothing is. */
  function ChildAt(m: Object, keys: seq<string>): Object
    decreases |keys|
  {
    if keys == [] then m else ChildAt(Child(m, keys[0]), keys[1..])
  }

  /** `writeParts`: empty segments are skipped, missing or non-object steps are replaced by objects. */
  function WriteParts(m: Object, parts: seq<string>, v: Value): Object
    decreases |parts|
  {
    if parts == [] then m
    else if parts[0] == "" then WriteParts(m, parts[1..], v)
    else if |parts| == 1 then m[parts[0] := v]
    else m[parts[0] := Obj(WriteParts(Child(m, parts[0]), parts[1..], v))]
  }

  /** `readParts`: empty segments are skipped. */
  function ReadParts(v: Value, parts: seq<string>): Option<Value> {
    if parts == [] then Some(v)
    else if parts[0] == "" then ReadParts(v, parts[1..])
    else if v.Obj? && parts[0] in v.fields then ReadParts(v.fields[parts[0]], parts[1..])
    else None
  }

  predicate NoBlank(parts: seq<string>) {
    forall i :: 0 <= i < |parts| ==> parts[i] != ""
  }

  /** A location inside an object: at least one segment, none empty. */
  predicate Location(parts: seq<string>) {
    parts != [] && NoBlank(parts)
  }

  /** Neither location lies at or below the other. */
  predicate Apart(p: seq<string>, q: seq<string>) {
    !(p <= q) && !(q <= p)
  }

  lemma ApartTail(p: seq<string>, q: seq<string>)
    requires Apart(p, q) && p[0] == q[0]
    ensures |p| > 1 && |q| > 1 && Apart(p[1..], q[1..])
  {
  }

  lemma {:induction false} WriteReadsBack(m: Object, p: seq<string>, v: Value)
    requires Location(p)
    ensures ReadParts(Obj(WriteParts(m, p, v)), p) == Some(v)
    decreases |p|
  {
    if |p| > 1 { WriteReadsBack(Child(m, p[0]), p[1..], v); }
  }

  /** `domainMap` nested by `keys`, then `readParts`. */
  function DomainRead(m: Object, keys: seq<string>, rest: seq<string>): Option<Value>
    decreases |keys|
  {
    if keys == [] then ReadParts(Obj(m), rest) else DomainRead(Child(m, keys[0]), keys[1..], rest)
  }

  lemma {:induction false} ReadFrame(m: Object, p: seq<string>, v: Value, q: seq<string>)
    requires Location(p) && Location(q) && Apart(p, q)
    ensures ReadParts(Obj(WriteParts(m, p, v)), q) == ReadParts(Obj(m), q)
    decreases |p|
  {
    if p[0] == q[0] {
      ApartTail(p, q);
      if p[0] in m && m[p[0]].Obj? {
        ReadFrame(m[p[0]].fields, p[1..], v, q[1..]);
      } else {
        ReadFrame(map[], p[1..], v, q[1..]);
      }
    }
  }

  /** A write does not show through a read at a location apart from it. */
  lemma {:induction false} DomainReadFrame(m: Object, p: seq<string>, v: Value, keys: seq<string>, rest: seq<string>)
    requires Location(p) && NoBlank(keys) && NoBlank(rest) && Apart(p, keys + rest)
    ensures DomainRead(WriteParts(m, p, v), keys, rest) == DomainRead(m, keys, rest)
    decreases |keys|
  {
    if keys == [] {
      assert keys + rest == rest;
      ReadFrame(m, p, v, rest);
    } else if p[0] == keys[0] {
      ApartTail(p, keys + rest);
      assert (keys + rest)[1..] == keys[1..] + rest;
      DomainReadFrame(Child(m, p[0]), p[1..], v, keys[1..], rest);
    }
  }

  /** What a write puts under the first segment of its location. */
  function Placed(m: Object, p: seq<string>, v: Value): Value
    requires Location(p)
  {
    if |p| == 1 then v else Obj(WriteParts(Child(m, p[0]), p[1..], v))
  }

  lemma WriteIsOneUpdate(m: Object, p: seq<string>, v: Value)
    requires Location(p)
    ensures WriteParts(m, p, v) == m[p[0] := Placed(m, p, v)]
    ensures |p| > 1 ==> Location(p[1..])
  {
  }

  lemma UpdatesCommute(m: Object, a: string, x: Value, b: string, y: Value)
    requires a != b
    ensures m[a := x][b := y] == m[b := y][a := x]
  {
  }

  lemma WritesCommuteAside(m: Object, p: seq<string>, v: Value, q: seq<string>, w: Value)
    requires Location(p) && Location(q) && p[0] != q[0]
    ensures WriteParts(WriteParts(m, p, v), q, w) == WriteParts(WriteParts(m, q, w), p, v)
  {
    var x, y := Placed(m, p, v), Placed(m, q, w);
    WriteIsOneUpdate(m, p, v);
    WriteIsOneUpdate(m, q, w);
    WriteIsOneUpdate(m[p[0] := x], q, w);
    WriteIsOneUpdate(m[q[0] := y], p, v);
    UpdatesCommute(m, p[0], x, q[0], y);
  }

  lemma WriteTwiceBelow(m: Object, key: string, p: seq<string>, v: Value, q: seq<string>, w: Value)
    requires Location(p) && |p| > 1 && p[0] == key && Location(q) && |q| > 1 && q[0] == key
    ensures WriteParts(WriteParts(m, p, v), q, w)
         == m[key := Obj(WriteParts(WriteParts(Child(m, key), p[1..], v), q[1..], w))]
  {
  }

  /** Writes at locations apart from each other commute. */
  lemma {:induction false} WritesCommute(m: Object, p: seq<string>, v: Value, q: seq<string>, w: Value)
    requires Location(p) && Location(q) && Apart(p, q)
    ensures WriteParts(WriteParts(m, p, v), q, w) == WriteParts(WriteParts(m, q, w), p, v)
    decreases |p|
  {
    if p[0] == q[0] {
      var key := p[0];
      ApartTail(p, q);
      WriteTwiceBelow(m, key, p, v, q, w);
      WriteTwiceBelow(m, key, q, w, p, v);
      WritesCommute(Child(m, key), p[1..], v, q[1..], w);
    } else {
      WritesCommuteAside(m, p, v, q, w);
    }
  }

  // ---------- walking in on the way of a write ----------

  /** Every step of the keys is an object. */
  predicate Way(m: Object, keys: seq<string>)
    decreases |keys|
  {
    keys == [] || (keys[0] in m && m[keys[0]].Obj? && Way(m[keys[0]].fields, keys[1..]))
  }

  lemma BelowFirstKey(data: Object, key: string, rest: seq<string>, w: Value)
    requires key != "" && rest != []
    ensures WriteParts(data, [key] + rest, w) == data[key := Obj(WriteParts(Child(data, key), rest, w))]
  {
    assert ([key] + rest)[1..] == rest;
  }

  lemma LeadingBlank(m: Object, rest: seq<string>, v: Value)
    ensures WriteParts(m, [""] + rest, v) == WriteParts(m, rest, v)
  {
    assert ([""] + rest)[1..] == rest;
  }

  lemma {:induction false} BlankStep(m: Object, keys: seq<string>, rest: seq<string>, v: Value)
    requires NoBlank(keys)
    ensures rest != [] ==> WriteParts(m, keys + [""] + rest, v) == WriteParts(m, keys + rest, v)
    decreases |keys|
  {
    hide WriteParts, Child;
    if keys == [] {
      assert keys + [""] + rest == [""] + rest && keys + rest == rest;
      LeadingBlank(m, rest, v);
    } else if rest != [] {
      var key, below := keys[0], keys[1..];
      BlankStep(Child(m, key), below, rest, v);
      assert keys + [""] + rest == [key] + (below + [""] + rest) && keys + rest == [key] + (below + rest);
      BelowFirstKey(m, key, below + [""] + rest, v);
      BelowFirstKey(m, key, below + rest, v);
    }
  }

  /** A write that ends in a blank changes nothing when all steps are objects. */
  lemma {:induction false} BlankEndStep(m: Object, keys: seq<string>, v: Value)
    requires NoBlank(keys) && Way(m, keys)
    ensures WriteParts(m, keys + [""], v) == m
    decreases |keys|
  {
    if keys == [] {
      assert keys + [""] == [""];
    } else {
      var key, below := keys[0], keys[1..];
      BlankEndStep(m[key].fields, below, v);
      assert keys + [""] == [key] + (below + [""]);
      BelowFirstKey(m, key, below + [""], v);
    }
  }

  /** A missing step may be made an empty object before writing below it. */
  lemma {:induction false} MissingStep(m: Object, keys: seq<string>, key: string, rest: seq<string>, v: Value)
    requires NoBlank(keys) && key != "" && rest != [] && Child(ChildAt(m, keys), key) == map[]
    ensures WriteParts(WriteParts(m, keys + [key], Obj(map[])), keys + [key] + rest, v)
         == WriteParts(m, keys + [key] + rest, v)
    decreases |keys|
  {
    hide WriteParts, NoBlank;
    if keys == [] {
      assert keys + [key] == [key];
      OneKey(m, key, Obj(map[]));
      BelowFirstKey(m, key, rest, v);
      BelowFirstKey(m[key := Obj(map[])], key, rest, v);
    } else {
      var first, below := keys[0], keys[1..];
      assert keys + [key] == [first] + (below + [key]) && keys + [key] + rest == [first] + (below + [key] + rest);
      NoBlankTail(keys);
      MissingStep(Child(m, first), below, key, rest, v);
      BelowFirstKey(m, first, below + [key], Obj(map[]));
      BelowFirstKey(m, first, below + [key] + rest, v);
      BelowFirstKey(m[first := Obj(WriteParts(Child(m, first), below + [key], Obj(map[])))], first, below + [key] + rest, v);
    }
  }

  lemma NoBlankTail(keys: seq<string>)
    requires keys != [] && NoBlank(keys)
    ensures keys[0] != "" && NoBlank(keys[1..])
  {
  }

  lemma OneKey(data: Object, key: string, w: Value)
    requires key != ""
    ensures WriteParts(data, [key], w) == data[key := w]
  {
  }
}
