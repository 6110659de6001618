/** Reading and writing by dotted path, and cutting arrays into chunks. */
module TransformPaths {
  import opened JsonValues
  import opened Text

  // ---------- paths ----------

  predicate IsDigit(c: char) { '0' <= c <= '9' }

  function ParseDigits(s: string): (n: Option<nat>) {
    if s == "" then None
    else if !IsDigit(s[|s| - 1]) then None
    else
      var d := s[|s| - 1] as nat - '0' as nat;
      if |s| == 1 then Some(d)
      else
        var front := ParseDigits(s[..|s| - 1]);
        if front.None? then None else Some(10 * front.value + d)
  }

  /** strconv.Atoi: decimal digits behind an optional sign. */
  function ParseInt(s: string): Option<int> {
    var signed := s != "" && s[0] in {'+', '-'};
    var digits := ParseDigits(if signed then s[1..] else s);
    if digits.None? then None
    else
      var n: int := digits.value;
      Some(if signed && s[0] == '-' then -n else n)
  }

  /** A non-empty text of digits is read as the number it spells, and no other text is. */
  lemma {:induction false} ParseDigitsExactly(s: string)
    ensures ParseDigits(s) == if s != "" && (forall c :: c in s ==> '0' <= c <= '9') then Some(Decimal(s)) else None
  {
    if s != "" {
      var front, last := s[..|s| - 1], s[|s| - 1];
      assert s == front + [last] && last in s;
      assert forall c :: c in s <==> c in front || c == last;
      ParseDigitsExactly(front);
      assert Decimal(s) == 10 * Decimal(front) + (last as int - '0' as int);
      if front == "" { assert Decimal(front) == 0; }
    }
  }

  /** An index is written in digits, perhaps behind a sign. */
  lemma ParseIntExactly(s: string, n: int)
    ensures ParseInt(s) == Some(n) <==>
            exists sign, digits :: s == sign + digits && sign in {"", "+", "-"} && digits != ""
              && (forall c :: c in digits ==> '0' <= c <= '9') && n == if sign == "-" then -Decimal(digits) else Decimal(digits)
  {
    var signed := s != "" && s[0] in {'+', '-'};
    var sign, digits := if signed then s[..1] else "", if signed then s[1..] else s;
    ParseDigitsExactly(digits);
    assert s == sign + digits;
    forall a: string, b: string
      | s == a + b && a in {"", "+", "-"} && b != "" && forall c :: c in b ==> '0' <= c <= '9'
      ensures a == sign && b == digits
    {
      assert b[0] in b;
      if a != "" { assert s[0] == a[0] && s[1..] == b; } else { assert s == b; }
    }
    if digits != "" && forall c :: c in digits ==> '0' <= c <= '9' {
      assert sign == (if !signed then "" else if s[0] == '+' then "+" else "-");
    }
  }

  /** `readTransformPath` on the parts of the path: blank parts are skipped, arrays are indexed. */
  function ReadPath(v: Value, parts: seq<string>): Option<Value>
    decreases |parts|
  {
    if parts == [] then Some(v)
    else
      var part := TrimSpace(parts[0]);
      if part == "" then ReadPath(v, parts[1..])
      else match v
        case Obj(m) => if part in m then ReadPath(m[part], parts[1..]) else None
        case Arr(items) =>
          var index := ParseInt(part);
          if index.Some? && 0 <= index.value < |items| then ReadPath(items[index.value], parts[1..]) else None
        case _ => None
  }

  /** Blank parts are skipped; a part names a key of an object, or an index of an array; nothing is below a scalar. */
  lemma ReadPathSteps(part: string, rest: seq<string>, m: Object, items: seq<Value>)
    ensures TrimSpace(part) == "" ==> forall v :: ReadPath(v, [part] + rest) == ReadPath(v, rest)
    ensures TrimSpace(part) != "" ==>
              && (ReadPath(Obj(m), [part] + rest)
                  == if TrimSpace(part) in m then ReadPath(m[TrimSpace(part)], rest) else None)
              && (forall n: nat | n < |items| && ParseInt(TrimSpace(part)) == Some(n) ::
                    ReadPath(Arr(items), [part] + rest) == ReadPath(items[n], rest))
              && ((forall n: nat | n < |items| :: ParseInt(TrimSpace(part)) != Some(n)) ==>
                    ReadPath(Arr(items), [part] + rest) == None)
              && (forall v: Value | !v.Obj? && !v.Arr? :: ReadPath(v, [part] + rest) == None)
  {
    hide TrimSpace, ParseInt;
    assert ([part] + rest)[1..] == rest;
  }

  /** `writeTransformPath` on the parts of the path: the object afterwards, and what is returned. */
  function WritePath(m: Object, parts: seq<string>, v: Value, create: bool): (Object, bool)
    decreases |parts|
  {
    if parts == [] then (m, false)
    else
      var part, rest := TrimSpace(parts[0]), parts[1..];
      if part == "" then WritePath(m, rest, v, create)
      else if rest == [] then (m[part := v], true)
      else if !(part in m && m[part].Obj?) && !create then (m, false)
      else
        var (child, done) := WritePath(Child(m, part), rest, v, create);
        (m[part := Obj(child)], done)
  }

  /** A write that reports success is read back by the same path. */
  lemma {:induction false} WrittenPathReadsBack(m: Object, parts: seq<string>, v: Value, create: bool)
    requires WritePath(m, parts, v, create).1
    ensures ReadPath(Obj(WritePath(m, parts, v, create).0), parts) == Some(v)
    decreases |parts|
  {
    hide TrimSpace;
    var part, rest := TrimSpace(parts[0]), parts[1..];
    if part == "" {
      WrittenPathReadsBack(m, rest, v, create);
    } else if rest != [] {
      WrittenPathReadsBack(Child(m, part), rest, v, create);
    }
  }

  /** Everything on the way is an object already. */
  predicate LeadsThroughObjects(m: Object, parts: seq<string>)
    decreases |parts|
  {
    if parts == [] then true
    else
      var part := TrimSpace(parts[0]);
      if part == "" then LeadsThroughObjects(m, parts[1..])
      else part in m && m[part].Obj? && LeadsThroughObjects(m[part].fields, parts[1..])
  }

  /** When missing steps may be created, exactly the paths with a blank end are refused. */
  lemma {:induction false} BlankEndIsRefused(m: Object, parts: seq<string>, v: Value)
    requires parts != []
    ensures WritePath(m, parts, v, true).1 <==> TrimSpace(parts[|parts| - 1]) != ""
    decreases |parts|
  {
    hide TrimSpace;
    var part, rest := TrimSpace(parts[0]), parts[1..];
    if rest != [] {
      assert rest[|rest| - 1] == parts[|parts| - 1];
      BlankEndIsRefused(m, rest, v);
      BlankEndIsRefused(Child(m, part), rest, v);
    }
  }

  /**
   A refused write leaves the object alone exactly when nothing may be created, or the path
   runs through objects all the way: otherwise the steps are created before the refusal.
   */
  lemma {:induction false} RefusedWriteChangesNothingExactly(m: Object, parts: seq<string>, v: Value, create: bool)
    requires !WritePath(m, parts, v, create).1
    ensures WritePath(m, parts, v, create).0 == m <==> !create || LeadsThroughObjects(m, parts)
    decreases |parts|
  {
    hide TrimSpace;
    if parts != [] {
      var part, rest := TrimSpace(parts[0]), parts[1..];
      if part == "" {
        RefusedWriteChangesNothingExactly(m, rest, v, create);
      } else if rest != [] && ((part in m && m[part].Obj?) || create) {
        RefusedWriteChangesNothingExactly(Child(m, part), rest, v, create);
        var child := WritePath(Child(m, part), rest, v, create).0;
        if m[part := Obj(child)] == m { assert m[part] == Obj(child); }
        if part in m && m[part] == Obj(child) { assert m[part := Obj(child)] == m; }
      }
    }
  }

  /** The path "a." is refused, and the value at a is gone all the same. */
  lemma BlankEndStillOverwrites(v: Value)
    ensures WritePath(map["a" := Num(1)], ["a", ""], v, true) == (map["a" := Obj(map[])], false)
  {
    TrimSpaceTrims("a");
    TrimSpaceTrims("");
    assert ["a", ""][1..] == [""] && [""][1..] == [];
    var none: Object := map[];
    assert WritePath(none, [""], v, true) == WritePath(none, [], v, true) == (none, false);
    assert Child(map["a" := Num(1)], "a") == none;
    assert map["a" := Num(1)]["a" := Obj(none)] == map["a" := Obj(none)];
  }

  // ---------- chunks ----------

  datatype Result<T> = Success(value: T) | InvalidInput

  ghost function Flatten(chunks: seq<seq<Value>>): seq<Value> {
    if chunks == [] then [] else Flatten(chunks[..|chunks| - 1]) + chunks[|chunks| - 1]
  }

  /** The piece stands in the array from this position on. */
  ghost predicate IsPiece(items: seq<Value>, piece: seq<Value>, from: int) {
    0 <= from <= |items| - |piece| && piece == items[from..from + |piece|]
  }

  /** `transformArrayChunk`: full chunks but for the last, which together are the array. */
  method ChunkArray(value: Value, size: int) returns (r: Result<seq<seq<Value>>>)
    ensures r.Success? <==> value.Arr? && size > 0
    ensures r.Success? ==>
              && Flatten(r.value) == value.items
              && (forall i :: 0 <= i < |r.value| ==> 0 < |r.value[i]| <= size)
              && (forall i :: 0 <= i < |r.value| - 1 ==> |r.value[i]| == size)
              && (forall i :: 0 <= i < |r.value| ==> IsPiece(value.items, r.value[i], i * size))
  {
    if !value.Arr? || size <= 0 { return InvalidInput; }
    var items, chunks := value.items, [];
    var start := 0;
    while start < |items|
      invariant 0 <= start && Flatten(chunks) == items[..if start < |items| then start else |items|]
      invariant forall i :: 0 <= i < |chunks| ==> 0 < |chunks[i]| <= size
      invariant forall i :: 0 <= i < |chunks| - 1 ==> |chunks[i]| == size
      invariant start < |items| && chunks != [] ==> |chunks[|chunks| - 1]| == size
      decreases |items| - start
    {
      var end := start + size;
      if end > |items| { end := |items|; }
      assert items[..end] == items[..start] + items[start..end];
      ghost var before := chunks;
      chunks := chunks + [items[start..end]];
      assert chunks[..|chunks| - 1] == before;
      start := start + size;
    }
    r := Success(chunks);
    forall i | 0 <= i < |chunks| ensures IsPiece(items, chunks[i], i * size) {
      PieceStands(chunks, size, i);
    }
  }

  lemma {:induction false} FullLength(chunks: seq<seq<Value>>, size: nat)
    requires forall i :: 0 <= i < |chunks| ==> |chunks[i]| == size
    ensures |Flatten(chunks)| == |chunks| * size
  {
    if chunks != [] {
      FullLength(chunks[..|chunks| - 1], size);
      assert (|chunks| - 1) * size + size == |chunks| * size;
    }
  }

  /** Behind full chunks, a chunk stands where they end. */
  lemma {:induction false} PieceStands(chunks: seq<seq<Value>>, size: nat, i: nat)
    requires i < |chunks| && forall j :: 0 <= j < |chunks| - 1 ==> |chunks[j]| == size
    ensures IsPiece(Flatten(chunks), chunks[i], i * size)
    decreases |chunks|
  {
    var k := |chunks| - 1;
    if i == k {
      FullLength(chunks[..k], size);
    } else {
      PieceStands(chunks[..k], size, i);
    }
  }
}
