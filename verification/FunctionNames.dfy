/**
 Names under which tools and skills are offered to a model: 1 to 64 characters out of
 letters, digits, '_' and '-', different for different keys.
 */
module FunctionNames {
  import opened Sequences
  import opened Text

  const MAX_LENGTH := 64
  const TOKEN_LENGTH := 8
  const MAX_INT := 0x7fff_ffff_ffff_ffff

  predicate IsPlain(c: char) {
    'a' <= c <= 'z' || 'A' <= c <= 'Z' || '0' <= c <= '9' || c == '-'
  }

  predicate IsDash(c: char) { c == '_' || c == '-' }

  predicate Allowed(s: string) {
    forall i :: 0 <= i < |s| ==> IsPlain(s[i]) || s[i] == '_'
  }

  predicate ValidName(s: string) { 1 <= |s| <= MAX_LENGTH && Allowed(s) }

  /** What a model accepts as the name of a function. */
  ghost predicate Offerable(s: string) {
    && 1 <= |s| <= 64
    && forall c :: c in s ==> 'a' <= c <= 'z' || 'A' <= c <= 'Z' || '0' <= c <= '9' || c == '_' || c == '-'
  }

  /** Begins with a letter or a digit. */
  predicate WellBegun(s: string) { s != [] && !IsDash(s[0]) }

  // ---------- sanitizing ----------

  /** Every run of other characters becomes one underscore. */
  function Collapse(s: string): (r: string)
    ensures Allowed(r)
  {
    if s == [] then []
    else
      var front, c := Collapse(s[..|s| - 1]), s[|s| - 1];
      if IsPlain(c) then front + [c] else if EndsUnderscore(front) then front else front + ['_']
  }

  predicate EndsUnderscore(s: string) { s != [] && s[|s| - 1] == '_' }

  function TrimRightDash(s: string): (r: string)
    ensures r <= s && (r == [] || !IsDash(r[|r| - 1]))
    ensures WellBegun(s) ==> WellBegun(r)
  {
    if s != [] && IsDash(s[|s| - 1]) then TrimRightDash(s[..|s| - 1]) else s
  }

  function TrimLeftDash(s: string): (r: string)
    ensures r == [] || !IsDash(r[0])
    ensures Allowed(s) ==> Allowed(r)
  {
    if s != [] && IsDash(s[0]) then TrimLeftDash(s[1..]) else s
  }

  function Sanitized(source: string): (r: string)
    ensures Allowed(r) && (r == [] || WellBegun(r))
  {
    TrimRightDash(TrimLeftDash(Collapse(source)))
  }

  /** Letters, digits and dashes are copied; anything else becomes an underscore, unless one was just written. */
  lemma CollapseTold(s: string, c: char)
    ensures Collapse("") == ""
    ensures Collapse(s + [c]) == Collapse(s) +
              if 'a' <= c <= 'z' || 'A' <= c <= 'Z' || '0' <= c <= '9' || c == '-' then [c]
              else if Collapse(s) != "" && Collapse(s)[|Collapse(s)| - 1] == '_' then "" else "_"
  {
    assert (s + [c])[..|s|] == s;
  }

  /** Exactly the dashes and underscores at the ends go. */
  lemma SanitizedExactly(source: string)
    ensures exists a, b :: Collapse(source) == a + Sanitized(source) + b && OnlyDashes(a) && OnlyDashes(b)
    ensures var name := Sanitized(source);
            name != "" ==> name[0] != '_' && name[0] != '-' && name[|name| - 1] != '_' && name[|name| - 1] != '-'
  {
    hide Collapse;
    var whole := Collapse(source);
    var left := TrimLeftDash(whole);
    var a := LeftDashes(whole);
    var b := RightDashes(left);
    assert whole == a + TrimRightDash(left) + b;
  }

  ghost predicate OnlyDashes(s: string) { forall c :: c in s ==> c == '_' || c == '-' }

  lemma {:induction false} LeftDashes(s: string) returns (a: string)
    ensures s == a + TrimLeftDash(s) && OnlyDashes(a)
  {
    if s != [] && IsDash(s[0]) {
      var rest := LeftDashes(s[1..]);
      a := [s[0]] + rest;
    } else {
      a := "";
    }
  }

  lemma RightDashes(s: string) returns (b: string)
    ensures s == TrimRightDash(s) + b && OnlyDashes(b)
  {
    b := s[|TrimRightDash(s)|..];
    TrimmedDashes(s);
  }

  lemma {:induction false} TrimmedDashes(s: string)
    ensures forall i :: |TrimRightDash(s)| <= i < |s| ==> s[i] == '_' || s[i] == '-'
  {
    if s != [] && IsDash(s[|s| - 1]) { TrimmedDashes(s[..|s| - 1]); }
  }

  /** What sanitizing promises: no underscore next to another, and none at either end. */
  lemma {:induction false} CollapseHasNoDoubles(s: string)
    ensures forall i :: 0 < i < |Collapse(s)| ==> Collapse(s)[i] != '_' || Collapse(s)[i - 1] != '_'
  {
    if s != [] { CollapseHasNoDoubles(s[..|s| - 1]); }
  }

  /** A source that already is a clean name stays as it is. */
  lemma {:induction false} CleanNamesStay(s: string)
    requires Allowed(s) && forall i :: 0 < i < |s| ==> s[i] != '_' || s[i - 1] != '_'
    ensures Collapse(s) == s
    ensures s == [] || (!IsDash(s[0]) && !IsDash(s[|s| - 1])) ==> Sanitized(s) == s
  {
    if s != [] {
      var front := s[..|s| - 1];
      CleanNamesStay(front);
      assert s == front + [s[|s| - 1]];
    }
  }

  /** `sanitizeModelFunctionName` */
  method Sanitize(source: string) returns (name: string)
    ensures name == Sanitized(source)
  {
    var builder: string := [];
    var previousUnderscore := false;
    var i := 0;
    while i < |source|
      invariant 0 <= i <= |source|
      invariant builder == Collapse(source[..i]) && previousUnderscore == EndsUnderscore(builder)
    {
      var r := source[i];
      assert source[..i + 1][..i] == source[..i];
      if IsPlain(r) {
        builder := builder + [r];
        previousUnderscore := false;
      } else if !previousUnderscore {
        builder := builder + ['_'];
        previousUnderscore := true;
      }
      i := i + 1;
    }
    assert source[..i] == source;
    return TrimRightDash(TrimLeftDash(builder));
  }

  /** `truncateModelFunctionName` */
  function Truncated(name: string): (r: string)
    ensures |r| <= MAX_LENGTH && r <= name
    ensures WellBegun(name) ==> WellBegun(r)
  {
    if |name| <= MAX_LENGTH then name else TrimRightDash(name[..MAX_LENGTH])
  }

  /** `safeModelFunctionName` */
  function SafeName(displayName: string, fallback: string): (r: string)
    ensures ValidName(r) && WellBegun(r)
  {
    var source := if TrimSpace(displayName) == "" then fallback else TrimSpace(displayName);
    var name := Sanitized(source);
    var second := if name == "" && TrimSpace(fallback) != "" && TrimSpace(fallback) != source then Sanitized(fallback) else name;
    Truncated(if second == "" then "tool" else second)
  }

  /**
   The display name is sanitized, or the fallback if it is blank; if that leaves nothing,
   another fallback is tried, and then the name is "tool". A name is cut after 64 characters
   at most, and only dashes and underscores before the cut go too.
   */
  lemma SafeNameTold(displayName: string, fallback: string)
    ensures var shown, name := TrimSpace(displayName), SafeName(displayName, fallback);
            var source := if shown != "" then shown else fallback;
            var tried := Sanitized(source) != "" || TrimSpace(fallback) == "" || TrimSpace(fallback) == source;
            var chosen := if tried then Sanitized(source) else Sanitized(fallback);
            IsCutAt(name, if chosen != "" then chosen else "tool", 64)
  {
    hide TrimSpace, Sanitized;
    var shown := TrimSpace(displayName);
    var source := if shown != "" then shown else fallback;
    CutsAreCuts(Sanitized(source));
    CutsAreCuts(Sanitized(fallback));
    CutsAreCuts("tool");
  }

  /** The whole name, or as much of it as there is room for, without the dashes and underscores at the cut. */
  ghost predicate IsCutAt(name: string, whole: string, room: nat) {
    && name <= whole
    && (|whole| <= room ==> name == whole)
    && (|whole| > room ==>
          && |name| <= room && (forall i :: |name| <= i < room ==> whole[i] == '_' || whole[i] == '-')
          && (name != "" ==> name[|name| - 1] != '_' && name[|name| - 1] != '-'))
  }

  lemma CutsAreCuts(whole: string)
    ensures IsCutAt(Truncated(whole), whole, 64)
  {
    if |whole| > 64 { TrimmedDashes(whole[..64]); }
  }

  // ---------- telling equal names apart ----------

  predicate IsToken(t: string) {
    |t| == TOKEN_LENGTH && forall i :: 0 <= i < |t| ==> '0' <= t[i] <= '9' || 'a' <= t[i] <= 'f'
  }

  /** The base as far as it leaves room for the suffix. */
  function Stem(name: string, suffix: string): (r: string)
    requires |suffix| <= MAX_LENGTH
    ensures r <= name && |r| + |suffix| <= MAX_LENGTH
  {
    if |name| + |suffix| > MAX_LENGTH then TrimRightDash(name[..MAX_LENGTH - |suffix|]) else name
  }

  /** Leaves room for an underscore and the token. */
  predicate Fits(name: string) { Allowed(name) && 1 <= |name| <= MAX_LENGTH - TOKEN_LENGTH - 1 }

  function Base(base: string): (name: string)
    requires Allowed(base)
    ensures Fits(name)
  {
    var truncated := Truncated(base);
    var room := MAX_LENGTH - TOKEN_LENGTH - 1;
    var name := if |truncated| > room then TrimRightDash(truncated[..room]) else truncated;
    if name == "" then "tool" else name
  }

  lemma NumberFits(n: nat)
    requires n <= MAX_INT + 2
    ensures |Itoa(n)| <= 19
  {
    assert Pow10(4) == 10_000 && Pow10(8) == 10_000 * 10_000;
    assert Pow10(12) == 10_000 * Pow10(8) && Pow10(16) == 10_000 * Pow10(12) && Pow10(19) == 1_000 * Pow10(16);
    ItoaLength(n, 19);
  }

  /** The k-th candidate tried: the plain suffix first, then numbered from 2. */
  function Candidate(name: string, token: string, k: nat): (r: string)
    requires Fits(name) && IsToken(token) && k <= MAX_INT
    ensures ValidName(r)
  {
    if k == 0 then name + "_" + token
    else
      NumberFits(k + 1);
      var suffix := "_" + token + "_" + Itoa(k + 1);
      Stem(name, suffix) + suffix
  }

  /** The names tried: cut to leave room for the token and the number, counted from 2. */
  lemma CandidateTold(name: string, token: string, k: nat)
    requires Fits(name) && IsToken(token) && k <= MAX_INT
    ensures k == 0 ==> Candidate(name, token, k) == name + "_" + token
    ensures k > 0 ==>
              var suffix := "_" + token + "_" + Itoa(k + 1);
              |suffix| < 64 && exists cut :: IsCutAt(cut, name, 64 - |suffix|) && Candidate(name, token, k) == cut + suffix
  {
    hide Itoa, Stem, IsCutAt, Fits, IsToken;
    if k > 0 {
      NumberFits(k + 1);
      var suffix := "_" + token + "_" + Itoa(k + 1);
      assert |token| == TOKEN_LENGTH by { TokenIsShort(token); }
      StemIsCut(name, suffix);
      assert Candidate(name, token, k) == Stem(name, suffix) + suffix;
    }
  }

  lemma TokenIsShort(token: string)
    requires IsToken(token)
    ensures |token| == TOKEN_LENGTH
  {
  }

  lemma StemIsCut(name: string, suffix: string)
    requires |suffix| < 64
    ensures IsCutAt(Stem(name, suffix), name, 64 - |suffix|)
  {
    if |name| > 64 - |suffix| { TrimmedDashes(name[..64 - |suffix|]); }
  }

  /** What the candidates are made from: the name cut to leave room for the token, or "tool". */
  lemma BaseTold(base: string)
    requires Allowed(base)
    ensures exists first, second :: IsCutAt(first, base, 64) && IsCutAt(second, first, 55)
                                    && Base(base) == if second == "" then "tool" else second
  {
    var first := Truncated(base);
    CutsAreCuts(base);
    if |first| > 55 { TrimmedDashes(first[..55]); }
    var second := if |first| > 55 then TrimRightDash(first[..55]) else first;
    assert IsCutAt(second, first, 55);
  }

  /** What follows the last '_' is determined, and so is what precedes it. */
  lemma LastPart(a: string, x: string, b: string, y: string)
    requires a + "_" + x == b + "_" + y && '_' !in x && '_' !in y
    ensures a == b && x == y
  {
    var s := a + "_" + x;
    assert s[|a|] == '_' && s[|b|] == '_';
    assert forall k :: |a| < k < |s| ==> s[k] == x[k - |a| - 1] && s[k] in x;
    assert forall k :: |b| < k < |s| ==> s[k] == y[k - |b| - 1] && s[k] in y;
    assert s[..|a|] == a && s[..|b|] == b && s[|a| + 1..] == x && s[|b| + 1..] == y;
  }

  /** Numbered candidates differ by their number. */
  lemma CandidatesDiffer(name: string, token: string, i: nat, j: nat)
    requires Fits(name) && IsToken(token) && 1 <= i <= MAX_INT && 1 <= j <= MAX_INT
    requires Candidate(name, token, i) == Candidate(name, token, j)
    ensures i == j
  {
    hide Itoa, Stem;
    NumberFits(i + 1);
    NumberFits(j + 1);
    var x, y := "_" + token + "_" + Itoa(i + 1), "_" + token + "_" + Itoa(j + 1);
    var a, b := Stem(name, x) + "_" + token, Stem(name, y) + "_" + token;
    assert Candidate(name, token, i) == a + "_" + Itoa(i + 1);
    assert Candidate(name, token, j) == b + "_" + Itoa(j + 1);
    LastPart(a, Itoa(i + 1), b, Itoa(j + 1));
    ItoaInjective(i + 1, j + 1);
  }

  /** The token is the number, and the name is its own shortened form followed by the token. */
  predicate Recurs(name: string, token: string, k: nat)
    requires Fits(name) && IsToken(token) && 1 <= k <= MAX_INT
  {
    NumberFits(k + 1);
    token == Itoa(k + 1) && name == Stem(name, "_" + token + "_" + Itoa(k + 1)) + "_" + token
  }

  /** Exactly then the plain candidate comes back as the k-th one. */
  lemma PlainCandidateRecursExactly(name: string, token: string, k: nat)
    requires Fits(name) && IsToken(token) && 1 <= k <= MAX_INT
    ensures Candidate(name, token, 0) == Candidate(name, token, k) <==> Recurs(name, token, k)
  {
    hide Itoa, Stem;
    NumberFits(k + 1);
    var digits := Itoa(k + 1);
    var stem := Stem(name, "_" + token + "_" + digits);
    assert Candidate(name, token, k) == (stem + "_" + token) + "_" + digits;
    if Candidate(name, token, 0) == Candidate(name, token, k) {
      LastPart(name, token, stem + "_" + token, digits);
    }
  }

  /** It does happen: with a token of decimal digits and a name that already ends in it. */
  lemma PlainCandidateMayRecur(head: string, n: nat)
    requires |head| == 46 && Allowed(head) && !IsDash(head[45]) && IsToken(Itoa(n)) && 2 <= n <= MAX_INT
    ensures Candidate(head + "_" + Itoa(n), Itoa(n), 0) == Candidate(head + "_" + Itoa(n), Itoa(n), n - 1)
  {
  }

  /** If every candidate up to the k-th is taken, at least k names are in use. */
  lemma {:induction false} TakenCandidates(used: set<string>, name: string, token: string, k: nat)
    requires Fits(name) && IsToken(token) && k <= MAX_INT
    requires forall j :: 1 <= j <= k ==> Candidate(name, token, j) in used
    ensures k <= |used|
    decreases k
  {
    hide Candidate;
    if k > 0 {
      var last := Candidate(name, token, k);
      forall j | 1 <= j <= k - 1 ensures Candidate(name, token, j) in used - {last} {
        if Candidate(name, token, j) == last { CandidatesDiffer(name, token, j, k); }
      }
      TakenCandidates(used - {last}, name, token, k - 1);
    }
  }

  /** The plain candidate is one of the first numbered ones. */
  ghost predicate RecursBy(name: string, token: string, n: nat)
    requires Fits(name) && IsToken(token) && n <= MAX_INT
  {
    exists j :: 1 <= j <= n && Recurs(name, token, j)
  }

  /** If the first k candidates are taken, at least k names are in use, unless the plain one recurs. */
  lemma TakenFromPlain(used: set<string>, name: string, token: string, k: nat)
    requires Fits(name) && IsToken(token) && 1 <= k <= MAX_INT && !RecursBy(name, token, k - 1)
    requires forall j :: 0 <= j < k ==> Candidate(name, token, j) in used
    ensures k <= |used|
  {
    hide Candidate, Recurs;
    var plain := Candidate(name, token, 0);
    forall j | 1 <= j <= k - 1 ensures Candidate(name, token, j) in used - {plain} {
      PlainCandidateRecursExactly(name, token, j);
    }
    TakenCandidates(used - {plain}, name, token, k - 1);
  }

  /** A set of n - 1 names that leaves only the n-th candidate: the plain one is also the last numbered one. */
  lemma ExtraCandidateIsNeeded(name: string, token: string, n: nat) returns (used: set<string>)
    requires Fits(name) && IsToken(token) && 2 <= n < MAX_INT && Recurs(name, token, n - 1)
    ensures |used| == n - 1 && Candidate(name, token, n) !in used
    ensures forall j :: 0 <= j < n ==> Candidate(name, token, j) in used
  {
    hide Candidate, Recurs;
    used := FirstCandidates(name, token, n - 1);
    PlainCandidateRecursExactly(name, token, n - 1);
    if Candidate(name, token, n) in used {
      var j :| 1 <= j <= n - 1 && Candidate(name, token, j) == Candidate(name, token, n);
      CandidatesDiffer(name, token, j, n);
    }
  }

  lemma {:induction false} FirstCandidates(name: string, token: string, n: nat) returns (used: set<string>)
    requires Fits(name) && IsToken(token) && n < MAX_INT
    ensures |used| == n
    ensures forall s :: s in used <==> exists j :: 1 <= j <= n && Candidate(name, token, j) == s
    decreases n
  {
    hide Candidate;
    if n == 0 {
      used := {};
    } else {
      var front := FirstCandidates(name, token, n - 1);
      var last := Candidate(name, token, n);
      if last in front {
        var j :| 1 <= j <= n - 1 && Candidate(name, token, j) == last;
        CandidatesDiffer(name, token, j, n);
      }
      used := front + {last};
    }
  }

  /**
   `uniqueModelFunctionName`: the first candidate not in use. At most one more candidate is
   tried than there are names in use, and one more still only if the plain one recurs.
   */
  method UniqueName(base: string, token: string, used: set<string>) returns (candidate: string, ghost k: nat)
    requires Allowed(base) && IsToken(token) && |used| < MAX_INT
    ensures k <= |used| + 1 && candidate == Candidate(Base(base), token, k) && candidate !in used
    ensures forall j :: 0 <= j < k ==> Candidate(Base(base), token, j) in used
    ensures !RecursBy(Base(base), token, |used|) ==> k <= |used|
  {
    hide Candidate, RecursBy;
    var name := Base(base);
    candidate := PlainCandidate(name, token);
    k := 0;
    var index := 2;
    while candidate in used
      invariant index == k + 2 && k <= |used| + 1 && candidate == Candidate(name, token, k)
      invariant forall j :: 0 <= j < k ==> Candidate(name, token, j) in used
      decreases |used| + 2 - k
    {
      TakenCandidates(used, name, token, k);
      candidate := NumberedCandidate(name, token, index);
      k := k + 1;
      index := index + 1;
    }
    if k == |used| + 1 && !RecursBy(name, token, |used|) { TakenFromPlain(used, name, token, k); }
  }

  function PlainCandidate(name: string, token: string): (r: string)
    requires Fits(name) && IsToken(token)
    ensures r == Candidate(name, token, 0)
  {
    name + "_" + token
  }

  function NumberedCandidate(name: string, token: string, index: nat): (r: string)
    requires Fits(name) && IsToken(token) && 2 <= index <= MAX_INT + 1
    ensures r == Candidate(name, token, index - 1)
  {
    NumberFits(index);
    var nextSuffix := "_" + token + "_" + Itoa(index);
    Stem(name, nextSuffix) + nextSuffix
  }

  // ---------- assigning names ----------

  datatype Item = Item(key: string, displayName: string, fallback: string)

  function KeyOf(item: Item): string { if item.key == "" then item.fallback else item.key }

  /** An item goes by its key, and without one by its fallback. */
  ghost predicate GoesBy(item: Item, key: string) {
    if item.key != "" then key == item.key else key == item.fallback
  }

  /** The safe name if it is free, else the first free candidate made from it. */
  ghost predicate Assigned(item: Item, token: string, used: set<string>, name: string)
    requires IsToken(token) && |used| < MAX_INT
  {
    var safe := SafeName(item.displayName, item.fallback);
    if safe !in used then name == safe
    else exists k: nat :: IsFirstFree(Base(safe), token, used, k, name)
  }

  ghost predicate IsFirstFree(base: string, token: string, used: set<string>, k: nat, name: string)
    requires Fits(base) && IsToken(token) && |used| < MAX_INT
  {
    && k <= |used| + 1 && name == Candidate(base, token, k) && name !in used
    && forall j :: 0 <= j < k ==> Candidate(base, token, j) in used
  }

  ghost predicate IsTokenFunction(token: string -> string) {
    forall v :: IsToken(token(v))
  }

  ghost function NamesIn(names: seq<string>): (used: set<string>)
    ensures |used| <= |names|
  {
    if names == [] then {} else NamesIn(names[..|names| - 1]) + {names[|names| - 1]}
  }

  lemma {:induction false} NamesInHas(names: seq<string>, n: string)
    ensures n in NamesIn(names) <==> n in names
  {
    if names != [] {
      NamesInHas(names[..|names| - 1], n);
      assert names == names[..|names| - 1] + [names[|names| - 1]];
    }
  }

  /** Each item's name is the one it was assigned after the items before it. */
  ghost predicate AllAssigned(items: seq<Item>, token: string -> string, names: seq<string>)
    requires IsTokenFunction(token) && |names| <= |items| <= MAX_INT
  {
    forall i :: 0 <= i < |names| ==> Assigned(items[i], token(items[i].fallback), NamesIn(names[..i]), names[i])
  }

  /** A key is mapped to the name of the last item with that key. */
  ghost predicate LastWins(items: seq<Item>, names: seq<string>, result: map<string, string>)
    requires |names| <= |items|
  {
    && (forall i, k :: 0 <= i < |names| && GoesBy(items[i], k) ==> k in result)
    && forall k :: k in result ==> exists i :: LastOf(items, names, k, i) && result[k] == names[i]
  }

  ghost predicate LastOf(items: seq<Item>, names: seq<string>, k: string, i: int)
    requires |names| <= |items|
  {
    0 <= i < |names| && GoesBy(items[i], k) && forall j :: i < j < |names| ==> !GoesBy(items[j], k)
  }

  method AssignName(item: Item, token: string, used: set<string>) returns (name: string)
    requires IsToken(token) && |used| < MAX_INT
    ensures Assigned(item, token, used, name) && name !in used && ValidName(name)
  {
    hide SafeName, Candidate, Base;
    name := SafeName(item.displayName, item.fallback);
    if name in used {
      ghost var k;
      ghost var base := Base(name);
      name, k := UniqueName(name, token, used);
      assert IsFirstFree(base, token, used, k, name);
    }
  }

  lemma AssignedGrows(items: seq<Item>, token: string -> string, names: seq<string>, name: string)
    requires IsTokenFunction(token) && |names| < |items| <= MAX_INT && AllAssigned(items, token, names)
    requires Assigned(items[|names|], token(items[|names|].fallback), NamesIn(names), name)
    ensures AllAssigned(items, token, names + [name])
  {
    hide Assigned, NamesIn, IsToken;
    var more := names + [name];
    forall i | 0 <= i < |more| ensures Assigned(items[i], token(items[i].fallback), NamesIn(more[..i]), more[i]) {
      if i < |names| {
        assert more[..i] == names[..i];
      } else {
        assert more[..i] == names;
      }
    }
  }

  lemma NothingAssigned(items: seq<Item>, token: string -> string)
    requires IsTokenFunction(token) && |items| <= MAX_INT
    ensures AllAssigned(items, token, []) && LastWins(items, [], map[])
  {
  }

  lemma LastWinsGrows(items: seq<Item>, names: seq<string>, name: string, result: map<string, string>)
    requires |names| < |items| && LastWins(items, names, result)
    ensures LastWins(items, names + [name], result[KeyOf(items[|names|]) := name])
  {
    var more, key := names + [name], KeyOf(items[|names|]);
    var next := result[key := name];
    forall k | k in next ensures exists i :: LastOf(items, more, k, i) && next[k] == more[i] {
      if k == key {
        assert LastOf(items, more, k, |names|);
      } else {
        var i :| LastOf(items, names, k, i) && result[k] == names[i];
        assert LastOf(items, more, k, i);
      }
    }
  }

  lemma DistinctKeysDistinctNames(items: seq<Item>, names: seq<string>, result: map<string, string>)
    requires |names| == |items| && LastWins(items, names, result) && Distinct(names)
    requires forall i :: 0 <= i < |names| ==> ValidName(names[i])
    ensures forall k :: k in result ==> Offerable(result[k])
    ensures forall k, l :: k in result && l in result && k != l ==> result[k] != result[l]
  {
  }

  /**
   `modelFunctionNameMap`: every name is valid, different items get different names, and so
   do different keys.
   */
  method NameMap(items: seq<Item>, token: string -> string)
    returns (result: map<string, string>, ghost names: seq<string>)
    requires IsTokenFunction(token) && |items| <= MAX_INT
    ensures |names| == |items| && Distinct(names) && AllAssigned(items, token, names) && LastWins(items, names, result)
    ensures forall k :: k in result ==> Offerable(result[k])
    ensures forall k, l :: k in result && l in result && k != l ==> result[k] != result[l]
  {
    hide SafeName, Candidate, Base, ValidName, Assigned, KeyOf, LastWins, AllAssigned;
    NothingAssigned(items, token);
    result, names := map[], [];
    var used: set<string> := {};
    var index := 0;
    while index < |items|
      invariant 0 <= index <= |items| && |names| == index && used == NamesIn(names)
      invariant Distinct(names) && AllAssigned(items, token, names) && LastWins(items, names, result)
      invariant forall i :: 0 <= i < |names| ==> ValidName(names[i])
    {
      var item := items[index];
      var name := AssignName(item, token(item.fallback), used);
      NamesInHas(names, name);
      AssignedGrows(items, token, names, name);
      LastWinsGrows(items, names, name, result);
      ghost var more := names + [name];
      assert more[..index] == names;
      assert forall i :: 0 <= i < |names| ==> names[i] in names;
      used := used + {name};
      names := more;
      result := result[KeyOf(item) := name];
      index := index + 1;
    }
    DistinctKeysDistinctNames(items, names, result);
  }
}
