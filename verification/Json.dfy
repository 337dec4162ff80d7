/** JSON documents, JSON pointers (RFC 6901) and the add operation of JSON patches (RFC 6902). */
module Json {
  import opened Basics
  import opened Text

  datatype Json =
    | Null
    | Bool(b: bool)
    | Number(n: real)
    | String(s: string)
    | Array(items: seq<Json>)
    | Object(members: map<string, Json>)

  function ToJson(m: StringMap): Json {
    Object(map k | k in m :: String(m[k]))
  }

  // ---------- pointer segments ----------

  /** '~' becomes "~0" first, then '/' becomes "~1". */
  function EscapeSegment(s: string): string {
    ReplaceAll(ReplaceAll(s, "~", "~0"), "/", "~1")
  }

  /** Section 4 of RFC 6901: "~1" becomes '/' first, then "~0" becomes '~'. */
  function UnescapeSegment(s: string): string {
    ReplaceAll(ReplaceAll(s, "~1", "/"), "~0", "~")
  }

  /** Only '~' escaped. */
  ghost function HalfEscaped(s: string): string {
    if s == "" then ""
    else (if s[0] == '~' then "~0" else [s[0]]) + HalfEscaped(s[1..])
  }

  /** Both characters escaped, one at a time. */
  ghost function Escaped(s: string): string {
    if s == "" then ""
    else (if s[0] == '~' then "~0" else if s[0] == '/' then "~1" else [s[0]]) + Escaped(s[1..])
  }

  /** Where the pattern does not start, replacing moves on by one character. */
  lemma ReplaceSkips(c: char, s: string, pattern: string, replacement: string)
    requires pattern != ""
    requires pattern[0] != c || (|pattern| > 1 && (s == "" || s[0] != pattern[1]))
    ensures ReplaceAll([c] + s, pattern, replacement) == [c] + ReplaceAll(s, pattern, replacement)
  {
    assert ([c] + s)[1..] == s;
  }

  lemma ReplaceSkipsTwo(c: char, d: char, s: string, pattern: string, replacement: string)
    requires pattern != "" && pattern[0] != d
    requires pattern[0] != c || (|pattern| > 1 && d != pattern[1])
    ensures ReplaceAll([c, d] + s, pattern, replacement) == [c, d] + ReplaceAll(s, pattern, replacement)
  {
    TwoInFront(c, d, s);
    ReplaceSkips(c, [d] + s, pattern, replacement);
    ReplaceSkips(d, s, pattern, replacement);
    TwoInFront(c, d, ReplaceAll(s, pattern, replacement));
  }

  lemma TwoInFront(c: char, d: char, s: string)
    ensures [c, d] + s == [c] + ([d] + s)
  {
  }

  lemma ReplaceHits(s: string, pattern: string, replacement: string)
    requires pattern != ""
    ensures ReplaceAll(pattern + s, pattern, replacement) == replacement + ReplaceAll(s, pattern, replacement)
  {
    assert pattern <= pattern + s && (pattern + s)[|pattern|..] == s;
  }

  lemma {:induction false} EscapeTilde(s: string)
    ensures ReplaceAll(s, "~", "~0") == HalfEscaped(s)
  {
    if s != "" {
      EscapeTilde(s[1..]);
      if s[0] == '~' {
        assert s == "~" + s[1..];
        ReplaceHits(s[1..], "~", "~0");
      } else {
        assert s == [s[0]] + s[1..];
        ReplaceSkips(s[0], s[1..], "~", "~0");
      }
    }
  }

  lemma {:induction false} EscapeSlash(s: string)
    ensures ReplaceAll(HalfEscaped(s), "/", "~1") == Escaped(s)
  {
    if s != "" {
      EscapeSlash(s[1..]);
      var rest := HalfEscaped(s[1..]);
      if s[0] == '~' {
        ReplaceSkipsTwo('~', '0', rest, "/", "~1");
      } else if s[0] == '/' {
        assert HalfEscaped(s) == "/" + rest;
        ReplaceHits(rest, "/", "~1");
      } else {
        ReplaceSkips(s[0], rest, "/", "~1");
      }
    }
  }

  lemma {:induction false} UnescapeSlash(s: string)
    ensures ReplaceAll(Escaped(s), "~1", "/") == HalfEscaped(s)
  {
    if s != "" {
      UnescapeSlash(s[1..]);
      var rest := Escaped(s[1..]);
      if s[0] == '~' {
        ReplaceSkipsTwo('~', '0', rest, "~1", "/");
      } else if s[0] == '/' {
        ReplaceHits(rest, "~1", "/");
      } else {
        ReplaceSkips(s[0], rest, "~1", "/");
      }
    }
  }

  lemma {:induction false} UnescapeTilde(s: string)
    ensures ReplaceAll(HalfEscaped(s), "~0", "~") == s
  {
    if s != "" {
      UnescapeTilde(s[1..]);
      var rest := HalfEscaped(s[1..]);
      if s[0] == '~' {
        ReplaceHits(rest, "~0", "~");
        assert "~" + s[1..] == s;
      } else {
        ReplaceSkips(s[0], rest, "~0", "~");
        assert [s[0]] + s[1..] == s;
      }
    }
  }

  /** Decoding inverts encoding, on every string. */
  lemma SegmentRoundTrip(s: string)
    ensures UnescapeSegment(EscapeSegment(s)) == s
  {
    EscapeTilde(s);
    EscapeSlash(s);
    UnescapeSlash(s);
    UnescapeTilde(s);
  }

  /** Different strings have different encodings. */
  lemma EscapeInjective(s: string, t: string)
    requires EscapeSegment(s) == EscapeSegment(t)
    ensures s == t
  {
    SegmentRoundTrip(s);
    SegmentRoundTrip(t);
  }

  /** Every '~' starts an escape. */
  ghost predicate ProperEscapes(s: string) {
    forall i :: 0 <= i < |s| && s[i] == '~' ==> i + 1 < |s| && s[i + 1] in {'0', '1'}
  }

  lemma {:induction false} EscapedIsProper(s: string)
    ensures '/' !in Escaped(s) && ProperEscapes(Escaped(s))
  {
    if s != "" {
      EscapedIsProper(s[1..]);
      var rest := Escaped(s[1..]);
      forall i | 0 <= i < |Escaped(s)| && Escaped(s)[i] == '~'
        ensures i + 1 < |Escaped(s)| && Escaped(s)[i + 1] in {'0', '1'}
      {
        var n := |Escaped(s)| - |rest|;
        if i >= n {
          assert rest[i - n] == '~';
        }
      }
    }
  }

  /** An encoded segment cannot break out of its place in a pointer. */
  lemma EscapeIsProper(s: string)
    ensures '/' !in EscapeSegment(s) && ProperEscapes(EscapeSegment(s))
  {
    EscapeTilde(s);
    EscapeSlash(s);
    EscapedIsProper(s);
  }

  /** Plain text is its own encoding. */
  lemma {:induction false} EscapedPlain(s: string)
    requires '~' !in s && '/' !in s
    ensures Escaped(s) == s
  {
    if s != "" {
      EscapedPlain(s[1..]);
      assert s == [s[0]] + s[1..];
    }
  }

  lemma EscapePlain(s: string)
    requires '~' !in s && '/' !in s
    ensures EscapeSegment(s) == s
  {
    EscapeTilde(s);
    EscapeSlash(s);
    EscapedPlain(s);
  }

  // ---------- pointers ----------

  function Pointer(tokens: seq<string>): string {
    if tokens == [] then "" else "/" + EscapeSegment(tokens[0]) + Pointer(tokens[1..])
  }

  function UnescapeAll(parts: seq<string>): seq<string> {
    if parts == [] then [] else [UnescapeSegment(parts[0])] + UnescapeAll(parts[1..])
  }

  /** The reference tokens of a pointer, which is empty or starts with '/'. */
  function ParsePointer(path: string): (tokens: Option<seq<string>>)
    ensures tokens.None? <==> path != "" && path[0] != '/'
  {
    if path == "" then Some([])
    else if path[0] != '/' then None
    else Some(UnescapeAll(Split(path[1..], '/')))
  }

  lemma PointerOne(t: string)
    ensures Pointer([t]) == "/" + EscapeSegment(t)
  {
    assert [t][1..] == [];
    assert Pointer([t]) == "/" + EscapeSegment(t) + "";
  }

  /** Pointers two and three levels deep, spelled out. */
  lemma PointerSpelled(a: string, b: string, c: string)
    requires '~' !in a && '/' !in a && '~' !in b && '/' !in b
    ensures Pointer([a, b]) == "/" + a + "/" + b
    ensures Pointer([a, b, c]) == "/" + a + "/" + b + "/" + EscapeSegment(c)
  {
    EscapePlain(a);
    EscapePlain(b);
    PointerOne(b);
    PointerOne(c);
    assert [a, b][1..] == [b] && [a, b, c][1..] == [b, c] && [b, c][1..] == [c];
    assert Pointer([b, c]) == "/" + b + Pointer([c]);
  }

  lemma PointerParts(tokens: seq<string>)
    requires tokens != []
    ensures
      var first := EscapeSegment(tokens[0]);
      var rest := Pointer(tokens[1..]);
      && '/' !in first
      && Pointer(tokens)[1..] == first + rest
      && (tokens[1..] != [] ==> rest != "" && first + rest == first + ['/'] + rest[1..])
  {
    EscapeIsProper(tokens[0]);
    var first, rest := EscapeSegment(tokens[0]), Pointer(tokens[1..]);
    assert Pointer(tokens) == "/" + first + rest;
    DropSlash(first, rest);
    if tokens[1..] != [] {
      assert rest == "/" + EscapeSegment(tokens[1..][0]) + Pointer(tokens[1..][1..]);
      assert rest[0] == '/';
    }
  }

  lemma DropSlash(first: string, rest: string)
    ensures ("/" + first + rest)[1..] == first + rest
    ensures rest != "" && rest[0] == '/' ==> first + rest == first + ['/'] + rest[1..]
  {
  }

  /** Reading a pointer gives back exactly the tokens it was made from. */
  lemma {:induction false} PointerRoundTrip(tokens: seq<string>)
    ensures ParsePointer(Pointer(tokens)) == Some(tokens)
  {
    if tokens != [] {
      PointerPartsRead(tokens);
    }
  }

  lemma {:induction false} PointerPartsRead(tokens: seq<string>)
    requires tokens != []
    ensures UnescapeAll(Split(Pointer(tokens)[1..], '/')) == tokens
  {
    PointerParts(tokens);
    SegmentRoundTrip(tokens[0]);
    var first, rest := EscapeSegment(tokens[0]), Pointer(tokens[1..]);
    if tokens[1..] == [] {
      assert first + rest == first;
      SplitNone(first, '/');
      assert UnescapeAll([first]) == [tokens[0]];
    } else {
      PointerPartsRead(tokens[1..]);
      SplitFirst(first, '/', rest[1..]);
      assert ([first] + Split(rest[1..], '/'))[1..] == Split(rest[1..], '/');
      assert tokens == [tokens[0]] + tokens[1..];
    }
  }

  // ---------- patches ----------

  /** The operation "add"; no other is used. */
  datatype Operation = Add(path: string, value: Json)

  /** Section 4.1 of RFC 6902, for members of objects: the parent must exist. */
  function AddAt(doc: Json, tokens: seq<string>, value: Json): Option<Json> {
    if tokens == [] then Some(value)
    else if !doc.Object? then None
    else if |tokens| == 1 then Some(Object(doc.members[tokens[0] := value]))
    else if tokens[0] !in doc.members then None
    else
      match AddAt(doc.members[tokens[0]], tokens[1..], value)
      case None => None
      case Some(inner) => Some(Object(doc.members[tokens[0] := inner]))
  }

  function Apply(doc: Json, op: Operation): Option<Json> {
    match ParsePointer(op.path)
    case None => None
    case Some(tokens) => AddAt(doc, tokens, op.value)
  }

  /** A patch applies from first to last, and fails as a whole. */
  function ApplyAll(doc: Json, ops: seq<Operation>): Option<Json> {
    if ops == [] then Some(doc)
    else
      match ApplyAll(doc, ops[..|ops| - 1])
      case None => None
      case Some(d) => Apply(d, ops[|ops| - 1])
  }

  lemma ApplyLast(doc: Json, ops: seq<Operation>, op: Operation)
    requires ApplyAll(doc, ops).Some?
    ensures ApplyAll(doc, ops + [op]) == Apply(ApplyAll(doc, ops).value, op)
  {
    assert (ops + [op])[..|ops|] == ops;
  }

  lemma ApplySingle(doc: Json, op: Operation)
    ensures ApplyAll(doc, [op]) == Apply(doc, op)
  {
    assert [op][..0] == [];
  }

  /** What a spelled-out path of two or three levels adds to. */
  lemma ApplyTwo(doc: Json, a: string, b: string, value: Json)
    requires '~' !in a && '/' !in a && '~' !in b && '/' !in b
    ensures Apply(doc, Add("/" + a + "/" + b, value)) == AddAt(doc, [a, b], value)
  {
    PointerSpelled(a, b, "");
    PointerRoundTrip([a, b]);
  }

  lemma ApplyThree(doc: Json, a: string, b: string, c: string, value: Json)
    requires '~' !in a && '/' !in a && '~' !in b && '/' !in b
    ensures Apply(doc, Add("/" + a + "/" + b + "/" + EscapeSegment(c), value)) == AddAt(doc, [a, b, c], value)
  {
    PointerSpelled(a, b, c);
    PointerRoundTrip([a, b, c]);
  }

  // ---------- reading nested fields ----------

  datatype Nested<+T> = Missing | Malformed | Found(value: T)

  function NestedField(doc: Json, path: seq<string>): Nested<Json> {
    if path == [] then Found(doc)
    else match doc
      case Null => Missing
      case Object(members) => if path[0] in members then NestedField(members[path[0]], path[1..]) else Missing
      case _ => Malformed
  }

  predicate IsStringMap(j: Json) {
    j.Object? && forall k :: k in j.members ==> j.members[k].String?
  }

  function NestedStringMap(doc: Json, path: seq<string>): Nested<StringMap> {
    match NestedField(doc, path)
    case Missing => Missing
    case Malformed => Malformed
    case Found(j) => if IsStringMap(j) then Found(map k | k in j.members :: j.members[k].s) else Malformed
  }

  /** Labels and annotations read as empty when they are missing or malformed. */
  function GetMap(doc: Json, path: seq<string>): StringMap {
    var m := NestedStringMap(doc, path);
    if m.Found? then m.value else map[]
  }

  /** Reading one level deeper. */
  lemma {:induction false} NestedDeeper(doc: Json, path: seq<string>, k: string)
    ensures NestedField(doc, path + [k]) ==
            match NestedField(doc, path)
            case Found(j) => NestedField(j, [k])
            case Missing => Missing
            case Malformed => Malformed
  {
    if path == [] {
      assert path + [k] == [k];
    } else {
      assert (path + [k])[1..] == path[1..] + [k];
      if doc.Object? && path[0] in doc.members {
        NestedDeeper(doc.members[path[0]], path[1..], k);
      }
    }
  }

  /** A field two levels deep. */
  lemma NestedTwo(doc: Json, a: string, b: string)
    ensures NestedField(doc, [a, b]) ==
            match doc
            case Object(ms) =>
              if a !in ms then Missing
              else (match ms[a]
                    case Object(inner) => if b in inner then Found(inner[b]) else Missing
                    case Null => Missing
                    case _ => Malformed)
            case Null => Missing
            case _ => Malformed
  {
    assert [a, b][1..] == [b] && [b][1..] == [];
    if doc.Object? && a in doc.members {
      var inner := doc.members[a];
      assert NestedField(doc, [a, b]) == NestedField(inner, [b]);
      if inner.Object? && b in inner.members {
        assert NestedField(inner, [b]) == NestedField(inner.members[b], []);
      }
    }
  }

  /** Adding below, or at, a field two levels deep. */
  lemma AddTwo(doc: Json, a: string, b: string, value: Json)
    ensures AddAt(doc, [a, b], value) ==
            if doc.Object? && a in doc.members && doc.members[a].Object?
            then Some(Object(doc.members[a := Object(doc.members[a].members[b := value])]))
            else None
  {
    assert [a, b][1..] == [b] && [b][1..] == [];
  }

  lemma AddThree(doc: Json, a: string, b: string, c: string, value: Json)
    ensures AddAt(doc, [a, b, c], value) ==
            if doc.Object? && a in doc.members && doc.members[a].Object? && b in doc.members[a].members
               && doc.members[a].members[b].Object?
            then
              var inner := Object(doc.members[a].members[b].members[c := value]);
              Some(Object(doc.members[a := Object(doc.members[a].members[b := inner])]))
            else None
  {
    assert [a, b, c][1..] == [b, c];
    if doc.Object? && a in doc.members {
      AddTwo(doc.members[a], b, c, value);
    }
  }
}
