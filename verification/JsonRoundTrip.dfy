/** Parsing what was printed gives the value back, up to the nesting limit and no further. */
module JsonRoundTrip {
  import opened Basics
  import opened JsonValue
  import opened Decimal
  import opened JsonText

  /** How deeply arrays and objects nest. */
  function Depth(j: Json): nat {
    match j
    case Array(items) => 1 + ItemsDepth(items)
    case Object(fields) => 1 + FieldsDepth(fields)
    case _ => 0
  }

  function Max(a: nat, b: nat): nat {
    if a < b then b else a
  }

  function ItemsDepth(items: seq<Json>): nat {
    if items == [] then 0 else Max(Depth(items[0]), ItemsDepth(items[1..]))
  }

  function FieldsDepth(fields: seq<Field>): nat {
    if fields == [] then 0 else Max(Depth(fields[0].value), FieldsDepth(fields[1..]))
  }

  // ---------- strings ----------

  lemma {:induction false} ControlEscape(c: char, x: string, m: nat)
    requires '\0' < c < ' ' && Escape(c)[1] == 'u' && m < |x|
    ensures |Escape(c)| == 6 && Utf16(Escape(c) + x, 6 + m) == Some(([c], 6))
  {
    var e := Escape(c);
    assert e == ['\\', 'u', '0', '0', HEX[c as int / 16], HEX[c as int % 16]];
    assert (e + x)[2] == '0' && (e + x)[3] == '0' && (e + x)[4] == e[4] && (e + x)[5] == e[5];
    HexDigitOfMap(c as int / 16);
    HexDigitOfMap(c as int % 16);
  }

  lemma {:induction false} DecodePlain(c: char, x: string, m: nat)
    requires c != '\\' && m < |x|
    ensures Decode([c] + x, 1 + m) == Prepend([c], Decode(x, m))
  {
  }

  lemma {:induction false} DecodeSimple(k: char, x: string, m: nat)
    requires SimpleEscape(k).Some? && m < |x|
    ensures Decode(['\\', k] + x, 2 + m) == Prepend([SimpleEscape(k).value], Decode(x, m))
  {
    assert (['\\', k] + x)[2..] == x;
  }

  lemma {:induction false} DecodeControl(c: char, x: string, m: nat)
    requires '\0' < c < ' ' && Escape(c)[1] == 'u' && m < |x|
    ensures |Escape(c)| == 6 && Decode(Escape(c) + x, 6 + m) == Prepend([c], Decode(x, m))
  {
    ControlEscape(c, x, m);
    ControlStarts(Escape(c), x);
    DecodeLiteral(Escape(c) + x, 6 + m, [c], 6);
  }

  lemma {:induction false} ControlStarts(e: string, x: string)
    requires |e| == 6 && e[0] == '\\' && e[1] == 'u'
    ensures (e + x)[0] == '\\' && (e + x)[1] == 'u' && (e + x)[6..] == x
  {
  }

  lemma {:induction false} DecodeLiteral(s: string, n: int, bytes: string, length: nat)
    requires 1 < n < |s| && s[0] == '\\' && s[1] == 'u' && Utf16(s, n) == Some((bytes, length))
    ensures Decode(s, n) == Prepend(bytes, Decode(s[length..], n - length))
  {
  }

  /** One escaped character decodes to itself. */
  lemma {:induction false} DecodeOne(c: char, x: string, m: nat)
    requires c != '\0' && m < |x|
    ensures Decode(Escape(c) + x, |Escape(c)| + m) == Prepend([c], Decode(x, m))
  {
    var e := Escape(c);
    if |e| == 1 {
      DecodePlain(c, x, m);
    } else if e[1] == 'u' {
      DecodeControl(c, x, m);
    } else {
      assert e == ['\\', e[1]];
      DecodeSimple(e[1], x, m);
    }
  }

  predicate Plain(c: char) {
    c != '\"' && c != '\\'
  }

  lemma {:induction false} ClosingPlain(c: char, x: string)
    requires Plain(c)
    ensures ClosingQuote([c] + x) == Shifted(1, ClosingQuote(x))
  {
  }

  lemma {:induction false} ClosingPair(k: char, x: string)
    ensures ClosingQuote(['\\', k] + x) == Shifted(2, ClosingQuote(x))
  {
  }

  lemma {:induction false} ClosingTwoPlain(a: char, b: char, x: string)
    requires Plain(a) && Plain(b)
    ensures ClosingQuote([a, b] + x) == Shifted(2, ClosingQuote(x))
  {
  }

  lemma {:induction false} ClosingControl(a: char, b: char, x: string)
    requires Plain(a) && Plain(b)
    ensures ClosingQuote(("\\u00" + [a, b]) + x) == Shifted(6, ClosingQuote(x))
  {
    var hex := [a, b] + x;
    var zeros := ['0', '0'] + hex;
    assert ClosingQuote(hex) == Shifted(2, ClosingQuote(x)) by { ClosingTwoPlain(a, b, x); }
    assert ClosingQuote(zeros) == Shifted(2, ClosingQuote(hex)) by { ClosingTwoPlain('0', '0', hex); }
    assert ClosingQuote(['\\', 'u'] + zeros) == Shifted(2, ClosingQuote(zeros)) by { ClosingPair('u', zeros); }
    assert ("\\u00" + [a, b]) + x == ['\\', 'u'] + zeros by { ControlParts([a, b], x); }
  }

  lemma {:induction false} ControlParts(h: string, x: string)
    ensures ("\\u00" + h) + x == ['\\', 'u'] + (['0', '0'] + (h + x))
  {
  }

  lemma {:induction false} PlainHex(c: char)
    requires c in HEX
    ensures Plain(c)
  {
  }

  /** An escaped character never closes the string. */
  lemma {:induction false} ClosingOne(c: char, x: string)
    ensures ClosingQuote(Escape(c) + x) == Shifted(|Escape(c)|, ClosingQuote(x))
  {
    var e := Escape(c);
    if |e| == 1 {
      ClosingPlain(c, x);
    } else if |e| == 2 {
      assert e == ['\\', e[1]];
      ClosingPair(e[1], x);
    } else {
      PlainHex(e[4]);
      PlainHex(e[5]);
      assert e == "\\u00" + [e[4], e[5]];
      ClosingControl(e[4], e[5], x);
    }
  }

  lemma {:induction false} DecodeEscaped(t: string, x: string)
    requires NulFree(t) && x != []
    ensures Decode(EscapeAll(t) + x, |EscapeAll(t)|) == Some(t)
  {
    if t == [] {
      assert EscapeAll(t) + x == x;
    } else {
      DecodeEscaped(t[1..], x);
      DecodeOneMore(t, Escape(t[0]), EscapeAll(t[1..]), x);
    }
  }

  lemma {:induction false} DecodeOneMore(t: string, e: string, tail: string, x: string)
    requires t != [] && t[0] != '\0' && e == Escape(t[0]) && x != [] && Decode(tail + x, |tail|) == Some(t[1..])
    ensures Decode((e + tail) + x, |e + tail|) == Some(t)
  {
    DecodeOne(t[0], tail + x, |tail|);
    Regroup(e, tail, x);
    assert t == [t[0]] + t[1..];
  }

  lemma {:induction false} ClosingEscaped(t: string, x: string)
    ensures ClosingQuote(EscapeAll(t) + ("\"" + x)) == Some(|EscapeAll(t)|)
  {
    if t == [] {
      assert EscapeAll(t) + ("\"" + x) == "\"" + x;
    } else {
      ClosingEscaped(t[1..], x);
      ClosingOneMore(t[0], Escape(t[0]), EscapeAll(t[1..]), "\"" + x);
    }
  }

  lemma {:induction false} ClosingOneMore(c: char, e: string, tail: string, x: string)
    requires e == Escape(c) && ClosingQuote(tail + x) == Some(|tail|)
    ensures ClosingQuote((e + tail) + x) == Some(|e + tail|)
  {
    ClosingOne(c, tail + x);
    Regroup(e, tail, x);
  }

  lemma {:induction false} Appended(s: string, rest: string)
    requires Terminated(rest)
    ensures Terminated(s + rest) && (s != [] ==> (s + rest)[0] == s[0])
  {
  }

  /** Every string without a terminator reads back. */
  lemma {:induction false} StringRoundTrip(t: string, rest: string)
    requires NulFree(t) && Terminated(rest)
    ensures Terminated(Quoted(t) + rest)
    ensures ParseString(Quoted(t) + rest) == Some((t, rest))
  {
    ClosingEscaped(t, rest);
    DecodeEscaped(t, "\"" + rest);
    CStringWhole(t, '\0');
    ReadString(EscapeAll(t), t, rest);
  }

  lemma {:induction false} QuotedParts(e: string, rest: string)
    requires Terminated(rest)
    ensures var s := ("\"" + e + "\"") + rest;
      Terminated(s) && s[0] == '\"' && s[1..] == e + ("\"" + rest) && s[|e| + 2..] == rest
  {
  }

  lemma {:induction false} ReadString(e: string, t: string, rest: string)
    requires Terminated(rest) && ClosingQuote(e + ("\"" + rest)) == Some(|e|)
    requires Decode(e + ("\"" + rest), |e|) == Some(t) && CString(t, '\0') == t
    ensures Terminated(("\"" + e + "\"") + rest)
    ensures ParseString(("\"" + e + "\"") + rest) == Some((t, rest))
  {
    QuotedParts(e, rest);
  }

  // ---------- numbers ----------

  lemma {:induction false} RunOfNumeral(s: string, rest: string, room: nat)
    requires |s| <= room && (forall i :: 0 <= i < |s| ==> IsNumberChar(s[i]))
    requires rest != [] && !IsNumberChar(rest[0])
    ensures NumberRun(s + rest, room) == |s|
  {
    if s == [] {
      assert s + rest == rest;
    } else {
      assert (s + rest)[0] == s[0] && (s + rest)[1..] == s[1..] + rest;
      RunOfNumeral(s[1..], rest, room - 1);
    }
  }

  lemma {:induction false} UnsignedDigits(s: string)
    requires s != [] && AllDigits(s)
    ensures Unsigned(s) == (Value(s) as real, |s|)
  {
    RunIsAll(s);
    assert s[|s|..] == [];
  }

  lemma {:induction false} SignApplied(s: string, u: string, v: real)
    requires u != [] && IsDigit(u[0]) && (s == u || s == "-" + u) && Unsigned(u) == (v, |u|)
    ensures Strtod(s) == (if s == u then v else -v, |s|)
  {
    AfterSign(s, u);
    StrtodIs(s, u, (v, |u|));
    WithSignIs(s, u, v);
  }

  lemma {:induction false} StrtodIs(s: string, u: string, r: (real, nat))
    requires s[SignLength(s)..] == u && Unsigned(u) == r
    ensures Strtod(s) == WithSign(s, r)
  {
  }

  lemma {:induction false} WithSignIs(s: string, u: string, v: real)
    requires u != [] && IsDigit(u[0]) && (s == u || s == "-" + u) && SignLength(s) == |s| - |u|
    ensures WithSign(s, (v, |u|)) == (if s == u then v else -v, |s|)
  {
  }

  lemma {:induction false} AfterSign(s: string, u: string)
    requires u != [] && IsDigit(u[0]) && (s == u || s == "-" + u)
    ensures s[SignLength(s)..] == u && SignLength(s) == |s| - |u|
  {
  }

  lemma {:induction false} StrtodSigned(n: int)
    ensures Strtod(Signed(n)) == (n as real, |Signed(n)|)
  {
    var m: nat := if n < 0 then -n else n;
    var u := Natural(m);
    UnsignedDigits(u);
    SignApplied(Signed(n), u, m as real);
    assert u[0] != '-';
  }

  lemma {:induction false} SignedIsShort(n: int)
    requires -1_000_000_000_000_000 < n < 1_000_000_000_000_000
    ensures |Signed(n)| <= 16
    ensures forall i :: 0 <= i < |Signed(n)| ==> IsNumberChar(Signed(n)[i])
  {
    PowersOf10();
    NaturalLength(if n < 0 then -n else n, 15);
  }

  lemma {:induction false} NumberRoundTrip(n: real, rest: string)
    requires Whole(n) && Terminated(rest) && !IsNumberChar(rest[0])
    ensures Terminated(Signed(n.Floor) + rest)
    ensures ParseNumber(Signed(n.Floor) + rest) == Some((n, rest))
  {
    var s := Signed(n.Floor);
    SignedIsShort(n.Floor);
    RunOfNumeral(s, rest, 63);
    StrtodSigned(n.Floor);
    Appended(s, rest);
    assert (s + rest)[..|s|] == s && (s + rest)[|s|..] == rest;
  }

  // ---------- values ----------

  /** The first character of a printed value: no white space, and no closing bracket. */
  lemma {:induction false} FirstChar(j: Json)
    requires Printable(j)
    ensures Print(j) != [] && ' ' < Print(j)[0] && Print(j)[0] != ']'
  {
  }

  lemma {:induction false} NothingToSkip(s: string, rest: string)
    requires Terminated(rest) && s != [] && ' ' < s[0]
    ensures Terminated(s + rest) && SkipWhitespace(s + rest) == s + rest
  {
  }

  lemma {:induction false} NoWord(s: string)
    requires s != [] && s[0] != 'n' && s[0] != 'f' && s[0] != 't'
    ensures !StartsWith(s, "null") && !StartsWith(s, "false") && !StartsWith(s, "true")
  {
  }

  lemma {:induction false} WordRoundTrip(j: Json, rest: string, depth: nat)
    requires (j.Null? || j.Bool?) && Terminated(rest)
    ensures Terminated(Print(j) + rest)
    ensures ParseValue(Print(j) + rest, depth) == Some((j, rest))
  {
    var word := Print(j);
    Appended(word, rest);
    var s := word + rest;
    assert s[..|word|] == word && s[|word|..] == rest;
    assert s[0] == word[0];
    assert |s| >= 4 ==> s[..4][0] == s[0];
    assert |s| >= 5 ==> s[..5][0] == s[0];
  }

  lemma {:induction false} TextRoundTrip(t: string, rest: string, depth: nat)
    requires NulFree(t) && Terminated(rest)
    ensures Terminated(Quoted(t) + rest)
    ensures ParseValue(Quoted(t) + rest, depth) == Some((Text(t), rest))
  {
    StringRoundTrip(t, rest);
    NoWord(Quoted(t) + rest);
  }

  lemma {:induction false} WholeRoundTrip(n: real, rest: string, depth: nat)
    requires Whole(n) && Terminated(rest) && !IsNumberChar(rest[0])
    ensures Terminated(Signed(n.Floor) + rest)
    ensures ParseValue(Signed(n.Floor) + rest, depth) == Some((Number(n), rest))
  {
    var s := Signed(n.Floor);
    NumberRoundTrip(n, rest);
    assert s[0] == '-' || IsDigit(s[0]) by {
      assert IsDigit(Natural(if n.Floor < 0 then -n.Floor else n.Floor)[0]);
    }
    Appended(s, rest);
    NoWord(s + rest);
  }

  function Within<T>(depth: nat, value: T, rest: string): Option<(T, string)> {
    if depth <= NESTING_LIMIT then Some((value, rest)) else None
  }

  // The parser on one construct, given how it reads the parts; `p`, `q` and `v` are the printed parts.

  lemma {:induction false} ReadArray(p: string, rest: string, depth: nat, items: seq<Json>, d: nat)
    requires p != [] && ' ' < p[0] && p[0] != ']' && Terminated(rest) && Terminated(p + ("]" + rest))
    requires depth < NESTING_LIMIT ==> ParseElements(p + ("]" + rest), depth + 1) == Within(depth + 1 + d, items, rest)
    ensures Terminated("[" + (p + ("]" + rest)))
    ensures ParseArray("[" + (p + ("]" + rest)), depth) == Within(depth + 1 + d, items, rest)
  {
  }

  lemma {:induction false} ReadEmptyArray(rest: string, depth: nat)
    requires Terminated(rest)
    ensures Terminated("[" + ("]" + rest))
    ensures ParseArray("[" + ("]" + rest), depth) == Within(depth + 1, [], rest)
  {
  }

  lemma {:induction false} ReadLastElement(p: string, x: Json, d: nat, rest: string, depth: nat)
    requires p != [] && ' ' < p[0] && Terminated(rest) && Terminated("]" + rest) && Terminated(p + ("]" + rest))
    requires ParseValue(p + ("]" + rest), depth) == Within(depth + d, x, "]" + rest)
    ensures ParseElements(p + ("]" + rest), depth) == Within(depth + d, [x], rest)
  {
  }

  lemma {:induction false} ReadNextElement(
    p: string, x: Json, d: nat, more: string, tail: seq<Json>, e: nat, rest: string, depth: nat)
    requires p != [] && ' ' < p[0] && Terminated(more) && Terminated("," + more) && Terminated(p + ("," + more))
    requires ParseValue(p + ("," + more), depth) == Within(depth + d, x, "," + more)
    requires ParseElements(more, depth) == Within(depth + e, tail, rest)
    ensures ParseElements(p + ("," + more), depth) == Within(depth + Max(d, e), [x] + tail, rest)
  {
  }

  lemma {:induction false} ReadObject(p: string, rest: string, depth: nat, fields: seq<Field>, d: nat)
    requires p != [] && ' ' < p[0] && p[0] != '}' && Terminated(rest) && Terminated(p + ("}" + rest))
    requires depth < NESTING_LIMIT ==> ParseMembers(p + ("}" + rest), depth + 1) == Within(depth + 1 + d, fields, rest)
    ensures Terminated("{" + (p + ("}" + rest)))
    ensures ParseObject("{" + (p + ("}" + rest)), depth) == Within(depth + 1 + d, fields, rest)
  {
  }

  lemma {:induction false} ReadEmptyObject(rest: string, depth: nat)
    requires Terminated(rest)
    ensures Terminated("{" + ("}" + rest))
    ensures ParseObject("{" + ("}" + rest), depth) == Within(depth + 1, [], rest)
  {
  }

  lemma {:induction false} ReadName(key: string, rest: string)
    requires NulFree(key) && Terminated(rest)
    ensures Terminated(Quoted(key) + (":" + rest))
    ensures ParseName(Quoted(key) + (":" + rest)) == Some((key, rest))
  {
    Appended(":", rest);
    NothingToSkip(Quoted(key), ":" + rest);
    StringRoundTrip(key, ":" + rest);
    NothingToSkip(":", rest);
    assert (":" + rest)[1..] == rest;
  }

  lemma {:induction false} ReadMember(s: string, f: Field, v: string, d: nat, after: string, depth: nat)
    requires v != [] && ' ' < v[0] && Terminated(after) && Terminated(v + after)
    requires Terminated(s) && ParseName(s) == Some((f.key, v + after))
    requires ParseValue(v + after, depth) == Within(depth + d, f.value, after)
    ensures ParseMember(s, depth) == Within(depth + d, f, after)
  {
    NothingToSkip(v, after);
  }

  lemma {:induction false} ReadLastMember(s: string, f: Field, d: nat, rest: string, depth: nat)
    requires Terminated(s) && Terminated(rest) && Terminated("}" + rest)
    requires ParseMember(s, depth) == Within(depth + d, f, "}" + rest)
    ensures ParseMembers(s, depth) == Within(depth + d, [f], rest)
  {
    NothingToSkip("}", rest);
    TailOfCons('}', rest);
  }

  lemma {:induction false} ReadNextMember(
    s: string, f: Field, d: nat, more: string, tail: seq<Field>, e: nat, rest: string, depth: nat)
    requires Terminated(s) && Terminated(more) && Terminated("," + more)
    requires ParseMember(s, depth) == Within(depth + d, f, "," + more)
    requires ParseMembers(more, depth) == Within(depth + e, tail, rest)
    ensures ParseMembers(s, depth) == Within(depth + Max(d, e), [f] + tail, rest)
  {
    NothingToSkip(",", more);
    TailOfCons(',', more);
  }

  // ---------- printed parts ----------

  /** What may follow a value: it does not extend a number. */
  predicate Follows(rest: string) {
    Terminated(rest) && !IsNumberChar(rest[0])
  }

  ghost predicate ReadsAt(p: string, j: Json, d: nat, rest: string, depth: nat) {
    Terminated(p + rest) && ParseValue(p + rest, depth) == Within(depth + d, j, rest)
  }

  /** `p` reads as the value `j`, which nests `d` deep: whatever follows it, at every depth. */
  ghost predicate Reads(p: string, j: Json, d: nat) {
    && p != [] && ' ' < p[0] && p[0] != ']'
    && forall rest, depth: nat :: Follows(rest) && depth <= NESTING_LIMIT ==> ReadsAt(p, j, d, rest, depth)
  }

  ghost predicate ReadsItemsAt(p: string, items: seq<Json>, d: nat, rest: string, depth: nat) {
    Terminated(p + ("]" + rest)) && ParseElements(p + ("]" + rest), depth) == Within(depth + d, items, rest)
  }

  /** `p` and a closing bracket read as the elements. */
  ghost predicate ReadsItems(p: string, items: seq<Json>, d: nat) {
    && p != [] && ' ' < p[0] && p[0] != ']'
    && forall rest, depth: nat :: Terminated(rest) && depth <= NESTING_LIMIT ==> ReadsItemsAt(p, items, d, rest, depth)
  }

  ghost predicate ReadsFieldsAt(p: string, fields: seq<Field>, d: nat, rest: string, depth: nat) {
    Terminated(p + ("}" + rest)) && ParseMembers(p + ("}" + rest), depth) == Within(depth + d, fields, rest)
  }

  /** `p` and a closing brace read as the members. */
  ghost predicate ReadsFields(p: string, fields: seq<Field>, d: nat) {
    && p != [] && ' ' < p[0] && p[0] != '}'
    && forall rest, depth: nat ::
         Terminated(rest) && depth <= NESTING_LIMIT ==> ReadsFieldsAt(p, fields, d, rest, depth)
  }

  lemma {:induction false} ScalarReads(j: Json)
    requires Printable(j) && !j.Array? && !j.Object?
    ensures Reads(Print(j), j, 0)
  {
    FirstChar(j);
    forall rest, depth: nat | Follows(rest) && depth <= NESTING_LIMIT ensures ReadsAt(Print(j), j, 0, rest, depth) {
      match j {
        case Null => WordRoundTrip(j, rest, depth);
        case Bool(_) => WordRoundTrip(j, rest, depth);
        case Number(n) => WholeRoundTrip(n, rest, depth);
        case Text(t) => TextRoundTrip(t, rest, depth);
      }
    }
  }

  lemma {:induction false} ValueOfArray(s: string, depth: nat, items: seq<Json>, d: nat, rest: string)
    requires Terminated(s) && s[0] == '[' && ParseArray(s, depth) == Within(d, items, rest)
    ensures ParseValue(s, depth) == Within(d, Array(items), rest)
  {
    NoWord(s);
  }

  lemma {:induction false} ValueOfObject(s: string, depth: nat, fields: seq<Field>, d: nat, rest: string)
    requires Terminated(s) && s[0] == '{' && ParseObject(s, depth) == Within(d, fields, rest)
    ensures ParseValue(s, depth) == Within(d, Object(fields), rest)
  {
    NoWord(s);
  }

  lemma {:induction false} ArrayReads(p: string, items: seq<Json>, d: nat)
    requires ReadsItems(p, items, d)
    ensures Reads("[" + p + "]", Array(items), 1 + d)
  {
    var all, e := "[" + p + "]", 1 + d;
    forall rest, depth: nat | Follows(rest) && depth <= NESTING_LIMIT
      ensures ReadsAt(all, Array(items), e, rest, depth)
    {
      Appended("]", rest);
      Appended(p, "]" + rest);
      assert depth < NESTING_LIMIT ==> ReadsItemsAt(p, items, d, rest, depth + 1);
      ReadArray(p, rest, depth, items, d);
      ValueOfArray("[" + (p + ("]" + rest)), depth, items, depth + 1 + d, rest);
      RegroupFour("[", p, "]", rest);
    }
  }

  lemma {:induction false} EmptyArrayReads()
    ensures Print(Array([])) == "[]" && Reads("[]", Array([]), 1)
  {
    forall rest, depth: nat | Follows(rest) && depth <= NESTING_LIMIT ensures ReadsAt("[]", Array([]), 1, rest, depth) {
      ReadEmptyArray(rest, depth);
      ValueOfArray("[" + ("]" + rest), depth, [], depth + 1, rest);
      assert "[]" + rest == "[" + ("]" + rest);
    }
  }

  lemma {:induction false} ObjectReads(p: string, fields: seq<Field>, d: nat)
    requires ReadsFields(p, fields, d)
    ensures Reads("{" + p + "}", Object(fields), 1 + d)
  {
    var all, e := "{" + p + "}", 1 + d;
    forall rest, depth: nat | Follows(rest) && depth <= NESTING_LIMIT
      ensures ReadsAt(all, Object(fields), e, rest, depth)
    {
      Appended("}", rest);
      Appended(p, "}" + rest);
      assert depth < NESTING_LIMIT ==> ReadsFieldsAt(p, fields, d, rest, depth + 1);
      ReadObject(p, rest, depth, fields, d);
      ValueOfObject("{" + (p + ("}" + rest)), depth, fields, depth + 1 + d, rest);
      RegroupFour("{", p, "}", rest);
    }
  }

  lemma {:induction false} EmptyObjectReads()
    ensures Print(Object([])) == "{}" && Reads("{}", Object([]), 1)
  {
    forall rest, depth: nat | Follows(rest) && depth <= NESTING_LIMIT
      ensures ReadsAt("{}", Object([]), 1, rest, depth)
    {
      ReadEmptyObject(rest, depth);
      ValueOfObject("{" + ("}" + rest), depth, [], depth + 1, rest);
      assert "{}" + rest == "{" + ("}" + rest);
    }
  }

  lemma {:induction false} LastItemReads(p: string, x: Json, d: nat)
    requires Reads(p, x, d)
    ensures ReadsItems(p, [x], d)
  {
    forall rest, depth: nat | Terminated(rest) && depth <= NESTING_LIMIT ensures ReadsItemsAt(p, [x], d, rest, depth) {
      Appended("]", rest);
      assert ReadsAt(p, x, d, "]" + rest, depth);
      ReadLastElement(p, x, d, rest, depth);
    }
  }

  lemma {:induction false} NextItemReads(p: string, x: Json, d: nat, q: string, tail: seq<Json>, e: nat)
    requires Reads(p, x, d) && ReadsItems(q, tail, e)
    ensures ReadsItems(p + ("," + q), [x] + tail, Max(d, e))
  {
    forall rest, depth: nat | Terminated(rest) && depth <= NESTING_LIMIT
      ensures ReadsItemsAt(p + ("," + q), [x] + tail, Max(d, e), rest, depth) {
      assert ReadsItemsAt(q, tail, e, rest, depth);
      var more := q + ("]" + rest);
      Appended(",", more);
      assert ReadsAt(p, x, d, "," + more, depth);
      ReadNextElement(p, x, d, more, tail, e, rest, depth);
      RegroupFour(p, ",", q, "]" + rest);
    }
  }

  lemma {:induction false} LastFieldReads(f: Field, v: string, d: nat)
    requires NulFree(f.key) && Reads(v, f.value, d)
    ensures ReadsFields(Quoted(f.key) + (":" + v), [f], d)
  {
    var p := Quoted(f.key) + (":" + v);
    forall rest, depth: nat | Terminated(rest) && depth <= NESTING_LIMIT ensures ReadsFieldsAt(p, [f], d, rest, depth) {
      Appended("}", rest);
      assert ReadsAt(v, f.value, d, "}" + rest, depth);
      ReadName(f.key, v + ("}" + rest));
      var s := Quoted(f.key) + (":" + (v + ("}" + rest)));
      ReadMember(s, f, v, d, "}" + rest, depth);
      ReadLastMember(s, f, d, rest, depth);
      RegroupFour(Quoted(f.key), ":", v, "}" + rest);
    }
  }

  lemma {:induction false} NextFieldReads(f: Field, v: string, d: nat, q: string, tail: seq<Field>, e: nat)
    requires NulFree(f.key) && Reads(v, f.value, d) && ReadsFields(q, tail, e)
    ensures ReadsFields((Quoted(f.key) + (":" + v)) + ("," + q), [f] + tail, Max(d, e))
  {
    var name := Quoted(f.key);
    forall rest, depth: nat | Terminated(rest) && depth <= NESTING_LIMIT
      ensures ReadsFieldsAt((name + (":" + v)) + ("," + q), [f] + tail, Max(d, e), rest, depth) {
      assert ReadsFieldsAt(q, tail, e, rest, depth);
      var more := q + ("}" + rest);
      Appended(",", more);
      assert ReadsAt(v, f.value, d, "," + more, depth);
      ReadName(f.key, v + ("," + more));
      var s := name + (":" + (v + ("," + more)));
      ReadMember(s, f, v, d, "," + more, depth);
      ReadNextMember(s, f, d, more, tail, e, rest, depth);
      RegroupFour(name + (":" + v), ",", q, "}" + rest);
      RegroupFour(name, ":", v, "," + more);
    }
  }

  // ---------- all values ----------

  /** Every printed value reads back, whatever follows it, or fails when it nests too deep. */
  lemma {:induction false} ValueReads(j: Json)
    requires Printable(j)
    ensures Reads(Print(j), j, Depth(j))
  {
    if j.Array? {
      if j.items == [] {
        EmptyArrayReads();
      } else {
        ItemsRead(j.items);
        ArrayReads(PrintItems(j.items), j.items, ItemsDepth(j.items));
      }
    } else if j.Object? {
      if j.fields == [] {
        EmptyObjectReads();
      } else {
        FieldsRead(j.fields);
        ObjectReads(PrintFields(j.fields), j.fields, FieldsDepth(j.fields));
      }
    } else {
      ScalarReads(j);
    }
  }

  lemma {:induction false} ItemsRead(items: seq<Json>)
    requires items != [] && AllPrintable(items)
    ensures ReadsItems(PrintItems(items), items, ItemsDepth(items))
  {
    var x, tail := items[0], items[1..];
    ValueReads(x);
    if tail == [] {
      assert items == [x];
      LastItemReads(Print(x), x, Depth(x));
    } else {
      assert items == [x] + tail;
      ItemsRead(tail);
      NextItemReads(Print(x), x, Depth(x), PrintItems(tail), tail, ItemsDepth(tail));
    }
  }

  lemma {:induction false} FieldsRead(fields: seq<Field>)
    requires fields != [] && FieldsPrintable(fields)
    ensures ReadsFields(PrintFields(fields), fields, FieldsDepth(fields))
  {
    var f, tail := fields[0], fields[1..];
    ValueReads(f.value);
    if tail == [] {
      assert fields == [f];
      LastFieldReads(f, Print(f.value), Depth(f.value));
    } else {
      assert fields == [f] + tail;
      FieldsRead(tail);
      NextFieldReads(f, Print(f.value), Depth(f.value), PrintFields(tail), tail, FieldsDepth(tail));
    }
  }

  /** The round trip, and its exact limit. */
  lemma {:induction false} RoundTrip(j: Json)
    requires Printable(j)
    ensures Parse(Print(j)) == if Depth(j) <= 1000 then Some(j) else None
  {
    FirstChar(j);
    NothingToSkip(Print(j), ['\0']);
    FirstIsAscii(j);
    ValueReads(j);
    assert ReadsAt(Print(j), j, Depth(j), ['\0'], 0);
  }

  lemma {:induction false} FirstIsAscii(j: Json)
    requires Printable(j)
    ensures Print(j) != [] && Print(j)[0] < 128 as char
  {
  }

  /** Different values print differently. */
  lemma {:induction false} PrintInjective(j: Json, k: Json)
    requires Printable(j) && Printable(k) && Depth(j) <= NESTING_LIMIT && Print(j) == Print(k)
    ensures j == k
  {
    RoundTrip(j);
    RoundTrip(k);
  }
}
