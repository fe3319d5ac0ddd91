/** What c-sdk-common/src/cJSON.c prints and parses, as functions. A character stands for a byte; the text
    being parsed is what is left of the buffer, which ends with the terminator of the C string. */
module JsonText {
  import opened Basics
  import opened JsonValue
  import opened Decimal

  // ---------- printing (section 7 of RFC 8259 for the escapes) ----------

  /** How one character of a string is written. */
  function Escape(c: char): string {
    if c == '\"' then "\\\""
    else if c == '\\' then "\\\\"
    else if c == 8 as char then "\\b"
    else if c == 12 as char then "\\f"
    else if c == '\n' then "\\n"
    else if c == '\r' then "\\r"
    else if c == '\t' then "\\t"
    else if c < ' ' then "\\u00" + [HEX[c as int / 16], HEX[c as int % 16]]
    else [c]
  }

  function EscapeAll(s: string): string {
    if s == [] then [] else Escape(s[0]) + EscapeAll(s[1..])
  }

  function Quoted(s: string): string {
    "\"" + EscapeAll(s) + "\""
  }

  predicate NulFree(s: string) {
    forall i :: 0 <= i < |s| ==> s[i] != '\0'
  }

  /** A number that print_number writes with %1.15g as plain digits. */
  predicate Whole(n: real) {
    n == n.Floor as real && -1_000_000_000_000_000 < n.Floor < 1_000_000_000_000_000
  }

  predicate Printable(j: Json) {
    match j
    case Number(n) => Whole(n)
    case Text(s) => NulFree(s)
    case Array(items) => AllPrintable(items)
    case Object(fields) => FieldsPrintable(fields)
    case _ => true
  }

  predicate AllPrintable(items: seq<Json>) {
    items == [] || (Printable(items[0]) && AllPrintable(items[1..]))
  }

  predicate FieldsPrintable(fields: seq<Field>) {
    fields == [] || (NulFree(fields[0].key) && Printable(fields[0].value) && FieldsPrintable(fields[1..]))
  }

  /** print_value, unformatted. */
  function Print(j: Json): string
    requires Printable(j)
  {
    match j
    case Null => "null"
    case Bool(b) => if b then "true" else "false"
    case Number(n) => Signed(n.Floor)
    case Text(s) => Quoted(s)
    case Array(items) => "[" + PrintItems(items) + "]"
    case Object(fields) => "{" + PrintFields(fields) + "}"
  }

  /** The elements of an array, comma separated. */
  function PrintItems(items: seq<Json>): string
    requires AllPrintable(items)
  {
    if items == [] then ""
    else if |items| == 1 then Print(items[0])
    else Print(items[0]) + ("," + PrintItems(items[1..]))
  }

  function PrintField(field: Field): string
    requires NulFree(field.key) && Printable(field.value)
  {
    Quoted(field.key) + (":" + Print(field.value))
  }

  function PrintFields(fields: seq<Field>): string
    requires FieldsPrintable(fields)
  {
    if fields == [] then ""
    else if |fields| == 1 then PrintField(fields[0])
    else PrintField(fields[0]) + ("," + PrintFields(fields[1..]))
  }

  // ---------- parsing ----------

  const NESTING_LIMIT := 1000

  /** The buffer ends with the terminator, which no token includes. */
  predicate Terminated(s: string) {
    s != [] && s[|s| - 1] == '\0'
  }

  /** buffer_skip_whitespace: the terminator counts as white space, but is stepped back onto. */
  function SkipWhitespace(s: string): (r: string)
    requires Terminated(s)
    ensures Terminated(r) && |r| <= |s|
  {
    if |s| > 1 && s[0] <= ' ' then SkipWhitespace(s[1..]) else s
  }

  predicate StartsWith(s: string, word: string) {
    |word| <= |s| && s[..|word|] == word
  }

  // ---------- numbers ----------

  predicate IsNumberChar(c: char) {
    IsDigit(c) || c == '+' || c == '-' || c == 'e' || c == 'E' || c == '.'
  }

  /** How many characters parse_number copies into its 64-byte buffer. */
  function NumberRun(s: string, room: nat): (n: nat)
    ensures n <= |s|
  {
    if room == 0 || s == [] || !IsNumberChar(s[0]) then 0 else 1 + NumberRun(s[1..], room - 1)
  }

  function SignLength(s: string): nat {
    if s != [] && (s[0] == '+' || s[0] == '-') then 1 else 0
  }

  function FractionLength(s: string): (n: nat)
    ensures n <= |s|
  {
    if s != [] && s[0] == '.' then 1 + DigitRun(s[1..]) else 0
  }

  /** The exponent a string starts with and its length, if it is complete. */
  function Exponent(s: string): (r: (int, nat))
    ensures r.1 <= |s|
  {
    if s == [] || !(s[0] == 'e' || s[0] == 'E') then (0, 0)
    else
      var sign := SignLength(s[1..]);
      var n := DigitRun(s[1 + sign..]);
      if n == 0 then (0, 0)
      else
        var e: int := Value(s[1 + sign..][..n]);
        (if s[1] == '-' then -e else e, 1 + sign + n)
  }

  /** `x` times ten to the power `e`. */
  function Scaled(x: real, e: int): real
    decreases if e < 0 then -e else e
  {
    if e == 0 then x else if e > 0 then Scaled(10.0 * x, e - 1) else Scaled(x / 10.0, e + 1)
  }

  /** strtod on an unsigned decimal numeral, exactly: the value, and how many characters it read. */
  function Unsigned(u: string): (r: (real, nat))
    ensures r.1 <= |u|
  {
    var i := DigitRun(u);
    var f := FractionLength(u[i..]);
    if i == 0 && f <= 1 then (0.0, 0)
    else
      var (e, x) := Exponent(u[i + f..]);
      (Mantissa(u, i, f, e), i + f + x)
  }

  /** `i` digits, a fraction of length `f` with its point, and the exponent. */
  function Mantissa(u: string, i: nat, f: nat, e: int): real
    requires i == DigitRun(u) && f == FractionLength(u[i..])
  {
    if f == 0 then Scaled(Value(u[..i]) as real, e)
    else
      var fraction := u[i..][1..][..f - 1];
      Scaled(Value(u[..i]) as real, e) + Scaled(Value(fraction) as real, e - (f - 1))
  }

  function Strtod(s: string): (r: (real, nat))
    ensures r.1 <= |s|
  {
    WithSign(s, Unsigned(s[SignLength(s)..]))
  }

  /** The sign of `s` applied to what follows it; a sign alone is no number. */
  function WithSign(s: string, r: (real, nat)): (real, nat) {
    if r.1 == 0 then (0.0, 0)
    else (if s != [] && s[0] == '-' then -r.0 else r.0, SignLength(s) + r.1)
  }

  /** parse_number. */
  function ParseNumber(s: string): (r: Option<(real, string)>)
    requires Terminated(s)
    ensures r.Some? ==> Terminated(r.value.1) && |r.value.1| < |s|
  {
    var n := NumberRun(s, 63);
    RunBeforeTerminator(s, 63);
    var (value, length) := Strtod(s[..n]);
    if length == 0 then None else Some((value, s[length..]))
  }

  lemma {:induction false} RunBeforeTerminator(s: string, room: nat)
    requires Terminated(s)
    ensures NumberRun(s, room) < |s|
  {
    if room > 0 && IsNumberChar(s[0]) {
      RunBeforeTerminator(s[1..], room - 1);
    }
  }

  // ---------- strings ----------

  /** Where the closing quote is, skipping escaped characters; `s` follows the opening quote. */
  function ClosingQuote(s: string): (r: Option<nat>)
    ensures r.Some? ==> r.value < |s| && s[r.value] == '\"'
  {
    if s == [] then None
    else if s[0] == '\"' then Some(0)
    else if s[0] == '\\' then
      if |s| < 2 then None else Shifted(2, ClosingQuote(s[2..]))
    else Shifted(1, ClosingQuote(s[1..]))
  }

  function Shifted(k: nat, r: Option<nat>): Option<nat> {
    match r
    case None => None
    case Some(n) => Some(n + k)
  }

  /** parse_hex4; four characters that are not all digits give zero. */
  function Hex4(a: char, b: char, c: char, d: char): (h: nat)
    ensures h < 0x10000
  {
    if HexDigit(a).None? || HexDigit(b).None? || HexDigit(c).None? || HexDigit(d).None? then 0
    else ((HexDigit(a).value * 16 + HexDigit(b).value) * 16 + HexDigit(c).value) * 16 + HexDigit(d).value
  }

  /** The UTF-8 encoding of a code point. */
  function Utf8(code: nat): string
    requires code < 0x110000
  {
    if code < 0x80 then [code as char]
    else if code < 0x800 then [(0xC0 + code / 64) as char, (0x80 + code % 64) as char]
    else if code < 0x10000 then [(0xE0 + code / 4096) as char, (0x80 + code / 64 % 64) as char,
      (0x80 + code % 64) as char]
    else [(0xF0 + code / 262144) as char, (0x80 + code / 4096 % 64) as char, (0x80 + code / 64 % 64) as char,
      (0x80 + code % 64) as char]
  }

  /** utf16_literal_to_utf8 with `n` characters left before the closing quote: the bytes and the length of the
      literal. */
  function Utf16(s: string, n: int): (r: Option<(string, nat)>)
    requires n < |s|
    ensures r.Some? ==> 0 < r.value.1 <= n
  {
    if n < 6 then None
    else
      var first := Hex4(s[2], s[3], s[4], s[5]);
      if 0xDC00 <= first <= 0xDFFF then None
      else if 0xD800 <= first <= 0xDBFF then
        if n < 12 || s[6] != '\\' || s[7] != 'u' then None
        else
          var second := Hex4(s[8], s[9], s[10], s[11]);
          if second < 0xDC00 || second > 0xDFFF then None
          else Some((Utf8(0x10000 + (first - 0xD800) * 1024 + (second - 0xDC00)), 12))
      else Some((Utf8(first), 6))
  }

  /** What a two-character escape stands for. */
  function SimpleEscape(c: char): Option<char> {
    if c == 'b' then Some(8 as char)
    else if c == 'f' then Some(12 as char)
    else if c == 'n' then Some('\n')
    else if c == 'r' then Some('\r')
    else if c == 't' then Some('\t')
    else if c == '\"' || c == '\\' || c == '/' then Some(c)
    else None
  }

  function Prepend(s: string, r: Option<string>): Option<string> {
    match r
    case None => None
    case Some(t) => Some(s + t)
  }

  /** The decoding loop of parse_string, `n` characters before the closing quote. A \u literal may reach over a
      backslash the search for the quote skipped, so the last escape may read the quote itself. */
  function Decode(s: string, n: int): Option<string>
    requires n < |s|
    decreases |s|
  {
    if n <= 0 then Some("")
    else if s[0] != '\\' then Prepend([s[0]], Decode(s[1..], n - 1))
    else if s[1] == 'u' then
      match Utf16(s, n)
      case None => None
      case Some((bytes, length)) => Prepend(bytes, Decode(s[length..], n - length))
    else
      match SimpleEscape(s[1])
      case None => None
      case Some(c) => Prepend([c], Decode(s[2..], n - 2))
  }

  /** parse_string. */
  function ParseString(s: string): (r: Option<(string, string)>)
    requires Terminated(s)
    ensures r.Some? ==> Terminated(r.value.1) && |r.value.1| < |s|
  {
    if s[0] != '\"' then None
    else match ClosingQuote(s[1..])
      case None => None
      case Some(n) =>
        match Decode(s[1..], n)
        case None => None
        case Some(t) => assert s[n + 1] == '\"'; Some((CString(t, '\0'), s[n + 2..]))
  }

  // ---------- values ----------

  /** parse_value. */
  function ParseValue(s: string, depth: nat): (r: Option<(Json, string)>)
    requires Terminated(s)
    ensures r.Some? ==> Terminated(r.value.1) && |r.value.1| < |s|
    decreases |s|, 1
  {
    if StartsWith(s, "null") then AfterWord(s, 4); Some((Null, s[4..]))
    else if StartsWith(s, "false") then AfterWord(s, 5); Some((Bool(false), s[5..]))
    else if StartsWith(s, "true") then AfterWord(s, 4); Some((Bool(true), s[4..]))
    else if s[0] == '\"' then
      match ParseString(s)
      case None => None
      case Some((t, rest)) => Some((Text(t), rest))
    else if s[0] == '-' || IsDigit(s[0]) then
      match ParseNumber(s)
      case None => None
      case Some((n, rest)) => Some((Number(n), rest))
    else if s[0] == '[' then
      match ParseArray(s, depth)
      case None => None
      case Some((items, rest)) => Some((Array(items), rest))
    else if s[0] == '{' then
      match ParseObject(s, depth)
      case None => None
      case Some((fields, rest)) => Some((Object(fields), rest))
    else None
  }

  lemma {:induction false} AfterWord(s: string, n: nat)
    requires Terminated(s) && 0 < n <= |s| && s[n - 1] != '\0'
    ensures n < |s|
  {
  }

  /** parse_array, from the opening bracket. */
  function ParseArray(s: string, depth: nat): (r: Option<(seq<Json>, string)>)
    requires Terminated(s) && s[0] == '['
    ensures r.Some? ==> Terminated(r.value.1) && |r.value.1| < |s|
    decreases |s|, 0
  {
    if depth >= NESTING_LIMIT then None
    else
      var first := SkipWhitespace(s[1..]);
      if first[0] == ']' then Some(([], first[1..])) else ParseElements(first, depth + 1)
  }

  /** The loop of parse_array. */
  function ParseElements(s: string, depth: nat): (r: Option<(seq<Json>, string)>)
    requires Terminated(s)
    ensures r.Some? ==> Terminated(r.value.1) && |r.value.1| < |s|
    decreases |s|, 2
  {
    match ParseValue(SkipWhitespace(s), depth)
    case None => None
    case Some((item, after)) =>
      var next := SkipWhitespace(after);
      if next[0] == ',' then
        match ParseElements(next[1..], depth)
        case None => None
        case Some((items, rest)) => Some(([item] + items, rest))
      else if next[0] == ']' then Some(([item], next[1..]))
      else None
  }

  /** parse_object, from the opening brace. */
  function ParseObject(s: string, depth: nat): (r: Option<(seq<Field>, string)>)
    requires Terminated(s) && s[0] == '{'
    ensures r.Some? ==> Terminated(r.value.1) && |r.value.1| < |s|
    decreases |s|, 0
  {
    if depth >= NESTING_LIMIT then None
    else
      var first := SkipWhitespace(s[1..]);
      if first[0] == '}' then Some(([], first[1..])) else ParseMembers(first, depth + 1)
  }

  /** The name of a member and its colon. */
  function ParseName(s: string): (r: Option<(string, string)>)
    requires Terminated(s)
    ensures r.Some? ==> Terminated(r.value.1) && |r.value.1| < |s|
  {
    match ParseString(SkipWhitespace(s))
    case None => None
    case Some((name, after)) =>
      var next := SkipWhitespace(after);
      if next[0] != ':' then None else Some((name, next[1..]))
  }

  /** One member: its name, a colon and its value. */
  function ParseMember(s: string, depth: nat): (r: Option<(Field, string)>)
    requires Terminated(s)
    ensures r.Some? ==> Terminated(r.value.1) && |r.value.1| < |s|
    decreases |s|, 2
  {
    match ParseName(s)
    case None => None
    case Some((name, colon)) =>
      match ParseValue(SkipWhitespace(colon), depth)
      case None => None
      case Some((value, after)) => Some((Field(name, value), after))
  }

  /** The loop of parse_object. */
  function ParseMembers(s: string, depth: nat): (r: Option<(seq<Field>, string)>)
    requires Terminated(s)
    ensures r.Some? ==> Terminated(r.value.1) && |r.value.1| < |s|
    decreases |s|, 3
  {
    match ParseMember(s, depth)
    case None => None
    case Some((field, after)) =>
      var next := SkipWhitespace(after);
      if next[0] == ',' then
        match ParseMembers(next[1..], depth)
        case None => None
        case Some((fields, rest)) => Some(([field] + fields, rest))
      else if next[0] == '}' then Some(([field], next[1..]))
      else None
  }

  function SkipBom(s: string): (r: string)
    requires Terminated(s)
    ensures Terminated(r)
  {
    if |s| > 4 && s[0] == 0xEF as char && s[1] == 0xBB as char && s[2] == 0xBF as char then s[3..] else s
  }

  /** cJSON_Parse of the C string `text`; what follows the value is ignored. */
  function Parse(text: string): Option<Json> {
    match ParseValue(SkipWhitespace(SkipBom(text + ['\0'])), 0)
    case None => None
    case Some((j, _)) => Some(j)
  }
}
