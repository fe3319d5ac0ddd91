/** parse_buffer of c-sdk-common/src/cJSON.c: an offset and a depth moving over the text, against module
    JsonText. A failed parse is abandoned by every caller, so nothing is said of the buffer after one. */
module JsonParser {
  import opened Basics
  import opened JsonValue
  import opened Decimal
  import opened JsonText
  import opened JsonString
  import JsonCode
  import JsonRoundTrip

  /** The code's answer and what it left unread are those of the function. */
  ghost predicate Agrees<T>(r: Option<T>, expected: Option<(T, string)>, rest: string) {
    match expected
    case None => r.None?
    case Some((value, after)) => r == Some(value) && rest == after
  }

  function Joined<T>(done: seq<T>, r: Option<(seq<T>, string)>): Option<(seq<T>, string)> {
    match r
    case None => None
    case Some((more, rest)) => Some((done + more, rest))
  }

  // ---------- loops over the rest of the text ----------

  /** The loop of buffer_skip_whitespace with its step back from the end. */
  method SkipLoop(content: string, start: nat) returns (offset: nat)
    requires Terminated(content) && start < |content|
    ensures offset < |content| && content[offset..] == SkipWhitespace(content[start..])
  {
    offset := start;
    while offset < |content| && content[offset] <= ' '
      invariant start <= offset <= |content|
      invariant offset < |content| ==> SkipWhitespace(content[start..]) == SkipWhitespace(content[offset..])
      invariant offset == |content| ==> SkipWhitespace(content[start..]) == content[|content| - 1..]
    {
      assert content[offset..][1..] == content[offset + 1..];
      offset := offset + 1;
    }
    if offset == |content| {
      offset := offset - 1;
    }
  }

  /** The copying loop of parse_number. */
  method NumberLoop(s: string) returns (i: nat)
    ensures i == NumberRun(s, 63)
  {
    i := 0;
    assert s[0..] == s;
    while i < 63 && i < |s| && IsNumberChar(s[i])
      invariant i <= 63 && i <= |s|
      invariant NumberRun(s, 63) == i + NumberRun(s[i..], 63 - i)
    {
      assert s[i..][1..] == s[i + 1..];
      i := i + 1;
    }
  }

  // ---------- the parser ----------

  lemma {:induction false} NotTheEnd(s: string)
    requires Terminated(s) && s[0] != '\0'
    ensures |s| > 1 && Terminated(s[1..])
  {
  }

  /** One turn of a comma-separated list moves an element to the ones done. */
  lemma {:induction false} OneDone<T>(done: seq<T>, x: T, r: Option<(seq<T>, string)>)
    ensures Joined(done, Joined([x], r)) == Joined(done + [x], r)
  {
    if r.Some? {
      assert done + ([x] + r.value.0) == (done + [x]) + r.value.0;
    }
  }

  lemma {:induction false} NothingDone<T>(r: Option<(seq<T>, string)>)
    ensures Joined([], r) == r
  {
    if r.Some? {
      assert [] + r.value.0 == r.value.0;
    }
  }

  lemma {:induction false} StringDecoded(s: string, inner: string, d: Option<(string, nat)>)
    requires Terminated(s) && s[0] == '\"' && inner == s[1..]
    requires d.None? <==> ClosingQuote(inner).None? || Decode(inner, ClosingQuote(inner).value).None?
    requires d.Some? ==> d.value == (CString(Decode(inner, ClosingQuote(inner).value).value, '\0'),
      ClosingQuote(inner).value)
    ensures d.None? ==> ParseString(s).None?
    ensures d.Some? ==> d.value.1 + 2 < |s| && ParseString(s) == Some((d.value.0, s[d.value.1 + 2..]))
  {
    if d.Some? {
      assert s[d.value.1 + 1] == inner[d.value.1];
    }
  }

  class Parser {
    const content: string
    var offset: nat
    var depth: nat

    ghost predicate Valid()
      reads this
    {
      Terminated(content) && offset < |content|
    }

    function Rest(): (s: string)
      requires Valid()
      reads this
      ensures Terminated(s)
    {
      content[offset..]
    }

    /** cJSON_ParseWithOpts: the text and its terminator. */
    constructor (text: string)
      ensures Valid() && Rest() == text + ['\0'] && offset == 0 && depth == 0
    {
      content, offset, depth := text + ['\0'], 0, 0;
    }

    method Skip()
      requires Valid()
      modifies this`offset
      ensures Valid() && Rest() == SkipWhitespace(old(Rest()))
    {
      offset := SkipLoop(content, offset);
    }

    /** One character forward, over anything but the terminator. */
    method Advance()
      requires Valid() && Rest()[0] != '\0'
      modifies this`offset
      ensures Valid() && Rest() == old(Rest())[1..]
    {
      NotTheEnd(Rest());
      TailOfTail(content, offset, 1);
      offset := offset + 1;
    }

    method Take(length: nat)
      requires Valid() && length < |Rest()|
      modifies this`offset
      ensures Valid() && Rest() == old(Rest())[length..]
    {
      TailOfTail(content, offset, length);
      offset := offset + length;
    }

    /** Over white space and one comma, if there is one. */
    method Comma() returns (more: bool)
      requires Valid()
      modifies this`offset
      ensures Valid()
      ensures var next := SkipWhitespace(old(Rest())); more == (next[0] == ',') && Rest() == if more then next[1..]
        else next
    {
      Skip();
      more := Rest()[0] == ',';
      if more {
        Advance();
      }
    }

    /** parse_number. */
    method ReadNumber() returns (r: Option<real>)
      requires Valid()
      modifies this`offset
      ensures Valid() && Agrees(r, ParseNumber(old(Rest())), Rest())
    {
      var s := Rest();
      var n := NumberLoop(s);
      RunBeforeTerminator(s, 63);
      var (value, length) := Strtod(s[..n]);
      if length == 0 {
        return None;
      }
      Take(length);
      r := Some(value);
    }

    /** parse_string. */
    method ReadString() returns (r: Option<string>)
      requires Valid()
      modifies this`offset
      ensures Valid() && Agrees(r, ParseString(old(Rest())), Rest())
    {
      var s := Rest();
      if s[0] != '\"' {
        return None;
      }
      var decoded := DecodeString(s[1..]);
      StringDecoded(s, s[1..], decoded);
      if decoded.None? {
        return None;
      }
      var (text, end) := decoded.value;
      Take(end + 2);
      r := Some(text);
    }

    /** parse_value. */
    method ReadValue() returns (r: Option<Json>)
      requires Valid()
      modifies this
      ensures Valid() && Agrees(r, ParseValue(old(Rest()), old(depth)), Rest())
      ensures r.Some? ==> depth == old(depth)
      decreases |content| - offset, 1
    {
      var s := Rest();
      if StartsWith(s, "null") {
        AfterWord(s, 4);
        Take(4);
        return Some(Null);
      }
      if StartsWith(s, "false") {
        AfterWord(s, 5);
        Take(5);
        return Some(Bool(false));
      }
      if StartsWith(s, "true") {
        AfterWord(s, 4);
        Take(4);
        return Some(Bool(true));
      }
      if s[0] == '\"' {
        var t := ReadString();
        return if t.None? then None else Some(Text(t.value));
      }
      if s[0] == '-' || IsDigit(s[0]) {
        var n := ReadNumber();
        return if n.None? then None else Some(Number(n.value));
      }
      if s[0] == '[' {
        var items := ReadArray();
        return if items.None? then None else Some(Array(items.value));
      }
      if s[0] == '{' {
        var fields := ReadObject();
        return if fields.None? then None else Some(Object(fields.value));
      }
      r := None;
    }

    /** parse_array. */
    method ReadArray() returns (r: Option<seq<Json>>)
      requires Valid() && Rest()[0] == '['
      modifies this
      ensures Valid() && Agrees(r, ParseArray(old(Rest()), old(depth)), Rest())
      ensures r.Some? ==> depth == old(depth)
      decreases |content| - offset, 0
    {
      if depth >= NESTING_LIMIT {
        return None;
      }
      depth := depth + 1;
      Advance();
      Skip();
      if Rest()[0] == ']' {
        Advance();
        r := Some([]);
      } else {
        r := ReadElements();
      }
      if r.Some? {
        depth := depth - 1;
      }
    }

    /** One turn of the loop of parse_array: an element, and whether a comma follows. */
    method ReadElement() returns (x: Option<Json>, more: bool)
      requires Valid()
      modifies this
      ensures Valid() && (x.Some? ==> depth == old(depth) && offset > old(offset))
      ensures x.None? ==> ParseElements(old(Rest()), old(depth)).None?
      ensures x.Some? && more ==>
        ParseElements(old(Rest()), old(depth)) == Joined([x.value], ParseElements(Rest(), old(depth)))
      ensures x.Some? && !more ==>
        ParseElements(old(Rest()), old(depth)) == if Rest()[0] == ']' then Some(([x.value], Rest()[1..])) else None
      decreases |content| - offset, 2
    {
      more := false;
      Skip();
      x := ReadValue();
      if x.None? {
        return;
      }
      more := Comma();
    }

    /** The loop of parse_array and the closing bracket. */
    method ReadElements() returns (r: Option<seq<Json>>)
      requires Valid()
      modifies this
      ensures Valid() && Agrees(r, ParseElements(old(Rest()), old(depth)), Rest())
      ensures r.Some? ==> depth == old(depth)
      decreases |content| - offset, 3
    {
      var items, more := [], true;
      ghost var d, expected := depth, ParseElements(Rest(), depth);
      NothingDone(expected);
      while more
        invariant Valid() && depth == d && offset >= old(offset)
        invariant more ==> expected == Joined(items, ParseElements(Rest(), d))
        invariant !more ==> expected == if Rest()[0] == ']' then Some((items, Rest()[1..])) else None
        decreases |content| - offset
      {
        var x;
        x, more := ReadElement();
        if x.None? {
          return None;
        }
        if more {
          OneDone(items, x.value, ParseElements(Rest(), d));
        }
        items := items + [x.value];
      }
      if Rest()[0] != ']' {
        return None;
      }
      Advance();
      r := Some(items);
    }

    /** parse_object. */
    method ReadObject() returns (r: Option<seq<Field>>)
      requires Valid() && Rest()[0] == '{'
      modifies this
      ensures Valid() && Agrees(r, ParseObject(old(Rest()), old(depth)), Rest())
      ensures r.Some? ==> depth == old(depth)
      decreases |content| - offset, 0
    {
      if depth >= NESTING_LIMIT {
        return None;
      }
      depth := depth + 1;
      Advance();
      Skip();
      if Rest()[0] == '}' {
        Advance();
        r := Some([]);
      } else {
        r := ReadMembers();
      }
      if r.Some? {
        depth := depth - 1;
      }
    }

    /** A member's name and its colon. */
    method ReadName() returns (r: Option<string>)
      requires Valid()
      modifies this`offset
      ensures Valid() && Agrees(r, ParseName(old(Rest())), Rest())
    {
      Skip();
      r := ReadString();
      if r.None? {
        return None;
      }
      Skip();
      if Rest()[0] != ':' {
        return None;
      }
      Advance();
    }

    /** A member of an object. */
    method ReadField() returns (f: Option<Field>)
      requires Valid()
      modifies this
      ensures Valid() && Agrees(f, ParseMember(old(Rest()), old(depth)), Rest())
      ensures f.Some? ==> depth == old(depth)
      decreases |content| - offset, 2
    {
      var name := ReadName();
      if name.None? {
        return None;
      }
      Skip();
      var value := ReadValue();
      if value.None? {
        return None;
      }
      f := Some(Field(name.value, value.value));
    }

    /** One turn of the loop of parse_object: a member, and whether a comma follows. */
    method ReadMember() returns (f: Option<Field>, more: bool)
      requires Valid()
      modifies this
      ensures Valid() && (f.Some? ==> depth == old(depth) && offset > old(offset))
      ensures f.None? ==> ParseMembers(old(Rest()), old(depth)).None?
      ensures f.Some? && more ==>
        ParseMembers(old(Rest()), old(depth)) == Joined([f.value], ParseMembers(Rest(), old(depth)))
      ensures f.Some? && !more ==>
        ParseMembers(old(Rest()), old(depth)) == if Rest()[0] == '}' then Some(([f.value], Rest()[1..])) else None
      decreases |content| - offset, 3
    {
      more := false;
      f := ReadField();
      if f.Some? {
        more := Comma();
      }
    }

    /** The loop of parse_object and the closing brace. */
    method ReadMembers() returns (r: Option<seq<Field>>)
      requires Valid()
      modifies this
      ensures Valid() && Agrees(r, ParseMembers(old(Rest()), old(depth)), Rest())
      ensures r.Some? ==> depth == old(depth)
      decreases |content| - offset, 4
    {
      var fields, more := [], true;
      ghost var d, expected := depth, ParseMembers(Rest(), depth);
      NothingDone(expected);
      while more
        invariant Valid() && depth == d && offset >= old(offset)
        invariant more ==> expected == Joined(fields, ParseMembers(Rest(), d))
        invariant !more ==> expected == if Rest()[0] == '}' then Some((fields, Rest()[1..])) else None
        decreases |content| - offset
      {
        var f;
        f, more := ReadMember();
        if f.None? {
          return None;
        }
        if more {
          OneDone(fields, f.value, ParseMembers(Rest(), d));
        }
        fields := fields + [f.value];
      }
      if Rest()[0] != '}' {
        return None;
      }
      Advance();
      r := Some(fields);
    }

    method SkipMark()
      requires Valid()
      modifies this`offset
      ensures Valid() && Rest() == SkipBom(old(Rest()))
    {
      var s := Rest();
      if |s| > 4 && s[0] == 0xEF as char && s[1] == 0xBB as char && s[2] == 0xBF as char {
        Take(3);
      }
    }
  }

  /** cJSON_Parse. */
  method ParseText(text: string) returns (r: Option<Json>)
    ensures r == Parse(text)
  {
    var parser := new Parser(text);
    parser.SkipMark();
    parser.Skip();
    ghost var s := parser.Rest();
    ParseIs(text, s);
    r := parser.ReadValue();
  }

  lemma {:induction false} ParseIs(text: string, s: string)
    requires s == SkipWhitespace(SkipBom(text + ['\0']))
    ensures ParseValue(s, 0).None? ==> Parse(text).None?
    ensures ParseValue(s, 0).Some? ==> Parse(text) == Some(ParseValue(s, 0).value.0)
  {
  }

  /** LDJSONSerialize and LDJSONDeserialize: the value comes back, up to the nesting limit and no further. */
  method SerializeThenParse(j: Json) returns (text: string, r: Option<Json>)
    requires Printable(j)
    ensures text == Print(j)
    ensures r == if JsonRoundTrip.Depth(j) <= 1000 then Some(j) else None
  {
    var printer := new JsonCode.Printer();
    printer.PrintValue(j);
    text := printer.text;
    EmptyEnds(Print(j));
    JsonRoundTrip.RoundTrip(j);
    r := ParseText(text);
  }
}
