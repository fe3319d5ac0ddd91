/** JSON strings as section 7 of RFC 8259 writes them, and the text they parse to. Code points are read back from
    the parsed bytes by a decoder of UTF-8 of its own: marks, payload bits, shortest form. */
module JsonUnicode {
  import opened Basics
  import opened JsonValue
  import opened JsonText
  import JsonRoundTrip

  // ---------- reading UTF-8 ----------

  predicate Continues(c: char) {
    0x80 <= c as int < 0xC0
  }

  /** The six payload bits of a continuation byte. */
  function Payload(c: char): nat
    requires Continues(c)
  {
    c as int - 0x80
  }

  /** How many bytes a lead byte announces; 0 if it is none. */
  function Announced(lead: char): nat {
    var b := lead as int;
    if b < 0x80 then 1 else if b < 0xC0 then 0 else if b < 0xE0 then 2 else if b < 0xF0 then 3
    else if b < 0xF8 then 4 else 0
  }

  function IfShortest(code: nat, least: nat): Option<nat> {
    if least <= code < 0x110000 then Some(code) else None
  }

  predicate Leads(c: char, low: int, high: int) {
    low <= c as int < high
  }

  /** The code point of one character; None for overlong forms and anything else that is not one character. */
  function CodePoint(s: string): Option<nat> {
    if |s| == 1 && Leads(s[0], 0, 0x80) then Some(s[0] as int)
    else if |s| == 2 && Leads(s[0], 0xC0, 0xE0) && Continues(s[1]) then
      IfShortest((s[0] as int - 0xC0) * 64 + Payload(s[1]), 0x80)
    else if |s| == 3 && Leads(s[0], 0xE0, 0xF0) && Continues(s[1]) && Continues(s[2]) then
      IfShortest(((s[0] as int - 0xE0) * 64 + Payload(s[1])) * 64 + Payload(s[2]), 0x800)
    else if |s| == 4 && Leads(s[0], 0xF0, 0xF8) && Continues(s[1]) && Continues(s[2]) && Continues(s[3]) then
      IfShortest((((s[0] as int - 0xF0) * 64 + Payload(s[1])) * 64 + Payload(s[2])) * 64 + Payload(s[3]), 0x10000)
    else None
  }

  function CodePoints(s: string): Option<seq<nat>> {
    if s == [] then Some([])
    else
      var n := Announced(s[0]);
      if n == 0 || n > |s| || CodePoint(s[..n]).None? then None
      else
        match CodePoints(s[n..])
        case None => None
        case Some(rest) => Some([CodePoint(s[..n]).value] + rest)
  }

  lemma {:induction false} SixBits(n: nat)
    ensures n == n / 64 * 64 + n % 64 && n / 4096 == n / 64 / 64 && n / 262144 == n / 64 / 64 / 64
  {
  }

  lemma {:induction false} SixBitsBack(high: nat, low: nat)
    requires low < 64
    ensures (high * 64 + low) / 64 == high && (high * 64 + low) % 64 == low
  {
  }

  lemma {:induction false} TwoAreRead(code: nat)
    requires 0x80 <= code < 0x800
    ensures CodePoint(Utf8(code)) == Some(code) && Announced(Utf8(code)[0]) == |Utf8(code)|
  {
    SixBits(code);
  }

  lemma {:induction false} ThreeAreRead(code: nat)
    requires 0x800 <= code < 0x10000
    ensures CodePoint(Utf8(code)) == Some(code) && Announced(Utf8(code)[0]) == |Utf8(code)|
  {
    var s := Utf8(code);
    SixBits(code);
    SixBits(code / 64);
    assert code / 64 / 64 < 16;
    assert Payload(s[1]) == code / 64 % 64 && Payload(s[2]) == code % 64;
  }

  lemma {:induction false} FourAreRead(code: nat)
    requires 0x10000 <= code < 0x110000
    ensures CodePoint(Utf8(code)) == Some(code) && Announced(Utf8(code)[0]) == |Utf8(code)|
  {
    var s := Utf8(code);
    SixBits(code);
    SixBits(code / 64);
    SixBits(code / 64 / 64);
    assert code / 64 / 64 / 64 < 8;
    assert Payload(s[1]) == code / 64 / 64 % 64 && Payload(s[2]) == code / 64 % 64 && Payload(s[3]) == code % 64;
  }

  /** Every code point is written as its one UTF-8 form. */
  lemma {:induction false} Utf8IsRead(code: nat)
    requires code < 0x110000
    ensures CodePoint(Utf8(code)) == Some(code) && Announced(Utf8(code)[0]) == |Utf8(code)|
  {
    if 0x80 <= code < 0x800 {
      TwoAreRead(code);
    } else if 0x800 <= code < 0x10000 {
      ThreeAreRead(code);
    } else if 0x10000 <= code {
      FourAreRead(code);
    }
  }

  /** Only that form is read as it. */
  lemma {:induction false} ReadIsUtf8(s: string, code: nat)
    requires CodePoint(s) == Some(code)
    ensures code < 0x110000 && s == Utf8(code)
  {
    if |s| == 2 {
      SixBitsBack(s[0] as int - 0xC0, Payload(s[1]));
    } else if |s| == 3 {
      ThreeReadIsUtf8(s, code);
    } else if |s| == 4 {
      FourReadIsUtf8(s, code);
    }
  }

  lemma {:induction false} ThreeReadIsUtf8(s: string, code: nat)
    requires |s| == 3 && CodePoint(s) == Some(code)
    ensures code < 0x110000 && s == Utf8(code)
  {
    var high := (s[0] as int - 0xE0) * 64 + Payload(s[1]);
    SixBitsBack(s[0] as int - 0xE0, Payload(s[1]));
    SixBitsBack(high, Payload(s[2]));
    SixBits(code);
    assert code == high * 64 + Payload(s[2]);
  }

  lemma {:induction false} FourReadIsUtf8(s: string, code: nat)
    requires |s| == 4 && CodePoint(s) == Some(code)
    ensures code < 0x110000 && s == Utf8(code)
  {
    var top := (s[0] as int - 0xF0) * 64 + Payload(s[1]);
    var high := top * 64 + Payload(s[2]);
    SixBitsBack(s[0] as int - 0xF0, Payload(s[1]));
    SixBitsBack(top, Payload(s[2]));
    SixBitsBack(high, Payload(s[3]));
    SixBits(code);
    assert code == high * 64 + Payload(s[3]);
  }

  function Utf8All(codes: seq<nat>): string
    requires forall i :: 0 <= i < |codes| ==> codes[i] < 0x110000
  {
    if codes == [] then [] else Utf8(codes[0]) + Utf8All(codes[1..])
  }

  lemma {:induction false} CharacterThen(code: nat, rest: string)
    requires code < 0x110000
    ensures CodePoints(Utf8(code) + rest) ==
      if CodePoints(rest).None? then None else Some([code] + CodePoints(rest).value)
  {
    Utf8IsRead(code);
    var s := Utf8(code) + rest;
    assert s[..|Utf8(code)|] == Utf8(code) && s[|Utf8(code)|..] == rest;
  }

  lemma {:induction false} CStringThen(head: string, rest: string)
    requires NulFree(head)
    ensures CString(head + rest, '\0') == head + CString(rest, '\0')
  {
    if head == [] {
      EmptyEnds(rest);
      EmptyEnds(CString(rest, '\0'));
    } else {
      assert (head + rest)[1..] == head[1..] + rest;
      CStringThen(head[1..], rest);
      Regroup([head[0]], head[1..], CString(rest, '\0'));
      HeadAndTail(head);
    }
  }

  /** A C string of characters ends at code point 0. */
  lemma {:induction false} CharactersAreRead(codes: seq<nat>)
    requires forall i :: 0 <= i < |codes| ==> codes[i] < 0x110000
    ensures CodePoints(CString(Utf8All(codes), '\0')) == Some(CString(codes, 0))
  {
    if codes != [] && codes[0] != 0 {
      CharactersAreRead(codes[1..]);
      CStringThen(Utf8(codes[0]), Utf8All(codes[1..]));
      CharacterThen(codes[0], CString(Utf8All(codes[1..]), '\0'));
    }
  }

  // ---------- how a code point may be written ----------

  /** A hexadecimal digit in either case. */
  predicate Spells(c: char, v: nat) {
    || ('0' <= c <= '9' && v == (c - '0') as nat)
    || ('a' <= c <= 'f' && v == 10 + (c - 'a') as nat)
    || ('A' <= c <= 'F' && v == 10 + (c - 'A') as nat)
  }

  predicate SpellsFour(s: string, h: nat) {
    && |s| == 4 && h < 0x10000
    && Spells(s[0], h / 4096) && Spells(s[1], h / 256 % 16) && Spells(s[2], h / 16 % 16) && Spells(s[3], h % 16)
  }

  predicate Unit(s: string, h: nat) {
    |s| == 6 && s[0] == '\\' && s[1] == 'u' && SpellsFour(s[2..], h)
  }

  predicate Surrogate(h: nat) {
    0xD800 <= h < 0xE000
  }

  /** One \u literal, or the pair of surrogates for a code point beyond the basic plane. */
  predicate Literal(s: string, code: nat) {
    if code < 0x10000 then !Surrogate(code) && Unit(s, code)
    else
      && code < 0x110000 && |s| == 12
      && Unit(s[..6], 0xD800 + (code - 0x10000) / 0x400) && Unit(s[6..], 0xDC00 + (code - 0x10000) % 0x400)
  }

  /** The two-character escapes of section 7. */
  predicate ShortEscape(s: string, code: nat) {
    || (s == "\\\"" && code == 0x22) || (s == "\\\\" && code == 0x5C) || (s == "\\/" && code == 0x2F)
    || (s == "\\b" && code == 0x08) || (s == "\\f" && code == 0x0C) || (s == "\\n" && code == 0x0A)
    || (s == "\\r" && code == 0x0D) || (s == "\\t" && code == 0x09)
  }

  /** The character itself, in UTF-8; quotes, backslashes and NUL cannot be written so. */
  predicate Itself(s: string, code: nat) {
    CodePoint(s) == Some(code) && code != 0x22 && code != 0x5C && code != 0
  }

  predicate Writes(s: string, code: nat) {
    Literal(s, code) || ShortEscape(s, code) || Itself(s, code)
  }

  function Flat(pieces: seq<string>): string {
    if pieces == [] then [] else pieces[0] + Flat(pieces[1..])
  }

  predicate WriteAll(pieces: seq<string>, codes: seq<nat>) {
    |pieces| == |codes| && forall i :: 0 <= i < |pieces| ==> Writes(pieces[i], codes[i])
  }

  // ---------- one piece ----------

  lemma {:induction false} SpelledDigit(c: char, v: nat)
    requires Spells(c, v)
    ensures HexDigit(c) == Some(v) && c != '\"' && c != '\\'
  {
  }

  lemma {:induction false} HexParts(h: nat)
    requires h < 0x10000
    ensures ((h / 4096 * 16 + h / 256 % 16) * 16 + h / 16 % 16) * 16 + h % 16 == h
  {
    assert h / 256 == h / 16 / 16 && h / 4096 == h / 16 / 16 / 16;
  }

  lemma {:induction false} SpelledFour(s: string, h: nat)
    requires SpellsFour(s, h)
    ensures Hex4(s[0], s[1], s[2], s[3]) == h
    ensures forall i :: 0 <= i < 4 ==> s[i] != '\"' && s[i] != '\\'
  {
    SpelledDigit(s[0], h / 4096);
    SpelledDigit(s[1], h / 256 % 16);
    SpelledDigit(s[2], h / 16 % 16);
    SpelledDigit(s[3], h % 16);
    HexParts(h);
  }

  lemma {:induction false} PlainIsPassed(s: string, rest: string)
    requires forall i :: 0 <= i < |s| ==> s[i] != '\"' && s[i] != '\\'
    ensures ClosingQuote(s + rest) == Shifted(|s|, ClosingQuote(rest))
  {
    if s == [] {
      EmptyEnds(rest);
    } else {
      assert (s + rest)[1..] == s[1..] + rest;
      PlainIsPassed(s[1..], rest);
    }
  }

  /** The search for the closing quote skips an escape, whatever its second character. */
  lemma {:induction false} EscapeIsPassed(c: char, plain: string, rest: string)
    requires forall i :: 0 <= i < |plain| ==> plain[i] != '\"' && plain[i] != '\\'
    ensures ClosingQuote(['\\', c] + plain + rest) == Shifted(2 + |plain|, ClosingQuote(rest))
  {
    assert (['\\', c] + plain + rest)[2..] == plain + rest;
    PlainIsPassed(plain, rest);
  }

  lemma {:induction false} UnitIsPassed(s: string, h: nat, rest: string)
    requires Unit(s, h)
    ensures ClosingQuote(s + rest) == Shifted(6, ClosingQuote(rest))
  {
    SpelledFour(s[2..], h);
    EscapeIsPassed('u', s[2..], rest);
    assert s == ['\\', 'u'] + s[2..];
  }

  lemma {:induction false} OneMorePassed(first: string, others: string, rest: string)
    requires ClosingQuote(first + (others + rest)) == Shifted(|first|, ClosingQuote(others + rest))
    requires ClosingQuote(others + rest) == Shifted(|others|, ClosingQuote(rest))
    ensures ClosingQuote((first + others) + rest) == Shifted(|first + others|, ClosingQuote(rest))
  {
    Regroup(first, others, rest);
  }

  lemma {:induction false} LiteralIsPassed(s: string, code: nat, rest: string)
    requires Literal(s, code)
    ensures ClosingQuote(s + rest) == Shifted(|s|, ClosingQuote(rest))
  {
    if code < 0x10000 {
      UnitIsPassed(s, code, rest);
    } else {
      UnitIsPassed(s[6..], 0xDC00 + (code - 0x10000) % 0x400, rest);
      UnitIsPassed(s[..6], 0xD800 + (code - 0x10000) / 0x400, s[6..] + rest);
      OneMorePassed(s[..6], s[6..], rest);
      assert s == s[..6] + s[6..];
    }
  }

  lemma {:induction false} ItselfIsPlain(s: string, code: nat)
    requires Itself(s, code)
    ensures forall i :: 0 <= i < |s| ==> s[i] != '\"' && s[i] != '\\'
  {
  }

  lemma {:induction false} PieceIsPassed(s: string, code: nat, rest: string)
    requires Writes(s, code)
    ensures ClosingQuote(s + rest) == Shifted(|s|, ClosingQuote(rest))
  {
    if Literal(s, code) {
      LiteralIsPassed(s, code, rest);
    } else if ShortEscape(s, code) {
      EscapeIsPassed(s[1], [], rest);
      assert s + rest == ['\\', s[1]] + [] + rest;
    } else {
      ItselfIsPlain(s, code);
      PlainIsPassed(s, rest);
    }
  }

  lemma {:induction false} UnitIsHex(s: string, h: nat, rest: string)
    requires Unit(s, h)
    ensures (s + rest)[0] == '\\' && (s + rest)[1] == 'u'
    ensures Hex4((s + rest)[2], (s + rest)[3], (s + rest)[4], (s + rest)[5]) == h
  {
    SpelledFour(s[2..], h);
  }

  lemma {:induction false} LiteralIsRead(s: string, code: nat, rest: string, n: nat)
    requires Literal(s, code) && n < |rest|
    ensures Utf16(s + rest, |s| + n) == Some((Utf8(code), |s|))
  {
    if code < 0x10000 {
      UnitIsHex(s, code, rest);
    } else {
      PairIsHex(s, code, rest);
      SurrogatePair(code);
    }
  }

  lemma {:induction false} SurrogatePair(code: nat)
    requires 0x10000 <= code < 0x110000
    ensures var high, low := 0xD800 + (code - 0x10000) / 0x400, 0xDC00 + (code - 0x10000) % 0x400;
      0xD800 <= high < 0xDC00 <= low < 0xE000 && code == 0x10000 + (high - 0xD800) * 1024 + (low - 0xDC00)
  {
  }

  lemma {:induction false} PairIsHex(s: string, code: nat, rest: string)
    requires Literal(s, code) && code >= 0x10000
    ensures var t := s + rest;
      && |t| >= 12 && t[6] == '\\' && t[7] == 'u'
      && Hex4(t[2], t[3], t[4], t[5]) == 0xD800 + (code - 0x10000) / 0x400
      && Hex4(t[8], t[9], t[10], t[11]) == 0xDC00 + (code - 0x10000) % 0x400
  {
    UnitIsHex(s[..6], 0xD800 + (code - 0x10000) / 0x400, []);
    UnitIsHex(s[6..], 0xDC00 + (code - 0x10000) % 0x400, []);
    EmptyEnds(s[..6]);
    EmptyEnds(s[6..]);
    assert forall i :: 0 <= i < 6 ==> (s + rest)[i] == s[..6][i];
    assert forall i :: 0 <= i < 6 ==> (s + rest)[i + 6] == s[6..][i];
  }

  lemma {:induction false} PlainIsKept(s: string, rest: string, n: nat)
    requires n < |rest| && forall i :: 0 <= i < |s| ==> s[i] != '\\'
    ensures Decode(s + rest, |s| + n) == Prepend(s, Decode(rest, n))
  {
    var after := Decode(rest, n);
    if s == [] {
      EmptyEnds(rest);
      if after.Some? { EmptyEnds(after.value); }
    } else {
      assert (s + rest)[1..] == s[1..] + rest;
      PlainIsKept(s[1..], rest, n);
      HeadAndTail(s);
      if after.Some? { Regroup([s[0]], s[1..], after.value); }
    }
  }

  lemma {:induction false} LiteralDecodes(s: string, code: nat, rest: string, n: nat)
    requires Literal(s, code) && n < |rest|
    ensures Decode(s + rest, |s| + n) == Prepend(Utf8(code), Decode(rest, n))
  {
    LiteralIsRead(s, code, rest, n);
    LiteralStarts(s, code, rest);
    JsonRoundTrip.DecodeLiteral(s + rest, |s| + n, Utf8(code), |s|);
  }

  lemma {:induction false} LiteralStarts(s: string, code: nat, rest: string)
    requires Literal(s, code)
    ensures |s| >= 6 && (s + rest)[0] == '\\' && (s + rest)[1] == 'u' && (s + rest)[|s|..] == rest
  {
    assert code >= 0x10000 ==> s[..6][0] == s[0] && s[..6][1] == s[1];
  }

  lemma {:induction false} ShortEscapeDecodes(s: string, code: nat, rest: string, n: nat)
    requires ShortEscape(s, code) && n < |rest|
    ensures Decode(s + rest, |s| + n) == Prepend(Utf8(code), Decode(rest, n))
  {
    assert (s + rest)[2..] == rest;
    assert SimpleEscape(s[1]) == Some(code as char);
  }

  /** One piece decodes to the UTF-8 form of its code point. */
  lemma {:induction false} PieceIsRead(s: string, code: nat, rest: string, n: nat)
    requires Writes(s, code) && n < |rest|
    ensures code < 0x110000 && Decode(s + rest, |s| + n) == Prepend(Utf8(code), Decode(rest, n))
  {
    if Literal(s, code) {
      LiteralDecodes(s, code, rest, n);
    } else if ShortEscape(s, code) {
      ShortEscapeDecodes(s, code, rest, n);
    } else {
      ReadIsUtf8(s, code);
      ItselfIsPlain(s, code);
      PlainIsKept(s, rest, n);
    }
  }

  // ---------- whole strings ----------

  lemma {:induction false} PiecesArePassed(pieces: seq<string>, codes: seq<nat>, rest: string)
    requires WriteAll(pieces, codes)
    ensures ClosingQuote(Flat(pieces) + rest) == Shifted(|Flat(pieces)|, ClosingQuote(rest))
  {
    if pieces == [] {
      EmptyEnds(rest);
    } else {
      PieceIsPassed(pieces[0], codes[0], Flat(pieces[1..]) + rest);
      PiecesArePassed(pieces[1..], codes[1..], rest);
      OneMorePassed(pieces[0], Flat(pieces[1..]), rest);
    }
  }

  lemma {:induction false} PiecesAreRead(pieces: seq<string>, codes: seq<nat>, rest: string)
    requires WriteAll(pieces, codes) && rest != []
    ensures forall i :: 0 <= i < |codes| ==> codes[i] < 0x110000
    ensures Decode(Flat(pieces) + rest, |Flat(pieces)|) == Some(Utf8All(codes))
  {
    if pieces == [] {
      EmptyEnds(rest);
    } else {
      PiecesAreRead(pieces[1..], codes[1..], rest);
      PieceIsRead(pieces[0], codes[0], Flat(pieces[1..]) + rest, |Flat(pieces[1..])|);
      Regroup(pieces[0], Flat(pieces[1..]), rest);
      assert forall i :: 0 < i < |codes| ==> codes[i] == codes[1..][i - 1];
    }
  }

  /** Every string that section 7 of RFC 8259 allows, however its characters are written, is read as a text whose
      bytes are the UTF-8 form of its code points, up to the first code point 0; so is a member's name. */
  lemma {:induction false} StringsDenote(pieces: seq<string>, codes: seq<nat>, rest: string) returns (text: string)
    requires WriteAll(pieces, codes) && Terminated(rest)
    ensures Terminated(("\"" + Flat(pieces) + "\"") + rest)
    ensures ParseString(("\"" + Flat(pieces) + "\"") + rest) == Some((text, rest))
    ensures CodePoints(text) == Some(CString(codes, 0))
  {
    PiecesArePassed(pieces, codes, "\"" + rest);
    PiecesAreRead(pieces, codes, "\"" + rest);
    JsonRoundTrip.QuotedParts(Flat(pieces), rest);
    CharactersAreRead(codes);
    text := CString(Utf8All(codes), '\0');
  }

  lemma {:induction false} QuotedIsString(s: string)
    requires s != [] && s[0] == '\"'
    ensures Parse(s) == match ParseString(s + ['\0']) { case None => None case Some((t, _)) => Some(Text(t)) }
  {
    JsonRoundTrip.NothingToSkip(s, ['\0']);
    JsonRoundTrip.NoWord(s + ['\0']);
  }

  /** The same for a whole document. */
  lemma {:induction false} DocumentDenotes(pieces: seq<string>, codes: seq<nat>) returns (text: string)
    requires WriteAll(pieces, codes)
    ensures Parse("\"" + Flat(pieces) + "\"") == Some(Text(text)) && CodePoints(text) == Some(CString(codes, 0))
  {
    text := StringsDenote(pieces, codes, ['\0']);
    QuotedIsString("\"" + Flat(pieces) + "\"");
  }

  /** A low surrogate that no high one precedes, and a high one that none follows, are refused. */
  lemma {:induction false} LoneSurrogatesAreRefused(s: string, h: nat)
    requires Unit(s, h) && Surrogate(h)
    ensures Parse("\"" + s + "\"").None?
  {
    var rest := "\"" + ['\0'];
    UnitIsPassed(s, h, rest);
    UnitIsHex(s, h, rest);
    JsonRoundTrip.QuotedParts(s, ['\0']);
    assert Decode(s + rest, 6) == None;
    QuotedIsString("\"" + s + "\"");
  }

  /** Four characters that are not all hexadecimal digits are taken for code point 0, so they end the text instead of
      failing the parse. */
  lemma {:induction false} BadDigitsEndTheText(four: string)
    requires |four| == 4 && forall i :: 0 <= i < 4 ==> four[i] != '\"' && four[i] != '\\'
    requires exists i :: 0 <= i < 4 && HexDigit(four[i]).None?
    ensures Parse("\"" + (['\\', 'u'] + four) + "\"") == Some(Text(""))
  {
    var s, rest := ['\\', 'u'] + four, "\"" + ['\0'];
    EscapeIsPassed('u', four, rest);
    JsonRoundTrip.QuotedParts(s, ['\0']);
    assert s + rest == ['\\', 'u'] + four + rest;
    assert Utf16(s + rest, 6) == Some((Utf8(0), 6));
    JsonRoundTrip.DecodeLiteral(s + rest, 6, Utf8(0), 6);
    assert (s + rest)[6..] == rest;
    QuotedIsString("\"" + s + "\"");
  }
}
