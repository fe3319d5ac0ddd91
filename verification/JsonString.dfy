/** The loops of parse_string in c-sdk-common/src/cJSON.c and the buffer they fill. The buffer is sized from
    the raw length and the number of backslashes the search for the closing quote skips; the decoded bytes fit
    it even where a \\u literal reaches over a backslash that the search took for the start of an escape. */
module JsonString {
  import opened Basics
  import opened JsonText

  /** How many escapes the search for the closing quote skips. */
  function Escapes(s: string): nat {
    if s == [] || s[0] == '\"' then 0
    else if s[0] == '\\' then (if |s| < 2 then 0 else 1 + Escapes(s[2..]))
    else Escapes(s[1..])
  }

  // ---------- the search and the decoding, side by side ----------

  /** The closing quote is `n` characters ahead; with `paired`, the next character is the second of a skipped escape. */
  ghost predicate Ahead(s: string, n: int, paired: bool) {
    if paired then s != [] && n >= 1 && ClosingQuote(s[1..]).Some? && ClosingQuote(s[1..]).value == n - 1
    else ClosingQuote(s).Some? && ClosingQuote(s).value == n
  }

  /** The escapes that are still to be skipped. */
  ghost function ToSkip(s: string, paired: bool): nat {
    if paired && s != [] then Escapes(s[1..]) else Escapes(s)
  }

  lemma {:induction false} EscapesFit(s: string, n: nat)
    requires ClosingQuote(s) == Some(n)
    ensures Escapes(s) <= n
  {
    if s[0] == '\\' {
      EscapesFit(s[2..], n - 2);
    } else if s[0] != '\"' {
      EscapesFit(s[1..], n - 1);
    }
  }

  lemma {:induction false} ToSkipFits(s: string, n: int, paired: bool)
    requires Ahead(s, n, paired)
    ensures 0 <= ToSkip(s, paired) <= n
  {
    if paired { EscapesFit(s[1..], n - 1); } else { EscapesFit(s, n); }
  }

  /** One character on. */
  lemma {:induction false} OneOn(s: string, n: int, paired: bool) returns (paired': bool)
    requires Ahead(s, n, paired) && n > 0
    ensures Ahead(s[1..], n - 1, paired') && (paired' <==> !paired && s[0] == '\\')
    ensures ToSkip(s, paired) == ToSkip(s[1..], paired') + if paired' then 1 else 0
  {
    paired' := !paired && s[0] == '\\';
    if paired' {
      assert s[1..][1..] == s[2..];
    }
  }

  /** Two characters start at most one escape. */
  lemma {:induction false} TwoOn(s: string, n: int, paired: bool) returns (paired': bool)
    requires Ahead(s, n, paired) && n >= 2
    ensures Ahead(s[2..], n - 2, paired') && ToSkip(s, paired) <= ToSkip(s[2..], paired') + 1
  {
    var middle := OneOn(s, n, paired);
    paired' := OneOn(s[1..], n - 1, middle);
    assert s[1..][1..] == s[2..];
  }

  lemma {:induction false} SixOn(s: string, n: int, paired: bool) returns (paired': bool)
    requires Ahead(s, n, paired) && n >= 6
    ensures Ahead(s[6..], n - 6, paired') && ToSkip(s, paired) <= ToSkip(s[6..], paired') + 3
  {
    var p := TwoOn(s, n, paired);
    var q := TwoOn(s[2..], n - 2, p);
    assert s[2..][2..] == s[4..];
    paired' := TwoOn(s[4..], n - 4, q);
    assert s[4..][2..] == s[6..];
  }

  /** What the search leaves for the rest of the decoding. */
  ghost function Need(s: string, n: int, paired: bool): int {
    if n > 0 then n - ToSkip(s, paired) else 0
  }

  /** The decoding is at a place the search knows, and the rest of it fits in `room`. */
  ghost predicate Fits(s: string, n: int, paired: bool, room: int) {
    (n > 0 ==> Ahead(s, n, paired)) && Need(s, n, paired) <= room
  }

  lemma {:induction false} NeedIsNatural(s: string, n: int, paired: bool)
    requires n >= 0 && Ahead(s, n, paired)
    ensures 0 <= Need(s, n, paired) && (n == 0 ==> ToSkip(s, paired) == 0)
  {
    ToSkipFits(s, n, paired);
  }

  lemma {:induction false} LiteralSize(s: string, n: int)
    requires n < |s| && Utf16(s, n).Some?
    ensures var (bytes, length) := Utf16(s, n).value;
      (length == 6 && |bytes| <= 3) || (length == 12 <= n && |bytes| <= 4)
  {
  }

  lemma {:induction false} LiteralFits(s: string, n: int, paired: bool) returns (paired': bool)
    requires Ahead(s, n, paired) && 0 < n < |s| && Utf16(s, n).Some?
    ensures var (bytes, length) := Utf16(s, n).value;
      && Ahead(s[length..], n - length, paired') && 0 <= Need(s[length..], n - length, paired')
      && |bytes| + Need(s[length..], n - length, paired') <= Need(s, n, paired)
  {
    LiteralSize(s, n);
    paired' := SixOn(s, n, paired);
    if Utf16(s, n).value.1 == 12 {
      paired' := SixOn(s[6..], n - 6, paired');
      assert s[6..][6..] == s[12..];
      NeedIsNatural(s[12..], n - 12, paired');
    } else {
      NeedIsNatural(s[6..], n - 6, paired');
    }
  }

  lemma {:induction false} EscapeFits(s: string, n: int, paired: bool) returns (paired': bool)
    requires Ahead(s, n, paired) && 0 < n < |s| && s[0] == '\\'
    ensures n > 2 ==> Ahead(s[2..], n - 2, paired')
    ensures 0 <= Need(s[2..], n - 2, paired') && 1 + Need(s[2..], n - 2, paired') <= Need(s, n, paired)
  {
    if n >= 2 {
      paired' := TwoOn(s, n, paired);
      NeedIsNatural(s[2..], n - 2, paired');
    } else {
      paired' := false;
    }
  }

  /** What a turn of the decoding loop writes is no more than the search left for it. */
  lemma {:induction false} TurnFits(s: string, n: int, paired: bool, room: int) returns (paired': bool)
    requires 0 < n < |s| && Turn(s, n).Some? && Fits(s, n, paired, room)
    ensures var (bytes, length) := Turn(s, n).value;
      |bytes| <= room && Fits(s[length..], n - length, paired', room - |bytes|)
  {
    if s[0] != '\\' {
      paired' := OneOn(s, n, paired);
      NeedIsNatural(s[1..], n - 1, paired');
    } else if s[1] == 'u' {
      paired' := LiteralFits(s, n, paired);
    } else {
      paired' := EscapeFits(s, n, paired);
    }
  }

  // ---------- the loops ----------

  /** The first loop: where the closing quote is, and how many escapes come before it. */
  method QuoteLoop(s: string) returns (r: Option<nat>, skipped: nat)
    ensures r == ClosingQuote(s) && (r.Some? ==> skipped == Escapes(s))
  {
    var end, rest := 0, s;
    skipped := 0;
    while rest != [] && rest[0] != '\"'
      invariant ClosingQuote(s) == Shifted(end, ClosingQuote(rest))
      invariant Escapes(s) == skipped + Escapes(rest)
      decreases |rest|
    {
      if rest[0] == '\\' {
        if |rest| < 2 {
          return None, skipped;
        }
        skipped := skipped + 1;
        end, rest := end + 2, rest[2..];
      } else {
        end, rest := end + 1, rest[1..];
      }
    }
    r := if rest == [] then None else Some(end);
  }

  /** One turn of the second loop: the bytes a character or an escape stands for, and its length. */
  function Turn(s: string, n: int): (r: Option<(string, nat)>)
    requires 0 < n < |s|
    ensures r.Some? ==> 0 < r.value.1 <= |s|
  {
    if s[0] != '\\' then Some(([s[0]], 1))
    else if s[1] == 'u' then Utf16(s, n)
    else if SimpleEscape(s[1]).None? then None
    else Some(([SimpleEscape(s[1]).value], 2))
  }

  lemma {:induction false} DecodeTurn(s: string, n: int)
    requires 0 < n < |s|
    ensures Decode(s, n) ==
      if Turn(s, n).None? then None
      else Prepend(Turn(s, n).value.0, Decode(s[Turn(s, n).value.1..], n - Turn(s, n).value.1))
  {
  }

  /** One turn of the loop moves what was decoded to the output. */
  lemma {:induction false} DecodeStep(s: string, n: int, bytes: string, length: nat, output: string)
    requires 0 < n < |s| && length <= |s|
    requires Decode(s, n) == Prepend(bytes, Decode(s[length..], n - length))
    ensures Prepend(output, Decode(s, n)) == Prepend(output + bytes, Decode(s[length..], n - length))
  {
    var r := Decode(s[length..], n - length);
    if r.Some? {
      assert output + (bytes + r.value) == (output + bytes) + r.value;
    }
  }

  lemma {:induction false} NothingDecoded(r: Option<string>)
    ensures Prepend("", r) == r
  {
    if r.Some? {
      assert "" + r.value == r.value;
    }
  }

  method Write(output: array<char>, at: nat, bytes: string)
    requires at + |bytes| <= output.Length
    modifies output
    ensures output[..at + |bytes|] == old(output[..at]) + bytes
  {
    forall i | 0 <= i < |bytes| {
      output[at + i] := bytes[i];
    }
  }

  /** The second loop: decodes into the buffer and terminates it. Every write is within the buffer. */
  method DecodeLoop(s: string, end: nat, output: array<char>) returns (r: Option<nat>)
    requires ClosingQuote(s) == Some(end) && output.Length == end + 2 - Escapes(s)
    modifies output
    ensures r.Some? <==> Decode(s, end).Some?
    ensures r.Some? ==> r.value < output.Length && output[..r.value] == Decode(s, end).value && output[r.value] == '\0'
  {
    var at: nat, rest, left := 0, s, end as int;
    EscapesFit(s, end);
    NothingDecoded(Decode(s, end));
    ghost var paired, decoded := false, "";
    while left > 0
      invariant at <= output.Length - 2 && left < |rest|
      invariant Fits(rest, left, paired, output.Length - 2 - at)
      invariant output[..at] == decoded && Decode(s, end) == Prepend(decoded, Decode(rest, left))
      decreases |rest|
    {
      DecodeTurn(rest, left);
      var turn := Turn(rest, left);
      if turn.None? {
        return None;
      }
      var (bytes, length) := turn.value;
      paired := TurnFits(rest, left, paired, output.Length - 2 - at);
      DecodeStep(rest, left, bytes, length, decoded);
      Write(output, at, bytes);
      decoded := decoded + bytes;
      at, rest, left := at + |bytes|, rest[length..], left - length;
    }
    assert decoded + "" == decoded;
    output[at] := '\0';
    assert output[..at] == decoded;
    r := Some(at);
  }

  /** parse_string after the opening quote: the string, and where its closing quote is. */
  method DecodeString(s: string) returns (r: Option<(string, nat)>)
    ensures r.None? <==> ClosingQuote(s).None? || Decode(s, ClosingQuote(s).value).None?
    ensures r.Some? ==> r.value == (CString(Decode(s, ClosingQuote(s).value).value, '\0'), ClosingQuote(s).value)
  {
    var end, skipped := QuoteLoop(s);
    if end.None? {
      return None;
    }
    EscapesFit(s, end.value);
    var output := new char[end.value + 2 - skipped];
    var length := DecodeLoop(s, end.value, output);
    if length.None? {
      return None;
    }
    CStringStops(output[..], length.value, '\0');
    assert output[..][..length.value] == output[..length.value];
    r := Some((CString(output[..], '\0'), end.value));
  }
}
