/** The loops of c-sdk-common/src/cJSON.c, against the functions of module JsonText. */
module JsonCode {
  import opened Basics
  import opened JsonValue
  import opened Decimal
  import opened JsonText

  // ---------- print_string_ptr ----------

  /** What escaping one character adds. */
  function Extra(c: char): nat {
    if c == '\"' || c == '\\' || c == 8 as char || c == 12 as char || c == '\n' || c == '\r' || c == '\t' then 1
    else if c < ' ' then 5
    else 0
  }

  lemma {:induction false} EscapeLength(c: char)
    ensures |Escape(c)| == 1 + Extra(c) && (Extra(c) == 0 ==> Escape(c) == [c])
  {
  }

  /** The counting loop: what escaping the whole string adds. */
  method CountEscapes(input: string) returns (extra: nat)
    ensures |EscapeAll(input)| == |input| + extra
    ensures extra == 0 ==> EscapeAll(input) == input
  {
    extra := 0;
    var i := 0;
    assert input[0..] == input;
    while i < |input|
      invariant i <= |input|
      invariant |EscapeAll(input)| == i + extra + |EscapeAll(input[i..])|
    {
      EscapeLength(input[i]);
      assert input[i..][1..] == input[i + 1..];
      extra := extra + Extra(input[i]);
      i := i + 1;
    }
    if extra == 0 {
      NothingEscaped(input);
    }
  }

  lemma {:induction false} NothingEscaped(s: string)
    ensures |s| <= |EscapeAll(s)| && (|EscapeAll(s)| == |s| ==> EscapeAll(s) == s)
  {
    if s != [] {
      NothingEscaped(s[1..]);
      EscapeLength(s[0]);
    }
  }

  /** One turn of the copying loop. */
  method WriteEscape(output: array<char>, at: nat, c: char) returns (next: nat)
    requires at + |Escape(c)| <= output.Length
    modifies output
    ensures next == at + |Escape(c)| && output[..next] == old(output[..at]) + Escape(c)
  {
    EscapeByLetter(c);
    if c >= ' ' && c != '\"' && c != '\\' {
      output[at] := c;
      next := at + 1;
      assert output[..next] == old(output[..at]) + [c];
    } else {
      next := WritePair(output, at, Letter(c));
      if Letter(c) == 'u' {
        next := WriteCode(output, next, c);
        Regroup(old(output[..at]), ['\\', 'u'], CodeDigits(c));
      }
    }
  }

  method WritePair(output: array<char>, at: nat, letter: char) returns (next: nat)
    requires at + 2 <= output.Length
    modifies output
    ensures next == at + 2 && output[..next] == old(output[..at]) + ['\\', letter]
  {
    output[at] := '\\';
    output[at + 1] := letter;
    next := at + 2;
  }

  /** What sprintf writes for %04x. */
  function CodeDigits(c: char): string
    requires c < ' '
  {
    ['0', '0', HEX[c as int / 16], HEX[c as int % 16]]
  }

  method WriteCode(output: array<char>, at: nat, c: char) returns (next: nat)
    requires at + 4 <= output.Length && c < ' '
    modifies output
    ensures next == at + 4 && output[..next] == old(output[..at]) + CodeDigits(c)
  {
    output[at], output[at + 1] := '0', '0';
    output[at + 2], output[at + 3] := HEX[c as int / 16], HEX[c as int % 16];
    next := at + 4;
  }

  lemma {:induction false} EscapeByLetter(c: char)
    ensures Escape(c) ==
      if c >= ' ' && c != '\"' && c != '\\' then [c]
      else if Letter(c) == 'u' then ['\\', 'u'] + CodeDigits(c)
      else ['\\', Letter(c)]
  {
  }

  /** The switch of the copying loop: what follows the backslash. */
  function Letter(c: char): (letter: char)
    requires c < ' ' || c == '\"' || c == '\\'
    ensures letter == 'u' ==> c < ' '
  {
    match c
    case '\\' => '\\'
    case '\"' => '\"'
    case '\n' => 'n'
    case '\r' => 'r'
    case '\t' => 't'
    case _ => if c == 8 as char then 'b' else if c == 12 as char then 'f' else 'u'
  }

  /** The copying loop, from the character after the opening quote. */
  method WriteEscapes(input: string, output: array<char>) returns (at: nat)
    requires output.Length >= 1 + |EscapeAll(input)| && output[0] == '\"'
    modifies output
    ensures at == 1 + |EscapeAll(input)| && output[..at] == "\"" + EscapeAll(input)
  {
    at := 1;
    var i := 0;
    assert input[0..] == input && output[..1] == "\"";
    while i < |input|
      invariant i <= |input| && 1 <= at <= output.Length
      invariant output[..at] + EscapeAll(input[i..]) == "\"" + EscapeAll(input)
    {
      ghost var before, rest := output[..at], EscapeAll(input[i + 1..]);
      assert input[i..][1..] == input[i + 1..];
      assert before + EscapeAll(input[i..]) == before + Escape(input[i]) + rest;
      assert |before + EscapeAll(input[i..])| == |"\"" + EscapeAll(input)|;
      at := WriteEscape(output, at, input[i]);
      i := i + 1;
    }
    assert output[..at] + EscapeAll(input[i..]) == output[..at];
  }

  /** The memcpy when nothing needs escaping. */
  method WritePlain(input: string, output: array<char>)
    requires output.Length >= 1 + |input| && output[0] == '\"'
    modifies output
    ensures output[..1 + |input|] == "\"" + input
  {
    forall k | 0 <= k < |input| {
      output[1 + k] := input[k];
    }
  }

  /** print_string_ptr: the length computed beforehand is exactly the number of bytes written. */
  method PrintString(input: string) returns (output: array<char>)
    ensures fresh(output) && output[..] == Quoted(input) + ['\0']
  {
    var extra := CountEscapes(input);
    var length := |input| + extra;
    output := new char[length + 3];
    output[0] := '\"';
    if extra == 0 {
      WritePlain(input, output);
    } else {
      var at := WriteEscapes(input, output);
    }
    Close(output, length + 1, EscapeAll(input));
  }

  method Close(output: array<char>, at: nat, ghost body: string)
    requires output.Length == at + 2 && output[..at] == "\"" + body
    modifies output
    ensures output[..] == "\"" + body + "\"" + ['\0']
  {
    output[at] := '\"';
    output[at + 1] := '\0';
    assert output[..] == output[..at] + ['\"', '\0'];
  }

  // ---------- print_value ----------

  /** What is left of a list of children: `rest` are those from place `k` on. */
  lemma {:induction false} NextChild<T>(all: seq<T>, k: nat, rest: seq<T>)
    requires k < |all| && rest == all[k..]
    ensures rest != [] && rest[0] == all[k] && rest[1..] == all[k + 1..] && (|rest| > 1 <==> rest[1..] != [])
  {
  }

  lemma {:induction false} ItemsUnfold(items: seq<Json>)
    requires AllPrintable(items) && items != []
    ensures PrintItems(items) == Print(items[0])
      + (if |items| > 1 then "," + PrintItems(items[1..]) else "" + PrintItems(items[1..]))
  {
    EmptyEnds(Print(items[0]));
  }

  lemma {:induction false} FieldsUnfold(fields: seq<Field>)
    requires FieldsPrintable(fields) && fields != []
    ensures PrintFields(fields) ==
      PrintField(fields[0]) + (if |fields| > 1 then "," + PrintFields(fields[1..]) else "" + PrintFields(fields[1..]))
  {
    EmptyEnds(PrintField(fields[0]));
  }

  /** printbuffer: the bytes before `offset`. Growing the buffer is part of appending. */
  class Printer {
    var text: string

    constructor ()
      ensures text == ""
    {
      text := "";
    }

    method Append(s: string)
      modifies this
      ensures text == old(text) + s
    {
      text := text + s;
    }

    /** print_string. */
    method PrintText(s: string)
      modifies this
      ensures text == old(text) + Quoted(s)
    {
      var output := PrintString(s);
      assert output[..][..output.Length - 1] == Quoted(s);
      text := text + output[..output.Length - 1];
    }

    /** print_value. */
    method PrintValue(j: Json)
      requires Printable(j)
      modifies this
      ensures text == old(text) + Print(j)
      decreases j
    {
      match j {
        case Null => Append("null");
        case Bool(b) => if b { Append("true"); } else { Append("false"); }
        case Number(n) => Append(Signed(n.Floor));
        case Text(s) => PrintText(s);
        case Array(items) => PrintArray(items);
        case Object(fields) => PrintObject(fields);
      }
    }

    /** print_array; `rest` is the child to print and its siblings. */
    method PrintArray(items: seq<Json>)
      requires AllPrintable(items)
      modifies this
      ensures text == old(text) + ("[" + PrintItems(items) + "]")
      decreases items
    {
      Append("[");
      ghost var start, k := text, 0;
      var rest := items;
      while rest != []
        invariant k <= |items| && rest == items[k..] && AllPrintable(rest)
        invariant text + PrintItems(rest) == start + PrintItems(items)
        decreases |rest|
      {
        NextChild(items, k, rest);
        ItemsUnfold(rest);
        ghost var before, sep := text, if |rest| > 1 then "," else "";
        PrintValue(rest[0]);
        if |rest| > 1 {
          Append(",");
        } else {
          EmptyEnds(text);
        }
        RegroupFour(before, Print(rest[0]), sep, PrintItems(rest[1..]));
        rest, k := rest[1..], k + 1;
      }
      EmptyEnds(text);
      Append("]");
      RegroupFour(old(text), "[", PrintItems(items), "]");
    }

    /** print_object. */
    method PrintObject(fields: seq<Field>)
      requires FieldsPrintable(fields)
      modifies this
      ensures text == old(text) + ("{" + PrintFields(fields) + "}")
      decreases fields
    {
      Append("{");
      ghost var start, k := text, 0;
      var rest := fields;
      while rest != []
        invariant k <= |fields| && rest == fields[k..] && FieldsPrintable(rest)
        invariant text + PrintFields(rest) == start + PrintFields(fields)
        decreases |rest|
      {
        NextChild(fields, k, rest);
        FieldsUnfold(rest);
        ghost var before, sep := text, if |rest| > 1 then "," else "";
        PrintMember(rest[0]);
        if |rest| > 1 {
          Append(",");
        } else {
          EmptyEnds(text);
        }
        RegroupFour(before, PrintField(rest[0]), sep, PrintFields(rest[1..]));
        rest, k := rest[1..], k + 1;
      }
      EmptyEnds(text);
      Append("}");
      RegroupFour(old(text), "{", PrintFields(fields), "}");
    }

    method PrintMember(field: Field)
      requires NulFree(field.key) && Printable(field.value)
      modifies this
      ensures text == old(text) + PrintField(field)
      decreases field, 0
    {
      PrintText(field.key);
      Append(":");
      PrintValue(field.value);
    }
  }
}
