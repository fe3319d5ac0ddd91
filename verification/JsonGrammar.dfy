/** Whole documents as RFC 8259 writes them: white space around every token, numbers and strings in all their
    spellings. What such a document means is said by its structure, and that is what the parser makes of it. */
module JsonGrammar {
  import opened Basics
  import opened JsonValue
  import opened JsonText
  import opened JsonRoundTrip
  import opened JsonUnicode
  import opened JsonNumber

  /** A string: how each of its code points is written. */
  datatype Written = Written(pieces: seq<string>, codes: seq<nat>)

  /** A document; `blank` is what stands between the brackets of an empty array or object. */
  datatype Doc =
    | Word(value: Json)
    | Num(numeral: Numeral)
    | Str(text: Written)
    | Arr(blank: string, items: seq<Item>)
    | Obj(blank: string, members: seq<Member>)

  /** A document with the white space around it. */
  datatype Item = Item(before: string, doc: Doc, after: string)

  datatype Member = Member(before: string, name: Written, middle: string, item: Item)

  // ---------- the text ----------

  function SpellString(w: Written): string {
    "\"" + Flat(w.pieces) + "\""
  }

  function Spell(d: Doc): string {
    match d
    case Word(value) => if value.Null? then "null" else if value == Bool(true) then "true" else "false"
    case Num(numeral) => Spelled(numeral)
    case Str(text) => SpellString(text)
    case Arr(blank, items) => "[" + (if items == [] then blank else SpellItems(items)) + "]"
    case Obj(blank, members) => "{" + (if members == [] then blank else SpellMembers(members)) + "}"
  }

  function SpellItem(i: Item): string {
    i.before + (Spell(i.doc) + i.after)
  }

  function SpellItems(items: seq<Item>): string
    requires items != []
  {
    if |items| == 1 then SpellItem(items[0]) else SpellItem(items[0]) + ("," + SpellItems(items[1..]))
  }

  function SpellMember(m: Member): string {
    m.before + (SpellString(m.name) + (m.middle + (":" + SpellItem(m.item))))
  }

  function SpellMembers(members: seq<Member>): string
    requires members != []
  {
    if |members| == 1 then SpellMember(members[0]) else SpellMember(members[0]) + ("," + SpellMembers(members[1..]))
  }

  // ---------- the grammar ----------

  predicate Blank(s: string) {
    forall i :: 0 <= i < |s| ==> s[i] == ' ' || s[i] == '\t' || s[i] == '\n' || s[i] == '\r'
  }

  predicate GoodDoc(d: Doc) {
    match d
    case Word(value) => value.Null? || value.Bool?
    case Num(numeral) => GoodNumeral(numeral)
    case Str(text) => WriteAll(text.pieces, text.codes)
    case Arr(blank, items) => Blank(blank) && GoodItems(items)
    case Obj(blank, members) => Blank(blank) && GoodMembers(members)
  }

  predicate GoodItem(i: Item) {
    Blank(i.before) && GoodDoc(i.doc) && Blank(i.after)
  }

  predicate GoodItems(items: seq<Item>) {
    items == [] || (GoodItem(items[0]) && GoodItems(items[1..]))
  }

  predicate GoodMember(m: Member) {
    Blank(m.before) && WriteAll(m.name.pieces, m.name.codes) && Blank(m.middle) && GoodItem(m.item)
  }

  predicate GoodMembers(members: seq<Member>) {
    members == [] || (GoodMember(members[0]) && GoodMembers(members[1..]))
  }

  // ---------- the meaning ----------

  /** The text a string denotes: the UTF-8 form of its code points, up to the first code point 0. */
  function TextOf(w: Written): string
    requires WriteAll(w.pieces, w.codes)
  {
    PiecesAreRead(w.pieces, w.codes, "\"");
    CString(Utf8All(w.codes), '\0')
  }

  lemma {:induction false} TextIsUtf8(w: Written)
    requires WriteAll(w.pieces, w.codes)
    ensures CodePoints(TextOf(w)) == Some(CString(w.codes, 0))
  {
    PiecesAreRead(w.pieces, w.codes, "\"");
    CharactersAreRead(w.codes);
  }

  function Meaning(d: Doc): Json
    requires GoodDoc(d)
  {
    match d
    case Word(value) => value
    case Num(numeral) => Number(Denoted(numeral))
    case Str(text) => Text(TextOf(text))
    case Arr(_, items) => Array(ItemMeanings(items))
    case Obj(_, members) => Object(MemberMeanings(members))
  }

  function ItemMeanings(items: seq<Item>): seq<Json>
    requires GoodItems(items)
  {
    if items == [] then []
    else
      assert GoodItem(items[0]);
      [Meaning(items[0].doc)] + ItemMeanings(items[1..])
  }

  function MemberMeanings(members: seq<Member>): seq<Field>
    requires GoodMembers(members)
  {
    if members == [] then []
    else
      assert GoodMember(members[0]) && GoodItem(members[0].item);
      [Field(TextOf(members[0].name), Meaning(members[0].item.doc))] + MemberMeanings(members[1..])
  }

  // ---------- white space ----------

  lemma {:induction false} SkipsBlank(b: string, s: string)
    requires Blank(b) && Terminated(s)
    ensures Terminated(b + s) && SkipWhitespace(b + s) == SkipWhitespace(s)
  {
    if b == [] {
      EmptyEnds(s);
    } else {
      assert (b + s)[1..] == b[1..] + s;
      SkipsBlank(b[1..], s);
    }
  }

  lemma {:induction false} SkipsOnce(s: string)
    requires Terminated(s)
    ensures SkipWhitespace(SkipWhitespace(s)) == SkipWhitespace(s)
  {
    if |s| > 1 && s[0] <= ' ' {
      SkipsOnce(s[1..]);
    }
  }

  lemma {:induction false} BlankFollows(b: string, rest: string)
    requires Blank(b) && Follows(rest)
    ensures Follows(b + rest)
  {
    if b == [] {
      EmptyEnds(rest);
    }
  }

  /** A closing or separating character. */
  predicate Stops(c: char) {
    c == ',' || c == ']' || c == '}' || c == ':'
  }

  lemma {:induction false} StopFollows(b: string, c: char, rest: string)
    requires Blank(b) && Stops(c) && Terminated(rest)
    ensures Follows([c] + rest) && Follows(b + ([c] + rest)) && SkipWhitespace(b + ([c] + rest)) == [c] + rest
  {
    Appended([c], rest);
    NothingToSkip([c], rest);
    BlankFollows(b, [c] + rest);
    SkipsBlank(b, [c] + rest);
  }

  // ---------- one item ----------

  /** A value with white space around it, before a stop. */
  lemma {:induction false} ItemIsRead(i: Item, x: Json, d: nat, c: char, rest: string, depth: nat)
    requires GoodItem(i) && Reads(Spell(i.doc), x, d) && Stops(c) && Terminated(rest) && depth <= NESTING_LIMIT
    ensures var s, after := SpellItem(i) + ([c] + rest), i.after + ([c] + rest);
      && Terminated(s) && Terminated(after) && SkipWhitespace(after) == [c] + rest
      && SkipWhitespace(s) != [] && SkipWhitespace(s)[0] == Spell(i.doc)[0]
      && ParseValue(SkipWhitespace(s), depth) == Within(depth + d, x, after)
  {
    var p, after := Spell(i.doc), i.after + ([c] + rest);
    StopFollows(i.after, c, rest);
    assert ReadsAt(p, x, d, after, depth);
    SkipsBlank(i.before, p + after);
    NothingToSkip(p, after);
    RegroupFour(i.before, p, i.after, [c] + rest);
  }

  // ---------- arrays ----------

  ghost predicate ReadsListAt(q: string, items: seq<Json>, d: nat, rest: string, depth: nat) {
    var s := q + ("]" + rest);
    && Terminated(s) && SkipWhitespace(s)[0] != ']'
    && ParseElements(s, depth) == Within(depth + d, items, rest)
  }

  /** `q` and a closing bracket read as the elements. */
  ghost predicate ReadsList(q: string, items: seq<Json>, d: nat) {
    forall rest, depth: nat :: Terminated(rest) && depth <= NESTING_LIMIT ==> ReadsListAt(q, items, d, rest, depth)
  }

  lemma {:induction false} LastInList(i: Item, x: Json, d: nat)
    requires GoodItem(i) && Reads(Spell(i.doc), x, d)
    ensures ReadsList(SpellItem(i), [x], d)
  {
    forall rest, depth: nat | Terminated(rest) && depth <= NESTING_LIMIT
      ensures ReadsListAt(SpellItem(i), [x], d, rest, depth) {
      ItemIsRead(i, x, d, ']', rest, depth);
      TailOfCons(']', rest);
    }
  }

  lemma {:induction false} NextInList(i: Item, x: Json, d: nat, q: string, tail: seq<Json>, e: nat)
    requires GoodItem(i) && Reads(Spell(i.doc), x, d) && ReadsList(q, tail, e)
    ensures ReadsList(SpellItem(i) + ("," + q), [x] + tail, Max(d, e))
  {
    forall rest, depth: nat | Terminated(rest) && depth <= NESTING_LIMIT
      ensures ReadsListAt(SpellItem(i) + ("," + q), [x] + tail, Max(d, e), rest, depth) {
      var more := q + ("]" + rest);
      assert ReadsListAt(q, tail, e, rest, depth);
      ItemIsRead(i, x, d, ',', more, depth);
      TailOfCons(',', more);
      RegroupFour(SpellItem(i), ",", q, "]" + rest);
    }
  }

  lemma {:induction false} ElementsSkip(s: string, depth: nat)
    requires Terminated(s)
    ensures ParseElements(SkipWhitespace(s), depth) == ParseElements(s, depth)
  {
    SkipsOnce(s);
  }

  lemma {:induction false} ArrayOfElements(s: string, depth: nat, items: seq<Json>, d: nat, rest: string)
    requires Terminated(s) && SkipWhitespace(s)[0] != ']'
    requires depth < NESTING_LIMIT ==> ParseElements(s, depth + 1) == Within(depth + 1 + d, items, rest)
    ensures Terminated("[" + s) && ParseValue("[" + s, depth) == Within(depth + 1 + d, Array(items), rest)
  {
    Appended("[", s);
    TailOfCons('[', s);
    ElementsSkip(s, depth + 1);
    ValueOfArray("[" + s, depth, items, depth + 1 + d, rest);
  }

  lemma {:induction false} ListIsArray(q: string, items: seq<Json>, d: nat)
    requires ReadsList(q, items, d)
    ensures Reads("[" + q + "]", Array(items), 1 + d)
  {
    var e := 1 + d;
    forall rest, depth: nat | Follows(rest) && depth <= NESTING_LIMIT
      ensures ReadsAt("[" + q + "]", Array(items), e, rest, depth) {
      assert ReadsListAt(q, items, d, rest, if depth < NESTING_LIMIT then depth + 1 else depth);
      ArrayOfElements(q + ("]" + rest), depth, items, d, rest);
      RegroupFour("[", q, "]", rest);
    }
  }

  lemma {:induction false} BlankIsArray(b: string)
    requires Blank(b)
    ensures Reads("[" + b + "]", Array([]), 1)
  {
    forall rest, depth: nat | Follows(rest) && depth <= NESTING_LIMIT
      ensures ReadsAt("[" + b + "]", Array([]), 1, rest, depth) {
      var s := b + ("]" + rest);
      StopFollows(b, ']', rest);
      Appended("[", s);
      TailOfCons('[', s);
      TailOfCons(']', rest);
      RegroupFour("[", b, "]", rest);
      ValueOfArray("[" + s, depth, [], depth + 1, rest);
    }
  }

  // ---------- objects ----------

  lemma {:induction false} StringIsRead(w: Written, rest: string)
    requires WriteAll(w.pieces, w.codes) && Terminated(rest)
    ensures Terminated(SpellString(w) + rest) && ParseString(SpellString(w) + rest) == Some((TextOf(w), rest))
  {
    PiecesArePassed(w.pieces, w.codes, "\"" + rest);
    PiecesAreRead(w.pieces, w.codes, "\"" + rest);
    QuotedParts(Flat(w.pieces), rest);
  }

  lemma {:induction false} NameIsRead(before: string, name: Written, middle: string, rest: string)
    requires Blank(before) && WriteAll(name.pieces, name.codes) && Blank(middle) && Terminated(rest)
    ensures var s := before + (SpellString(name) + (middle + (":" + rest)));
      && Terminated(s) && SkipWhitespace(s)[0] == '\"' && ParseName(s) == Some((TextOf(name), rest))
  {
    var after := middle + (":" + rest);
    StopFollows(middle, ':', rest);
    StringIsRead(name, after);
    SkipsBlank(before, SpellString(name) + after);
    NothingToSkip(SpellString(name), after);
    TailOfCons(':', rest);
  }

  lemma {:induction false} MemberIsRead(m: Member, x: Json, d: nat, c: char, rest: string, depth: nat)
    requires GoodMember(m) && Reads(Spell(m.item.doc), x, d) && Stops(c) && Terminated(rest) && depth <= NESTING_LIMIT
    ensures var s, after := SpellMember(m) + ([c] + rest), m.item.after + ([c] + rest);
      && Terminated(s) && Terminated(after) && SkipWhitespace(after) == [c] + rest && SkipWhitespace(s)[0] == '\"'
      && ParseMember(s, depth) == Within(depth + d, Field(TextOf(m.name), x), after)
  {
    var value := SpellItem(m.item) + ([c] + rest);
    ItemIsRead(m.item, x, d, c, rest, depth);
    NameIsRead(m.before, m.name, m.middle, value);
    MemberText(m, [c] + rest);
  }

  lemma {:induction false} MemberText(m: Member, rest: string)
    ensures SpellMember(m) + rest == m.before + (SpellString(m.name) + (m.middle + (":" + (SpellItem(m.item) + rest))))
  {
    Regroup(":", SpellItem(m.item), rest);
    Regroup(m.middle, ":" + SpellItem(m.item), rest);
    Regroup(SpellString(m.name), m.middle + (":" + SpellItem(m.item)), rest);
    Regroup(m.before, SpellString(m.name) + (m.middle + (":" + SpellItem(m.item))), rest);
  }

  ghost predicate ReadsMembersAt(q: string, fields: seq<Field>, d: nat, rest: string, depth: nat) {
    var s := q + ("}" + rest);
    && Terminated(s) && SkipWhitespace(s)[0] == '\"'
    && ParseMembers(s, depth) == Within(depth + d, fields, rest)
  }

  /** `q` and a closing brace read as the members. */
  ghost predicate ReadsMembers(q: string, fields: seq<Field>, d: nat) {
    forall rest, depth: nat :: Terminated(rest) && depth <= NESTING_LIMIT ==> ReadsMembersAt(q, fields, d, rest, depth)
  }

  lemma {:induction false} LastMember(m: Member, x: Json, d: nat)
    requires GoodMember(m) && Reads(Spell(m.item.doc), x, d)
    ensures ReadsMembers(SpellMember(m), [Field(TextOf(m.name), x)], d)
  {
    var f := Field(TextOf(m.name), x);
    forall rest, depth: nat | Terminated(rest) && depth <= NESTING_LIMIT
      ensures ReadsMembersAt(SpellMember(m), [f], d, rest, depth) {
      MemberIsRead(m, x, d, '}', rest, depth);
      TailOfCons('}', rest);
    }
  }

  lemma {:induction false} NextMember(m: Member, x: Json, d: nat, q: string, tail: seq<Field>, e: nat)
    requires GoodMember(m) && Reads(Spell(m.item.doc), x, d) && ReadsMembers(q, tail, e)
    ensures ReadsMembers(SpellMember(m) + ("," + q), [Field(TextOf(m.name), x)] + tail, Max(d, e))
  {
    var f := Field(TextOf(m.name), x);
    forall rest, depth: nat | Terminated(rest) && depth <= NESTING_LIMIT
      ensures ReadsMembersAt(SpellMember(m) + ("," + q), [f] + tail, Max(d, e), rest, depth) {
      var more := q + ("}" + rest);
      assert ReadsMembersAt(q, tail, e, rest, depth);
      MemberIsRead(m, x, d, ',', more, depth);
      TailOfCons(',', more);
      RegroupFour(SpellMember(m), ",", q, "}" + rest);
    }
  }

  lemma {:induction false} MembersSkip(s: string, depth: nat)
    requires Terminated(s)
    ensures ParseMembers(SkipWhitespace(s), depth) == ParseMembers(s, depth)
  {
    SkipsOnce(s);
  }

  lemma {:induction false} ObjectOfMembers(s: string, depth: nat, fields: seq<Field>, d: nat, rest: string)
    requires Terminated(s) && SkipWhitespace(s)[0] == '\"'
    requires depth < NESTING_LIMIT ==> ParseMembers(s, depth + 1) == Within(depth + 1 + d, fields, rest)
    ensures Terminated("{" + s) && ParseValue("{" + s, depth) == Within(depth + 1 + d, Object(fields), rest)
  {
    Appended("{", s);
    TailOfCons('{', s);
    MembersSkip(s, depth + 1);
    ValueOfObject("{" + s, depth, fields, depth + 1 + d, rest);
  }

  lemma {:induction false} MembersAreObject(q: string, fields: seq<Field>, d: nat)
    requires ReadsMembers(q, fields, d)
    ensures Reads("{" + q + "}", Object(fields), 1 + d)
  {
    var e := 1 + d;
    forall rest, depth: nat | Follows(rest) && depth <= NESTING_LIMIT
      ensures ReadsAt("{" + q + "}", Object(fields), e, rest, depth) {
      assert ReadsMembersAt(q, fields, d, rest, if depth < NESTING_LIMIT then depth + 1 else depth);
      ObjectOfMembers(q + ("}" + rest), depth, fields, d, rest);
      RegroupFour("{", q, "}", rest);
    }
  }

  lemma {:induction false} BlankIsObject(b: string)
    requires Blank(b)
    ensures Reads("{" + b + "}", Object([]), 1)
  {
    forall rest, depth: nat | Follows(rest) && depth <= NESTING_LIMIT
      ensures ReadsAt("{" + b + "}", Object([]), 1, rest, depth) {
      var s := b + ("}" + rest);
      StopFollows(b, '}', rest);
      Appended("{", s);
      TailOfCons('{', s);
      TailOfCons('}', rest);
      RegroupFour("{", b, "}", rest);
      ValueOfObject("{" + s, depth, [], depth + 1, rest);
    }
  }

  // ---------- all documents ----------

  lemma {:induction false} NumReads(n: Numeral)
    requires GoodNumeral(n)
    ensures Reads(Spelled(n), Number(Denoted(n)), 0)
  {
    SpelledBySign(n);
    forall rest, depth: nat | Follows(rest) && depth <= NESTING_LIMIT
      ensures ReadsAt(Spelled(n), Number(Denoted(n)), 0, rest, depth) {
      NumeralIsRead(n, rest);
      assert (Spelled(n) + rest)[0] == Spelled(n)[0];
      NoWord(Spelled(n) + rest);
    }
  }

  lemma {:induction false} StrReads(w: Written)
    requires WriteAll(w.pieces, w.codes)
    ensures Reads(SpellString(w), Text(TextOf(w)), 0)
  {
    forall rest, depth: nat | Follows(rest) && depth <= NESTING_LIMIT
      ensures ReadsAt(SpellString(w), Text(TextOf(w)), 0, rest, depth) {
      StringIsRead(w, rest);
      assert (SpellString(w) + rest)[0] == '\"';
      NoWord(SpellString(w) + rest);
    }
  }

  lemma {:induction false} ArrReads(d: Doc)
    requires GoodDoc(d) && d.Arr?
    ensures Reads(Spell(d), Meaning(d), Depth(Meaning(d)))
    decreases d, 0
  {
    if d.items == [] {
      BlankIsArray(d.blank);
    } else {
      ItemsAreRead(d.items);
      ListIsArray(SpellItems(d.items), ItemMeanings(d.items), ItemsDepth(ItemMeanings(d.items)));
    }
  }

  lemma {:induction false} ObjReads(d: Doc)
    requires GoodDoc(d) && d.Obj?
    ensures Reads(Spell(d), Meaning(d), Depth(Meaning(d)))
    decreases d, 0
  {
    if d.members == [] {
      BlankIsObject(d.blank);
    } else {
      MembersAreRead(d.members);
      MembersAreObject(SpellMembers(d.members), MemberMeanings(d.members), FieldsDepth(MemberMeanings(d.members)));
    }
  }

  lemma {:induction false} DocReads(d: Doc)
    requires GoodDoc(d)
    ensures Reads(Spell(d), Meaning(d), Depth(Meaning(d)))
    decreases d, 1
  {
    match d {
      case Word(value) => ScalarReads(value);
      case Num(numeral) => NumReads(numeral);
      case Str(text) => StrReads(text);
      case Arr(_, _) => ArrReads(d);
      case Obj(_, _) => ObjReads(d);
    }
  }

  lemma {:induction false} ItemsAreRead(items: seq<Item>)
    requires items != [] && GoodItems(items)
    ensures ReadsList(SpellItems(items), ItemMeanings(items), ItemsDepth(ItemMeanings(items)))
  {
    var i, tail := items[0], items[1..];
    assert GoodItem(i);
    var x, xs := Meaning(i.doc), ItemMeanings(tail);
    DocReads(i.doc);
    TailOfCons(x, xs);
    if tail == [] {
      EmptyEnds([x]);
      LastInList(i, x, Depth(x));
    } else {
      ItemsAreRead(tail);
      NextInList(i, x, Depth(x), SpellItems(tail), xs, ItemsDepth(xs));
    }
  }

  lemma {:induction false} MembersAreRead(members: seq<Member>)
    requires members != [] && GoodMembers(members)
    ensures ReadsMembers(SpellMembers(members), MemberMeanings(members), FieldsDepth(MemberMeanings(members)))
  {
    var m, tail := members[0], members[1..];
    assert GoodMember(m) && GoodItem(m.item);
    var x, fields := Meaning(m.item.doc), MemberMeanings(tail);
    DocReads(m.item.doc);
    TailOfCons(Field(TextOf(m.name), x), fields);
    if tail == [] {
      EmptyEnds([Field(TextOf(m.name), x)]);
      LastMember(m, x, Depth(x));
    } else {
      MembersAreRead(tail);
      NextMember(m, x, Depth(x), SpellMembers(tail), fields, FieldsDepth(fields));
    }
  }

  /** What may stand behind a document: anything that does not go on with a number. */
  predicate MayFollow(rest: string) {
    rest == "" || !IsNumberChar(rest[0])
  }

  const MARK: string := [0xEF as char, 0xBB as char, 0xBF as char]

  lemma {:induction false} SkipsMark(s: string)
    requires Terminated(s) && |s| > 1
    ensures Terminated(MARK + s) && SkipBom(MARK + s) == s
    ensures s[0] < 128 as char ==> SkipBom(s) == s
  {
  }

  lemma {:induction false} AtStart(text: string, before: string, p: string, rest: string)
    requires Blank(before) && p != "" && ' ' < p[0] < 128 as char
    requires text == before + (p + rest) || text == MARK + (before + (p + rest))
    ensures SkipWhitespace(SkipBom(text + ['\0'])) == p + (rest + ['\0'])
  {
    var s := before + (p + (rest + ['\0']));
    SkipsBlank(before, p + (rest + ['\0']));
    NothingToSkip(p, rest + ['\0']);
    SkipsMark(s);
    assert s[0] == if before == [] then p[0] else before[0];
    EndsLast(before, p, rest);
    Regroup(MARK, before + (p + rest), ['\0']);
  }

  lemma {:induction false} EndsLast(before: string, p: string, rest: string)
    ensures (before + (p + rest)) + ['\0'] == before + (p + (rest + ['\0']))
  {
    Regroup(before, p + rest, ['\0']);
    Regroup(p, rest, ['\0']);
  }

  lemma {:induction false} SpellStarts(d: Doc)
    requires GoodDoc(d)
    ensures Spell(d) != "" && ' ' < Spell(d)[0] < 128 as char
  {
    if d.Num? {
      SpelledBySign(d.numeral);
    }
  }

  /** Every document of the grammar, with or without a byte order mark and white space in front, parses to its
      meaning, unless it nests deeper than the limit; then the parse fails. What follows it is ignored. */
  lemma {:induction false} DocumentsParse(d: Doc, before: string, rest: string, text: string)
    requires GoodDoc(d) && Blank(before) && MayFollow(rest)
    requires text == before + (Spell(d) + rest)
      || text == MARK + (before + (Spell(d) + rest))
    ensures Parse(text) == if Depth(Meaning(d)) <= 1000 then Some(Meaning(d)) else None
  {
    SpellStarts(d);
    AtStart(text, before, Spell(d), rest);
    DocReads(d);
    assert Follows(rest + ['\0']);
    assert ReadsAt(Spell(d), Meaning(d), Depth(Meaning(d)), rest + ['\0'], 0);
  }
}
