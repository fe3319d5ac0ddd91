/** Precedence of semantic versions (third-party/src/semver.c), against section 11 of SemVer 2.0.0. */
module SemVer {
  import opened Basics
  import opened Decimal

  // ---------- orders ----------

  /** binary_comparison. */
  function Compare(x: int, y: int): int {
    if x == y then 0 else if x > y then 1 else -1
  }

  ghost predicate TotalOrder<T(!new)>(cmp: (T, T) -> int) {
    && (forall x, y :: -1 <= cmp(x, y) <= 1 && cmp(x, y) == -cmp(y, x))
    && (forall x, y :: cmp(x, y) == 0 <==> x == y)
    && (forall x, y, z :: cmp(x, y) <= 0 && cmp(y, z) <= 0 ==> cmp(x, z) <= 0)
  }

  /** The lexicographic extension of an order; a proper prefix comes first. */
  function Lex<T>(cmp: (T, T) -> int, a: seq<T>, b: seq<T>): int {
    if a == [] then (if b == [] then 0 else -1)
    else if b == [] then 1
    else if cmp(a[0], b[0]) != 0 then cmp(a[0], b[0])
    else Lex(cmp, a[1..], b[1..])
  }

  lemma {:induction false} LexSymmetric<T(!new)>(cmp: (T, T) -> int, a: seq<T>, b: seq<T>)
    requires TotalOrder(cmp)
    ensures -1 <= Lex(cmp, a, b) <= 1 && Lex(cmp, a, b) == -Lex(cmp, b, a)
    ensures Lex(cmp, a, b) == 0 <==> a == b
  {
    if a != [] && b != [] {
      LexSymmetric(cmp, a[1..], b[1..]);
      assert a == [a[0]] + a[1..] && b == [b[0]] + b[1..];
    }
  }

  lemma {:induction false} LexTransitive<T(!new)>(cmp: (T, T) -> int, a: seq<T>, b: seq<T>, c: seq<T>)
    requires TotalOrder(cmp) && Lex(cmp, a, b) <= 0 && Lex(cmp, b, c) <= 0
    ensures Lex(cmp, a, c) <= 0
  {
    if a != [] && b != [] && c != [] {
      assert cmp(a[0], b[0]) <= 0 && cmp(b[0], c[0]) <= 0;
      if cmp(a[0], b[0]) == 0 && cmp(b[0], c[0]) == 0 {
        LexTransitive(cmp, a[1..], b[1..], c[1..]);
      }
    }
  }

  /** What being lower means: the first difference decides, and a list is higher than its proper prefixes. */
  ghost predicate Lower<T>(cmp: (T, T) -> int, a: seq<T>, b: seq<T>) {
    exists i :: 0 <= i <= |a| && LowerAt(cmp, a, b, i)
  }

  ghost predicate LowerAt<T>(cmp: (T, T) -> int, a: seq<T>, b: seq<T>, i: int)
    requires 0 <= i <= |a|
  {
    i < |b| && a[..i] == b[..i] && (i == |a| || cmp(a[i], b[i]) < 0)
  }

  lemma {:induction false} LexIsLower<T(!new)>(cmp: (T, T) -> int, a: seq<T>, b: seq<T>)
    requires TotalOrder(cmp)
    ensures Lex(cmp, a, b) < 0 <==> Lower(cmp, a, b)
  {
    if a == [] || b == [] {
      if a == [] && b != [] { assert LowerAt(cmp, a, b, 0); }
    } else {
      var a', b' := a[1..], b[1..];
      forall i | 0 < i <= |a| && LowerAt(cmp, a, b, i) ensures a[0] == b[0] {
        assert a[0] == a[..i][0] == b[..i][0] == b[0];
      }
      if cmp(a[0], b[0]) != 0 {
        if cmp(a[0], b[0]) < 0 { assert LowerAt(cmp, a, b, 0); }
      } else {
        LexIsLower(cmp, a', b');
        forall i | 0 <= i <= |a'| ensures LowerAt(cmp, a', b', i) <==> LowerAt(cmp, a, b, i + 1) {
          LowerAtTail(cmp, a, b, i);
        }
        if i :| 0 <= i <= |a| && LowerAt(cmp, a, b, i) {
          assert LowerAt(cmp, a', b', i - 1);
        }
        if i :| 0 <= i <= |a'| && LowerAt(cmp, a', b', i) {
          assert LowerAt(cmp, a, b, i + 1);
        }
      }
    }
  }

  lemma {:induction false} LowerAtTail<T>(cmp: (T, T) -> int, a: seq<T>, b: seq<T>, i: int)
    requires a != [] && b != [] && a[0] == b[0] && 0 <= i < |a|
    ensures LowerAt(cmp, a[1..], b[1..], i) <==> LowerAt(cmp, a, b, i + 1)
  {
    if i + 1 <= |b| {
      assert a[..i + 1] == [a[0]] + a[1..][..i];
      assert b[..i + 1] == [b[0]] + b[1..][..i];
      if a[..i + 1] == b[..i + 1] {
        assert a[1..][..i] == a[..i + 1][1..] == b[..i + 1][1..] == b[1..][..i];
      }
    }
  }

  // ---------- identifiers ----------

  /** Where the next delimiter is, or the end. */
  function UntilDot(s: string): (n: nat)
    ensures n <= |s| && (n < |s| ==> s[n] == '.')
  {
    if s == [] || s[0] == '.' then 0 else 1 + UntilDot(s[1..])
  }

  /** The dot-separated identifiers of a prerelease, at least one. */
  function Identifiers(s: string): (r: seq<string>)
    ensures r != []
    decreases |s|
  {
    var n := UntilDot(s);
    if n == |s| then [s] else [s[..n]] + Identifiers(s[n + 1..])
  }

  function Dotted(ids: seq<string>): string
    requires ids != []
  {
    if |ids| == 1 then ids[0] else ids[0] + ("." + Dotted(ids[1..]))
  }

  lemma {:induction false} UntilDotIsFirst(s: string)
    ensures forall i :: 0 <= i < UntilDot(s) ==> s[i] != '.'
  {
    if s != [] && s[0] != '.' {
      UntilDotIsFirst(s[1..]);
    }
  }

  /** The identifiers hold no dots, and with dots between them they are the prerelease. */
  lemma {:induction false} IdentifiersAreSplit(s: string)
    ensures Dotted(Identifiers(s)) == s
    ensures forall i :: 0 <= i < |Identifiers(s)| ==> '.' !in Identifiers(s)[i]
    decreases |s|
  {
    var n := UntilDot(s);
    UntilDotIsFirst(s);
    if n < |s| {
      IdentifiersAreSplit(s[n + 1..]);
      TailOfCons(s[..n], Identifiers(s[n + 1..]));
      assert s == s[..n] + ("." + s[n + 1..]);
    }
  }

  const LONG_MAX := 0x7fff_ffff_ffff_ffff
  const INT_MAX := 0x7fff_ffff

  /** What strtol returns saturates at the limits of a 64-bit long. */
  function Clamp(v: int): int {
    if v > LONG_MAX then LONG_MAX else if v < -LONG_MAX - 1 then -LONG_MAX - 1 else v
  }

  /** The conversion of a long to int. */
  function Truncated(v: int): int {
    (v + 0x8000_0000) % 0x1_0000_0000 - 0x8000_0000
  }

  predicate Negative(s: string) {
    s != [] && s[0] == '-'
  }

  /** strtol in base ten: the value as int, and how many characters it read. Without digits it reads none.
      Prereleases hold no white space and no plus sign. */
  function Strtol(s: string): (r: (int, nat))
    ensures r.1 <= |s|
  {
    var digits := Unsigned(s);
    var n := DigitRun(digits);
    if n == 0 then (0, 0)
    else
      var magnitude: int := Value(digits[..n]);
      if Negative(s) then (Truncated(Clamp(-magnitude)), 1 + n) else (Truncated(Clamp(magnitude)), n)
  }

  function Unsigned(s: string): string {
    if Negative(s) then s[1..] else s
  }

  /** Numeric identifiers are lower than others. */
  datatype Key = Numeric(n: int) | Word(w: string)

  /** What the code takes an identifier for: numeric when strtol stops exactly at its end. */
  function CodeKey(id: string): Key {
    if Strtol(id).1 == |id| then Numeric(Strtol(id).0) else Word(id)
  }

  /** Section 11: identifiers of digits only are numeric. */
  function StandardKey(id: string): Key {
    if id != [] && AllDigits(id) then Numeric(Value(id)) else Word(id)
  }

  datatype Reading = Code | Standard

  function KeyOf(reading: Reading, id: string): Key {
    match reading
    case Code => CodeKey(id)
    case Standard => StandardKey(id)
  }

  function CompareChars(a: char, b: char): int {
    Compare(a as int, b as int)
  }

  function CompareWords(a: string, b: string): int {
    Lex(CompareChars, a, b)
  }

  function CompareKeys(k: Key, l: Key): int {
    match (k, l)
    case (Numeric(m), Numeric(n)) => Compare(m, n)
    case (Numeric(_), Word(_)) => -1
    case (Word(_), Numeric(_)) => 1
    case (Word(v), Word(w)) => CompareWords(v, w)
  }

  lemma {:induction false} CharsAreOrdered()
    ensures TotalOrder(CompareChars)
  {
  }

  lemma {:induction false} KeysAreOrdered()
    ensures TotalOrder(CompareKeys)
  {
    CharsAreOrdered();
    forall k, l ensures -1 <= CompareKeys(k, l) <= 1 && CompareKeys(k, l) == -CompareKeys(l, k)
      && (CompareKeys(k, l) == 0 <==> k == l) {
      if k.Word? && l.Word? { LexSymmetric(CompareChars, k.w, l.w); }
    }
    forall k, l, n | CompareKeys(k, l) <= 0 && CompareKeys(l, n) <= 0 ensures CompareKeys(k, n) <= 0 {
      if k.Word? && l.Word? && n.Word? { LexTransitive(CompareChars, k.w, l.w, n.w); }
    }
  }

  function Keys(reading: Reading, ids: seq<string>): seq<Key> {
    if ids == [] then [] else [KeyOf(reading, ids[0])] + Keys(reading, ids[1..])
  }

  /** The keys of a prerelease. */
  function Fields(reading: Reading, s: string): seq<Key> {
    Keys(reading, Identifiers(s))
  }

  // ---------- versions ----------

  datatype Version = Version(major: int, minor: int, patch: int, prerelease: Option<string>)

  /** Precedence of prereleases; none is higher than any. */
  function PrereleaseOrder(reading: Reading, x: Option<string>, y: Option<string>): int {
    if x.None? && y.None? then 0
    else if y.None? then -1
    else if x.None? then 1
    else Order(reading, x.value, y.value)
  }

  function Numbers(v: Version): seq<int> {
    [v.major, v.minor, v.patch]
  }

  /** Precedence of versions by the given reading of identifiers. */
  function Precedence(reading: Reading, x: Version, y: Version): int {
    var res := Lex(Compare, Numbers(x), Numbers(y));
    if res != 0 then res else PrereleaseOrder(reading, x.prerelease, y.prerelease)
  }

  lemma {:induction false} NumbersAreOrdered()
    ensures TotalOrder(Compare)
  {
  }

  /** Sign-antisymmetric on all versions, and equal exactly for equal numbers and keys. */
  lemma {:induction false} PrecedenceIsAntisymmetric(reading: Reading, x: Version, y: Version)
    ensures Precedence(reading, x, y) == -Precedence(reading, y, x)
    ensures Precedence(reading, x, y) == 0 <==>
      && Numbers(x) == Numbers(y) && x.prerelease.None? == y.prerelease.None?
      && (x.prerelease.Some? ==> Fields(reading, x.prerelease.value) == Fields(reading, y.prerelease.value))
  {
    NumbersAreOrdered();
    KeysAreOrdered();
    LexSymmetric(Compare, Numbers(x), Numbers(y));
    if x.prerelease.Some? && y.prerelease.Some? {
      LexSymmetric(CompareKeys, Fields(reading, x.prerelease.value), Fields(reading, y.prerelease.value));
    }
  }

  /** The prerelease puts a version below one without, and else below one whose identifiers are higher. */
  ghost predicate LowerPrerelease(reading: Reading, x: Option<string>, y: Option<string>) {
    x.Some? && (y.None? || Lower(CompareKeys, Fields(reading, x.value), Fields(reading, y.value)))
  }

  /** What precedence means: major, minor and patch in turn, and only then the prerelease. */
  lemma {:induction false} PrecedenceMeans(reading: Reading, x: Version, y: Version)
    ensures -1 <= Precedence(reading, x, y) <= 1
    ensures Precedence(reading, x, y) < 0 <==>
      x.major < y.major || (x.major == y.major &&
        (x.minor < y.minor || (x.minor == y.minor &&
          (x.patch < y.patch || (x.patch == y.patch && LowerPrerelease(reading, x.prerelease, y.prerelease))))))
  {
    NumbersInTurn(x, y);
    if x.prerelease.Some? && y.prerelease.Some? {
      KeysAreOrdered();
      LexSymmetric(CompareKeys, Fields(reading, x.prerelease.value), Fields(reading, y.prerelease.value));
      LexIsLower(CompareKeys, Fields(reading, x.prerelease.value), Fields(reading, y.prerelease.value));
    }
  }

  lemma {:induction false} PrecedenceIsTransitive(reading: Reading, x: Version, y: Version, z: Version)
    requires Precedence(reading, x, y) <= 0 && Precedence(reading, y, z) <= 0
    ensures Precedence(reading, x, z) <= 0
  {
    NumbersAreOrdered();
    LexSymmetric(Compare, Numbers(x), Numbers(y));
    LexSymmetric(Compare, Numbers(y), Numbers(z));
    LexSymmetric(Compare, Numbers(x), Numbers(z));
    LexTransitive(Compare, Numbers(x), Numbers(y), Numbers(z));
    if Numbers(x) == Numbers(y) == Numbers(z) {
      PrereleaseTransitive(reading, x.prerelease, y.prerelease, z.prerelease);
    } else {
      assert Numbers(x) == Numbers(z) ==> Lex(Compare, Numbers(y), Numbers(x)) <= 0;
    }
  }

  lemma {:induction false} PrereleaseTransitive(
    reading: Reading, x: Option<string>, y: Option<string>, z: Option<string>)
    requires PrereleaseOrder(reading, x, y) <= 0 && PrereleaseOrder(reading, y, z) <= 0
    ensures PrereleaseOrder(reading, x, z) <= 0
  {
    KeysAreOrdered();
    if x.Some? && y.Some? && z.Some? {
      LexTransitive(CompareKeys, Fields(reading, x.value), Fields(reading, y.value), Fields(reading, z.value));
    }
  }

  // ---------- the code against the standard ----------

  /** An identifier the code reads as the standard does: not empty, not a hyphen and digits, and in range. */
  predicate Ordinary(id: string) {
    && id != []
    && !(id[0] == '-' && |id| > 1 && AllDigits(id[1..]))
    && (AllDigits(id) ==> Value(id) <= INT_MAX)
  }

  lemma {:induction false} KeyIsStandardIff(id: string)
    ensures CodeKey(id) == StandardKey(id) <==> Ordinary(id)
  {
    if id != [] {
      if id[0] == '-' {
        RunIsAll(id[1..]);
      } else {
        RunIsAll(id);
        if AllDigits(id) {
          TruncationIff(Value(id));
        }
      }
    }
  }

  lemma {:induction false} TruncationKeepsResidue(v: int)
    ensures ReadAs(v, Truncated(v))
  {
  }

  /** How digits are read: what a long holds is taken modulo 2^32 into int, and numbers beyond it all read as -1. */
  lemma {:induction false} DigitsAreRead(id: string)
    requires id != [] && AllDigits(id)
    ensures CodeKey(id).Numeric?
    ensures if Value(id) <= LONG_MAX then ReadAs(Value(id), CodeKey(id).n) else CodeKey(id).n == -1
  {
    RunIsAll(id);
    TruncationKeepsResidue(Value(id));
  }

  /** The same behind a hyphen, for the negative number; beyond a long they all read as 0. */
  lemma {:induction false} HyphenDigitsAreRead(id: string, v: int)
    requires id != [] && AllDigits(id) && v == Value(id)
    ensures CodeKey("-" + id).Numeric?
    ensures if v <= LONG_MAX + 1 then ReadAs(-v, CodeKey("-" + id).n) else CodeKey("-" + id).n == 0
  {
    RunIsAll(id);
    TailOfCons('-', id);
    TruncationKeepsResidue(-v);
  }

  /** The int of the same residue modulo 2^32. */
  predicate ReadAs(v: int, n: int) {
    -0x8000_0000 <= n < 0x8000_0000 && (v - n) % 0x1_0000_0000 == 0
  }

  lemma {:induction false} TruncationIff(v: nat)
    ensures Truncated(Clamp(v)) == v <==> v <= INT_MAX
  {
  }

  ghost predicate OrdinaryVersion(v: Version) {
    v.prerelease.Some? ==> AllOrdinary(Identifiers(v.prerelease.value))
  }

  predicate AllOrdinary(ids: seq<string>) {
    ids == [] || (Ordinary(ids[0]) && AllOrdinary(ids[1..]))
  }

  /** The two readings of a list of identifiers agree exactly when every one is ordinary. */
  lemma {:induction false} KeysAreStandardIff(ids: seq<string>)
    ensures Keys(Code, ids) == Keys(Standard, ids) <==> AllOrdinary(ids)
  {
    if ids != [] {
      KeyIsStandardIff(ids[0]);
      KeysAreStandardIff(ids[1..]);
      var code, standard := Keys(Code, ids), Keys(Standard, ids);
      assert code[0] == CodeKey(ids[0]) && code[1..] == Keys(Code, ids[1..]);
      assert standard[0] == StandardKey(ids[0]) && standard[1..] == Keys(Standard, ids[1..]);
    }
  }

  /** Section 11.4 on lists: below iff the first difference is below or the other has more fields. */
  lemma {:induction false} StandardPrereleaseOrder(x: string, y: string)
    ensures PrereleaseOrder(Standard, Some(x), Some(y)) < 0 <==>
      Lower(CompareKeys, Fields(Standard, x), Fields(Standard, y))
  {
    KeysAreOrdered();
    LexIsLower(CompareKeys, Fields(Standard, x), Fields(Standard, y));
  }

  /** Outside the condition the orders differ: the standard puts 0 below the identifier -1, the code above it. */
  lemma {:induction false} HyphenDigitsDiffer()
    ensures PrereleaseOrder(Code, Some("0"), Some("-1")) == 1
    ensures PrereleaseOrder(Standard, Some("0"), Some("-1")) == -1
  {
    KeysOfExamples();
    assert Identifiers("0") == ["0"] && Identifiers("-1") == ["-1"];
  }

  lemma {:induction false} KeysOfExamples()
    ensures CodeKey("0") == Numeric(0) && CodeKey("-1") == Numeric(-1)
    ensures StandardKey("0") == Numeric(0) && StandardKey("-1") == Word("-1")
  {
  }

  // ---------- exactly when the orders agree ----------

  lemma {:induction false} OrdinaryOrders(x: Version, y: Version)
    requires OrdinaryVersion(x) && OrdinaryVersion(y)
    ensures Precedence(Code, x, y) == Precedence(Standard, x, y)
  {
    if x.prerelease.Some? { KeysAreStandardIff(Identifiers(x.prerelease.value)); }
    if y.prerelease.Some? { KeysAreStandardIff(Identifiers(y.prerelease.value)); }
  }

  predicate NoDot(s: string) {
    UntilDot(s) == |s|
  }

  lemma {:induction false} FirstHasNoDot(s: string)
    ensures NoDot(s[..UntilDot(s)])
  {
    if s != [] && s[0] != '.' {
      FirstHasNoDot(s[1..]);
      assert s[..UntilDot(s)][1..] == s[1..][..UntilDot(s[1..])];
    }
  }

  lemma {:induction false} DotFollows(id: string, rest: string)
    requires NoDot(id)
    ensures UntilDot(id + ("." + rest)) == |id| && NoDot(id + "-")
  {
    if id != [] {
      DotFollows(id[1..], rest);
      assert (id + ("." + rest))[1..] == id[1..] + ("." + rest) && (id + "-")[1..] == id[1..] + "-";
    }
  }

  lemma {:induction false} DotParts(id: string, rest: string)
    requires NoDot(id)
    ensures var s := id + ("." + rest);
      UntilDot(s) == |id| < |s| && s[..UntilDot(s)] == id && s[UntilDot(s) + 1..] == rest
  {
    DotFollows(id, rest);
  }

  lemma {:induction false} DigitsHaveNoDot(s: string)
    requires AllDigits(s)
    ensures NoDot(s)
  {
    if s != [] { DigitsHaveNoDot(s[1..]); }
  }

  /** A word just above `id`, in both readings. */
  lemma {:induction false} Above(id: string)
    ensures Ordinary(id + "-") && CodeKey(id + "-") == StandardKey(id + "-") == Word(id + "-")
    ensures CompareKeys(CodeKey(id), CodeKey(id + "-")) == -1
  {
    KeyIsStandardIff(id + "-");
    var w := id + "-";
    assert w[|id|] == '-' && !AllDigits(w);
    if |id| > 0 { assert w[1..][|id| - 1] == '-'; }
    LongerIsHigher(id, "-");
  }

  lemma {:induction false} LongerIsHigher(a: string, b: string)
    requires b != []
    ensures CompareWords(a, a + b) == -1
  {
    if a != [] {
      LongerIsHigher(a[1..], b);
      assert (a + b)[1..] == a[1..] + b;
    }
  }

  /** An identifier that is not ordinary compares differently with an ordinary one: the empty one with 1, a hyphen and
      digits with a hyphen, and a number out of range with the greatest in range, where it may also compare equal. */
  lemma {:induction false} Rival(id: string) returns (w: string)
    requires !Ordinary(id)
    ensures Ordinary(w) && NoDot(w)
    ensures CompareKeys(CodeKey(id), CodeKey(w)) <= 0 && CompareKeys(StandardKey(id), StandardKey(w)) == 1
  {
    if id == [] {
      w := "1";
      EmptyRival();
    } else if id[0] == '-' {
      w := "-";
      HyphenRival(id);
    } else {
      w := Natural(INT_MAX);
      DigitsHaveNoDot(w);
      RangeRival(id);
    }
  }

  lemma {:induction false} EmptyRival()
    ensures Ordinary("1") && NoDot("1") && CodeKey("1") == StandardKey("1") == Numeric(1)
    ensures CodeKey("") == Numeric(0) && StandardKey("") == Word("")
  {
    RunIsAll("1");
    KeyIsStandardIff("1");
  }

  lemma {:induction false} HyphenRival(id: string)
    requires id != [] && id[0] == '-' && !Ordinary(id)
    ensures CodeKey(id).Numeric? && CodeKey("-") == StandardKey("-") == Word("-") && StandardKey(id) == Word(id)
    ensures Ordinary("-") && CompareWords(id, "-") == 1
  {
    RunIsAll(id[1..]);
    assert "-"[1..] == [];
    KeyIsStandardIff("-");
    assert id == "-" + id[1..];
    LongerIsHigher("-", id[1..]);
    CharsAreOrdered();
    LexSymmetric(CompareChars, "-", id);
  }

  lemma {:induction false} RangeRival(id: string)
    requires id != [] && id[0] != '-' && !Ordinary(id)
    ensures StandardKey(id).Numeric? && StandardKey(id).n > INT_MAX
    ensures CodeKey(id).Numeric? && CodeKey(id).n <= INT_MAX
    ensures Ordinary(Natural(INT_MAX)) && CodeKey(Natural(INT_MAX)) == StandardKey(Natural(INT_MAX)) == Numeric(INT_MAX)
  {
    RunIsAll(id);
    NaturalIsOrdinary(INT_MAX);
  }

  lemma {:induction false} NaturalIsOrdinary(n: nat)
    requires n <= INT_MAX
    ensures Ordinary(Natural(n)) && CodeKey(Natural(n)) == StandardKey(Natural(n)) == Numeric(n)
  {
    var s := Natural(n);
    assert IsDigit(s[0]);
    KeyIsStandardIff(s);
  }

  /** The rest of a string compared with what differs in both readings. */
  lemma {:induction false} AfterSame(reading: Reading, id: string, x: string, y: string)
    requires NoDot(id)
    ensures Order(reading, id + ("." + x), id + ("." + y)) == Order(reading, x, y)
  {
    DotParts(id, x);
    DotParts(id, y);
    SameKey(KeyOf(reading, id));
    FirstIdentifier(reading, id + ("." + x), id + ("." + y), 0, |id|, |id|, None);
  }

  lemma {:induction false} SameKey(k: Key)
    ensures CompareKeys(k, k) == 0
  {
    KeysAreOrdered();
  }

  lemma {:induction false} IdentifiersUnfold(id: string, rest: string)
    requires NoDot(id)
    ensures Identifiers(id + ("." + rest)) == [id] + Identifiers(rest) && Identifiers(id) == [id]
  {
    DotParts(id, rest);
  }

  lemma {:induction false} OrdinaryCons(id: string, ids: seq<string>)
    ensures AllOrdinary([id] + ids) <==> Ordinary(id) && AllOrdinary(ids)
    ensures AllOrdinary([id]) <==> Ordinary(id)
  {
    assert ([id] + ids)[1..] == ids && [id][1..] == [];
  }

  /** Something above a whole prerelease, in the code's reading. */
  lemma {:induction false} AboveFirst(x: string) returns (y: string)
    ensures NoDot(y) && Ordinary(y) && Order(Code, x, y) == -1
  {
    var id := x[..UntilDot(x)];
    y := id + "-";
    FirstHasNoDot(x);
    DotFollows(id, "");
    Above(id);
    assert y[..UntilDot(y)] == y;
    FirstIdentifier(Code, x, y, -1, UntilDot(x), UntilDot(y), Some(-1));
  }

  /** How the first identifiers decide, or the rest does, against a rival `w` followed by `z`. */
  lemma {:induction false} AgainstRival(reading: Reading, x: string, y: string, w: string, z: string, first: int)
    requires UntilDot(x) < |x| && UntilDot(y) < |y| && y[..UntilDot(y)] == w && y[UntilDot(y) + 1..] == z
    requires first == CompareKeys(KeyOf(reading, x[..UntilDot(x)]), KeyOf(reading, w))
    ensures first != 0 ==> Order(reading, x, y) == first
    ensures first == 0 ==> Order(reading, x, y) == Order(reading, x[UntilDot(x) + 1..], z)
  {
    FirstIdentifier(reading, x, y, first, UntilDot(x), UntilDot(y), Verdict(first, false, false));
  }

  lemma {:induction false} AgainstLastRival(reading: Reading, x: string, w: string)
    requires NoDot(w) && NoDot(x)
    ensures Order(reading, x, w) == CompareKeys(KeyOf(reading, x), KeyOf(reading, w))
  {
    assert x[..|x|] == x && w[..|w|] == w;
    var first := CompareKeys(KeyOf(reading, x), KeyOf(reading, w));
    FirstIdentifier(reading, x, w, first, |x|, |w|, Verdict(first, true, true));
  }

  /** A prerelease whose first identifier is not ordinary: its rival, followed by what is above the rest of the
      prerelease. */
  lemma {:induction false} RivalPrerelease(x: string) returns (y: string)
    requires !Ordinary(x[..UntilDot(x)])
    ensures AllOrdinary(Identifiers(y)) && Order(Code, x, y) != Order(Standard, x, y)
  {
    var n := UntilDot(x);
    var w := Rival(x[..n]);
    if n == |x| {
      assert x[..n] == x;
      y := w;
      OrdinaryAlone(w);
      LastRivalDiffers(x, w);
    } else {
      var z := AboveFirst(x[n + 1..]);
      y := w + ("." + z);
      OrdinaryPair(w, z);
      NextRivalDiffers(x, w, z);
    }
  }

  lemma {:induction false} OrdinaryAlone(w: string)
    requires NoDot(w) && Ordinary(w)
    ensures AllOrdinary(Identifiers(w))
  {
    IdentifiersUnfold(w, "");
    OrdinaryCons(w, []);
  }

  lemma {:induction false} OrdinaryPair(w: string, z: string)
    requires NoDot(w) && Ordinary(w) && NoDot(z) && Ordinary(z)
    ensures AllOrdinary(Identifiers(w + ("." + z)))
  {
    IdentifiersUnfold(w, z);
    OrdinaryAlone(z);
    OrdinaryCons(w, Identifiers(z));
  }

  lemma {:induction false} LastRivalDiffers(x: string, w: string)
    requires NoDot(w) && NoDot(x)
    requires CompareKeys(CodeKey(x), CodeKey(w)) <= 0 && CompareKeys(StandardKey(x), StandardKey(w)) == 1
    ensures Order(Code, x, w) != Order(Standard, x, w)
  {
    AgainstLastRival(Code, x, w);
    AgainstLastRival(Standard, x, w);
  }

  lemma {:induction false} NextRivalDiffers(x: string, w: string, z: string)
    requires NoDot(w) && UntilDot(x) < |x| && Order(Code, x[UntilDot(x) + 1..], z) == -1
    requires CompareKeys(CodeKey(x[..UntilDot(x)]), CodeKey(w)) <= 0
    requires CompareKeys(StandardKey(x[..UntilDot(x)]), StandardKey(w)) == 1
    ensures Order(Code, x, w + ("." + z)) != Order(Standard, x, w + ("." + z))
  {
    DotParts(w, z);
    AgainstRival(Code, x, w + ("." + z), w, z, CompareKeys(CodeKey(x[..UntilDot(x)]), CodeKey(w)));
    AgainstRival(Standard, x, w + ("." + z), w, z, 1);
  }

  lemma {:induction false} SomeOrderDiffers(x: string) returns (y: string)
    requires !AllOrdinary(Identifiers(x))
    ensures AllOrdinary(Identifiers(y)) && Order(Code, x, y) != Order(Standard, x, y)
    decreases |x|
  {
    var n := UntilDot(x);
    var id := x[..n];
    FirstHasNoDot(x);
    if !Ordinary(id) {
      y := RivalPrerelease(x);
    } else {
      IdentifiersUnfold(id, "");
      OrdinaryCons(id, []);
      assert n == |x| ==> id == x;
      var rest := x[n + 1..];
      assert x == id + ("." + rest);
      IdentifiersUnfold(id, rest);
      OrdinaryCons(id, Identifiers(rest));
      var z := SomeOrderDiffers(rest);
      y := id + ("." + z);
      IdentifiersUnfold(id, z);
      OrdinaryCons(id, Identifiers(z));
      AfterSame(Code, id, rest, z);
      AfterSame(Standard, id, rest, z);
    }
  }

  /** A version is ordered as section 11 orders it, against all ordinary versions, exactly when it is ordinary
      itself. */
  lemma {:induction false} PrecedenceIsStandardIff(x: Version)
    ensures OrdinaryVersion(x) <==>
      forall y :: OrdinaryVersion(y) ==> Precedence(Code, x, y) == Precedence(Standard, x, y)
  {
    if OrdinaryVersion(x) {
      forall y | OrdinaryVersion(y) ensures Precedence(Code, x, y) == Precedence(Standard, x, y) {
        OrdinaryOrders(x, y);
      }
    } else {
      var p := SomeOrderDiffers(x.prerelease.value);
      var y := x.(prerelease := Some(p));
      assert OrdinaryVersion(y);
      NumbersInTurn(x, y);
      assert Precedence(Code, x, y) != Precedence(Standard, x, y);
    }
  }

  // ---------- the cursor loop ----------

  /** strtol from a cursor reads no further than the identifier there. */
  lemma {:induction false} StrtolStopsAtDot(s: string)
    ensures Strtol(s).1 <= UntilDot(s)
    ensures Strtol(s) == Strtol(s[..UntilDot(s)])
  {
    var n := UntilDot(s);
    var m := if Negative(s) then n - 1 else n;
    UnsignedPrefix(s, n);
    RunStops(Unsigned(s), m);
    var k := DigitRun(Unsigned(s));
    assert Unsigned(s)[..m][..k] == Unsigned(s)[..k];
  }

  lemma {:induction false} UnsignedPrefix(s: string, n: nat)
    requires n <= |s| && (Negative(s) ==> n > 0)
    ensures Negative(s[..n]) == (Negative(s) && n > 0)
    ensures Unsigned(s[..n]) == Unsigned(s)[..if Negative(s) then n - 1 else n]
  {
  }

  lemma {:induction false} RunStops(s: string, m: nat)
    requires m <= |s| && (m < |s| ==> !IsDigit(s[m]))
    ensures DigitRun(s[..m]) == DigitRun(s) <= m
  {
    if m > 0 && IsDigit(s[0]) {
      RunStops(s[1..], m - 1);
      assert s[..m][1..] == s[1..][..m - 1];
    }
  }

  /** The identifiers after the first. */
  function RestFields(reading: Reading, x: string): seq<Key> {
    var n := UntilDot(x);
    if n == |x| then [] else Fields(reading, x[n + 1..])
  }

  function Order(reading: Reading, x: string, y: string): int {
    Lex(CompareKeys, Fields(reading, x), Fields(reading, y))
  }

  function FirstOrder(reading: Reading, x: string, y: string): int {
    CompareKeys(KeyOf(reading, x[..UntilDot(x)]), KeyOf(reading, y[..UntilDot(y)]))
  }

  /** The first identifiers decide, or the rest does. */
  lemma {:induction false} FirstIdentifier(
    reading: Reading, x: string, y: string, res: int, xn: nat, yn: nat, decided: Option<int>)
    requires xn == UntilDot(x) && yn == UntilDot(y) && res == FirstOrder(reading, x, y)
    requires decided == Verdict(res, xn == |x|, yn == |y|)
    ensures decided.Some? ==> Order(reading, x, y) == decided.value
    ensures decided.None? ==> xn < |x| && yn < |y| && Order(reading, x, y) == Order(reading, x[xn + 1..], y[yn + 1..])
  {
    FieldsUnfold(reading, x);
    FieldsUnfold(reading, y);
    var restx, resty := RestFields(reading, x), RestFields(reading, y);
    LexCons(CompareKeys, KeyOf(reading, x[..xn]), restx, KeyOf(reading, y[..yn]), resty);
    RestIsEmptyIff(reading, x);
    RestIsEmptyIff(reading, y);
    LexOfEmpty(CompareKeys, restx, resty);
  }

  lemma {:induction false} LexOfEmpty<T>(cmp: (T, T) -> int, a: seq<T>, b: seq<T>)
    ensures a == [] && b == [] ==> Lex(cmp, a, b) == 0
    ensures a == [] && b != [] ==> Lex(cmp, a, b) == -1
    ensures a != [] && b == [] ==> Lex(cmp, a, b) == 1
  {
  }

  lemma {:induction false} RestIsEmptyIff(reading: Reading, x: string)
    ensures RestFields(reading, x) == [] <==> UntilDot(x) == |x|
  {
  }

  lemma {:induction false} LexCons<T>(cmp: (T, T) -> int, p: T, a: seq<T>, q: T, b: seq<T>)
    ensures Lex(cmp, [p] + a, [q] + b) == if cmp(p, q) != 0 then cmp(p, q) else Lex(cmp, a, b)
  {
  }

  lemma {:induction false} FieldsUnfold(reading: Reading, x: string)
    ensures Fields(reading, x) == [KeyOf(reading, x[..UntilDot(x)])] + RestFields(reading, x)
  {
    var n := UntilDot(x);
    if n == |x| {
      assert x[..n] == x && Identifiers(x) == [x] + [];
      KeysCons(reading, x, []);
    } else {
      KeysCons(reading, x[..n], Identifiers(x[n + 1..]));
    }
  }

  lemma {:induction false} KeysCons(reading: Reading, id: string, rest: seq<string>)
    ensures Keys(reading, [id] + rest) == [KeyOf(reading, id)] + Keys(reading, rest)
  {
  }

  /** strncmp over the shorter length and then the lengths is the order of words. */
  lemma {:induction false} PrefixThenLength(a: string, b: string)
    ensures var min := if |a| < |b| then |a| else |b|;
      var res := CompareWords(a[..min], b[..min]);
      CompareWords(a, b) == if res != 0 then res else Compare(|a|, |b|)
  {
    if a != [] && b != [] {
      var min := if |a| < |b| then |a| else |b|;
      PrefixThenLength(a[1..], b[1..]);
      assert a[..min][1..] == a[1..][..min - 1] && b[..min][1..] == b[1..][..min - 1];
    }
  }

  /** One round of the loop in compare_prerelease: how the identifiers at the cursors compare, and where they end. */
  method CompareIdentifier(x: string, y: string) returns (res: int, xn: nat, yn: nat)
    ensures xn == UntilDot(x) && yn == UntilDot(y)
    ensures res == FirstOrder(Code, x, y)
  {
    xn, yn := UntilDot(x), UntilDot(y);
    var (xnum, xend) := Strtol(x);
    var (ynum, yend) := Strtol(y);
    StrtolStopsAtDot(x);
    StrtolStopsAtDot(y);
    var xisnum, yisnum := xend == xn, yend == yn;
    if xisnum && !yisnum { return -1, xn, yn; }
    if !xisnum && yisnum { return 1, xn, yn; }
    if xisnum && yisnum {
      res := if xnum != ynum then (if xnum < ynum then -1 else 1) else 0;
    } else {
      var min := if xn < yn then xn else yn;
      PrefixThenLength(x[..xn], y[..yn]);
      assert x[..xn][..min] == x[..min] && y[..yn][..min] == y[..min];
      res := CompareWords(x[..min], y[..min]);
      if res == 0 && xn != yn {
        res := if xn < yn then -1 else 1;
      }
    }
  }

  /** compare_prerelease: two cursors over the raw strings compute the order of the identifier lists. */
  method ComparePrerelease(x: Option<string>, y: Option<string>) returns (r: int)
    ensures r == PrereleaseOrder(Code, x, y)
  {
    if x.None? && y.None? { return 0; }
    if y.None? { return -1; }
    if x.None? { return 1; }
    r := CursorLoop(x.value, y.value);
  }

  /** The loop; a cursor is the rest of its string, and is past the end when the identifier just read was the last. */
  method CursorLoop(x: string, y: string) returns (r: int)
    ensures r == Order(Code, x, y)
  {
    var lastx, lasty := x, y;
    ghost var expected := Order(Code, x, y);
    while true
      invariant expected == Order(Code, lastx, lasty)
      decreases |lastx|
    {
      var decided, xn, yn := CursorTurn(lastx, lasty);
      if decided.Some? { return decided.value; }
      lastx, lasty := lastx[xn + 1..], lasty[yn + 1..];
    }
  }

  /** One turn: an answer, or how far the cursors move. */
  method CursorTurn(x: string, y: string) returns (decided: Option<int>, xn: nat, yn: nat)
    ensures decided.Some? ==> decided.value == Order(Code, x, y)
    ensures decided.None? ==> xn < |x| && yn < |y| && Order(Code, x, y) == Order(Code, x[xn + 1..], y[yn + 1..])
  {
    var res;
    res, xn, yn := CompareIdentifier(x, y);
    decided := Verdict(res, xn == |x|, yn == |y|);
    FirstIdentifier(Code, x, y, res, xn, yn, decided);
  }

  /** What the comparison of two identifiers settles, given whether they were the last. */
  function Verdict(res: int, xdone: bool, ydone: bool): Option<int> {
    if res != 0 then Some(res)
    else if xdone && ydone then Some(0)
    else if xdone then Some(-1)
    else if ydone then Some(1)
    else None
  }

  /** semver_compare. */
  method CompareVersions(x: Version, y: Version) returns (r: int)
    ensures r == Precedence(Code, x, y)
  {
    r := Compare(x.major, y.major);
    if r == 0 {
      r := Compare(x.minor, y.minor);
      if r == 0 {
        r := Compare(x.patch, y.patch);
      }
    }
    NumbersInTurn(x, y);
    if r == 0 {
      r := ComparePrerelease(x.prerelease, y.prerelease);
    }
  }

  lemma {:induction false} NumbersInTurn(x: Version, y: Version)
    ensures Lex(Compare, Numbers(x), Numbers(y)) ==
      if x.major != y.major then Compare(x.major, y.major)
      else if x.minor != y.minor then Compare(x.minor, y.minor)
      else Compare(x.patch, y.patch)
  {
    var a, b := Numbers(x), Numbers(y);
    assert a[1..] == [x.minor, x.patch] && b[1..] == [y.minor, y.patch];
    assert a[1..][1..] == [x.patch] && b[1..][1..] == [y.patch];
    assert Lex(Compare, [x.patch], [y.patch]) == Compare(x.patch, y.patch);
    assert Lex(Compare, a[1..], b[1..]) == if x.minor != y.minor then Compare(x.minor, y.minor)
      else Compare(x.patch, y.patch);
  }
}
