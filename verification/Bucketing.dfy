/** The rollout bucket of a user: SHA-1 of the user's attribute, its first 15 hexadecimal digits, scaled to [0, 1]
    (src/evaluate.c, third-party/src/hexify.c). Floating point is exact here. */
module Bucketing {
  import opened Basics
  import opened JsonValue
  import opened Sha1Spec
  import Sha1Words
  import Sha1Context
  import Decimal

  // ---------- hexadecimal ----------

  predicate IsHex(c: char) {
    '0' <= c <= '9' || 'a' <= c <= 'f'
  }

  predicate AllHex(s: string) {
    forall i :: 0 <= i < |s| ==> IsHex(s[i])
  }

  /** The number a hexadecimal numeral denotes. */
  function HexValue(s: string): nat
    requires AllHex(s)
  {
    if s == [] then 0 else 16 * HexValue(s[..|s| - 1]) + HexDigit(s[|s| - 1]).value
  }

  /** The number that bytes denote, most significant first. */
  function BigEndian(bytes: seq<byte>): nat {
    if bytes == [] then 0 else 256 * BigEndian(bytes[..|bytes| - 1]) + bytes[|bytes| - 1]
  }

  function HexOf(bytes: seq<byte>): (s: string)
    ensures |s| == 2 * |bytes|
  {
    if bytes == [] then []
    else
      var last := bytes[|bytes| - 1];
      HexOf(bytes[..|bytes| - 1]) + [HEX[last / 16], HEX[last % 16]]
  }

  /** Two digits a byte: the numeral denotes what the bytes do. */
  lemma {:induction false} HexDenotes(bytes: seq<byte>)
    ensures AllHex(HexOf(bytes)) && HexValue(HexOf(bytes)) == BigEndian(bytes)
  {
    if bytes != [] {
      var init, last := bytes[..|bytes| - 1], bytes[|bytes| - 1];
      HexDenotes(init);
      ByteDenotes(HexOf(init), last);
    }
  }

  lemma {:induction false} ByteDenotes(s: string, b: byte)
    requires AllHex(s)
    ensures var t := s + [HEX[b / 16], HEX[b % 16]]; AllHex(t) && HexValue(t) == 256 * HexValue(s) + b
  {
    var high, low := HEX[b / 16], HEX[b % 16];
    HexDigitOfMap(b / 16);
    HexDigitOfMap(b % 16);
    assert IsHex(high) && IsHex(low);
    HexSnoc(s, high);
    HexSnoc(s + [high], low);
    assert (s + [high]) + [low] == s + [high, low];
  }

  lemma {:induction false} HexSnoc(s: string, c: char)
    requires AllHex(s) && IsHex(c)
    ensures AllHex(s + [c]) && HexValue(s + [c]) == 16 * HexValue(s) + HexDigit(c).value
  {
  }

  /** Dropping the last digit divides by sixteen. */
  lemma {:induction false} HexDropLast(s: string)
    requires s != [] && AllHex(s)
    ensures HexValue(s[..|s| - 1]) == HexValue(s) / 16
  {
  }

  lemma {:induction false} HexBound(s: string)
    requires AllHex(s)
    ensures HexValue(s) < Power16(|s|)
  {
    if s != [] {
      HexBound(s[..|s| - 1]);
    }
  }

  function Power16(n: nat): nat {
    if n == 0 then 1 else 16 * Power16(n - 1)
  }

  /** hexify: as many whole bytes as fit before the terminator. */
  method Hexify(data: seq<byte>, out: array<char>) returns (written: nat)
    modifies out
    ensures data == [] || out.Length == 0 ==> written == 0 && out[..] == old(out[..])
    ensures data != [] && out.Length > 0 ==>
      && written == 2 * (if 2 * |data| < out.Length then |data| else (out.Length - 1) / 2)
      && out[..] == HexOf(data[..written / 2]) + ['\0'] + old(out[written + 1..])
  {
    if data == [] || out.Length == 0 {
      return 0;
    }
    written := HexifySome(data, out);
  }

  method HexifySome(data: seq<byte>, out: array<char>) returns (written: nat)
    requires out.Length > 0
    modifies out
    ensures written == 2 * (if 2 * |data| < out.Length then |data| else (out.Length - 1) / 2)
    ensures out[..] == HexOf(data[..written / 2]) + ['\0'] + old(out[written + 1..])
  {
    var i := Nibbles(data, out);
    written := 2 * i;
    ghost var memory := out[..];
    out[written] := '\0';
    TerminatorSet(memory, out[..], HexOf(data[..i]), old(out[written + 1..]));
  }

  lemma {:induction false} TerminatorSet(was: string, memory: string, s: string, rest: string)
    requires |s| < |was| && was[..|s|] == s && was[|s| + 1..] == rest && memory == was[|s| := '\0']
    ensures memory == s + ['\0'] + rest
  {
  }

  /** The loop of hexify. */
  method Nibbles(data: seq<byte>, out: array<char>) returns (i: nat)
    requires out.Length > 0
    modifies out
    ensures i == if 2 * |data| < out.Length then |data| else (out.Length - 1) / 2
    ensures out[..2 * i] == HexOf(data[..i]) && out[2 * i..] == old(out[2 * i..])
    ensures out[2 * i + 1..] == old(out[2 * i + 1..])
  {
    i := 0;
    while i < |data| && 2 * i + 3 <= out.Length
      invariant i <= |data| && 2 * i < out.Length
      invariant out[..2 * i] == HexOf(data[..i])
      invariant forall k :: 2 * i <= k < out.Length ==> out[k] == old(out[k])
    {
      HexOneMore(data, i);
      out[2 * i], out[2 * i + 1] := HEX[data[i] / 16], HEX[data[i] % 16];
      assert out[..2 * i + 2] == out[..2 * i] + [HEX[data[i] / 16], HEX[data[i] % 16]];
      i := i + 1;
    }
  }

  lemma {:induction false} HexOneMore(data: seq<byte>, i: nat)
    requires i < |data|
    ensures HexOf(data[..i + 1]) == HexOf(data[..i]) + [HEX[data[i] / 16], HEX[data[i] % 16]]
  {
    assert data[..i + 1][..i] == data[..i];
  }

  /** LDi_hexToDecimal: the numeral's value, or zero when a character is not a lower-case hexadecimal digit. */
  method HexToDecimal(input: array<char>) returns (acc: real)
    requires exists k :: 0 <= k < input.Length && input[k] == '\0'
    ensures var s := CString(input[..], '\0'); acc == if AllHex(s) then HexValue(s) as real else 0.0
  {
    ghost var s := CString(input[..], '\0');
    CStringIsPrefix(input[..], '\0');
    acc := 0.0;
    var i := 0;
    assert |s| < input.Length;
    while input[i] != '\0'
      invariant i <= |s| && AllHex(s[..i]) && acc == HexValue(s[..i]) as real
      decreases |s| - i
    {
      assert input[i] == s[i];
      var offset: int;
      if '0' <= input[i] <= '9' {
        offset := (input[i] - '0') as int;
      } else if 'a' <= input[i] <= 'f' {
        offset := input[i] as int - 87;
      } else {
        return 0.0;
      }
      HexSnoc(s[..i], input[i]);
      assert s[..i + 1] == s[..i] + [input[i]];
      acc := acc * 16.0 + offset as real;
      i := i + 1;
    }
    assert s[..i] == s;
  }

  // ---------- the bucket ----------

  const LONG_SCALE := 1152921504606846975.0

  /** The bucket of a digest: its first sixty bits over the largest sixty-bit number. */
  function BucketOf(digest: seq<byte>): (r: real)
    requires |digest| >= 8
  {
    (BigEndian(digest[..8]) / 16) as real / LONG_SCALE
  }

  lemma {:induction false} BucketInUnitInterval(digest: seq<byte>)
    requires |digest| >= 8
    ensures 0.0 <= BucketOf(digest) <= 1.0
  {
    var s := HexOf(digest[..8]);
    HexDenotes(digest[..8]);
    HexDropLast(s);
    HexBound(s[..15]);
    SixteenToThe15();
    DividingKeepsOrder(HexValue(s[..15]), LONG_SCALE);
  }

  /** The bucket is the fraction of 16^15 - 1 that the first fifteen hexadecimal digits denote. */
  lemma {:induction false} BucketIsFraction(digest: seq<byte>)
    requires |digest| >= 8
    ensures AllHex(HexOf(digest[..8])[..15])
    ensures BucketOf(digest) * (Power16(15) - 1) as real == HexValue(HexOf(digest[..8])[..15]) as real
  {
    HexDenotes(digest[..8]);
    HexDropLast(HexOf(digest[..8]));
    SixteenToThe15();
  }

  lemma {:induction false} SixteenToThe15()
    ensures Power16(15) == 1152921504606846976
  {
    assert Power16(5) == 1048576;
    assert Power16(10) == 1099511627776;
  }

  lemma {:induction false} DividingKeepsOrder(n: nat, d: real)
    requires d > 0.0 && n as real <= d
    ensures 0.0 <= n as real / d <= 1.0
  {
  }

  /** The text a bucket attribute contributes; `percentF` is printf's %f, cut to a 256-byte buffer. */
  function Bucketable(value: Json, percentF: real -> string): Option<string> {
    match value
    case Text(s) => Some(s)
    case Number(n) => Some(Fit(percentF(n)))
    case _ => None
  }

  function Fit(s: string): string {
    if |s| < 256 then s else s[..255]
  }

  /** What is hashed. */
  function Raw(key: string, salt: string, seed: Option<int>, bucketable: string, secondary: Option<string>): string {
    var suffix := if secondary.Some? then "." + secondary.value else "";
    match seed
    case Some(n) => Decimal.Signed(n) + "." + bucketable + suffix
    case None => key + "." + salt + "." + bucketable + suffix
  }

  /** The four texts that may be hashed. A seed replaces flag key and salt, so these no longer matter. */
  lemma {:induction false} HashedText(key: string, salt: string, n: int, bucketable: string, secondary: string)
    ensures Raw(key, salt, None, bucketable, None) == key + "." + salt + "." + bucketable
    ensures Raw(key, salt, None, bucketable, Some(secondary)) == key + "." + salt + "." + bucketable + "." + secondary
    ensures Raw(key, salt, Some(n), bucketable, None) == Decimal.Signed(n) + "." + bucketable
    ensures Raw(key, salt, Some(n), bucketable, Some(secondary))
      == Decimal.Signed(n) + "." + bucketable + "." + secondary
  {
    var plain, seeded := key + "." + salt + "." + bucketable, Decimal.Signed(n) + "." + bucketable;
    EmptyEnds(plain);
    EmptyEnds(seeded);
    Regroup(plain, ".", secondary);
    Regroup(seeded, ".", secondary);
  }

  /** Text is hashed as it is, numbers as %f prints them in its buffer, and nothing else is hashed. */
  lemma {:induction false} WhatIsBucketable(value: Json, percentF: real -> string)
    ensures value.Text? ==> Bucketable(value, percentF) == Some(value.s)
    ensures value.Number? && |percentF(value.n)| < 256 ==> Bucketable(value, percentF) == Some(percentF(value.n))
    ensures value.Number? && |percentF(value.n)| >= 256 ==>
      Bucketable(value, percentF) == Some(percentF(value.n)[..255])
    ensures Bucketable(value, percentF).Some? <==> value.Text? || value.Number?
  {
  }

  /** A character is a byte. */
  function Bytes(s: string): seq<byte> {
    seq(|s|, i requires 0 <= i < |s| => s[i] as int % 256)
  }

  lemma {:induction false} BytesAreCharacters(s: string)
    requires forall i :: 0 <= i < |s| ==> s[i] as int < 256
    ensures |Bytes(s)| == |s| && forall i :: 0 <= i < |s| ==> Bytes(s)[i] == s[i] as int
  {
  }

  function Digest(raw: string): (d: seq<byte>)
    ensures |d| == 20
  {
    Sha1(Sha1Words.STANDARD, Sha1Words.INITIAL, Bytes(raw))
  }

  /** The last part of LDi_bucketUser: hash, encode, cut to fifteen digits, scale. */
  method HashBucket(raw: string) returns (bucket: real)
    ensures bucket == BucketOf(Digest(raw)) && 0.0 <= bucket <= 1.0
  {
    Sha1Words.MacrosImplementStandard();
    var digest := Sha1Context.OneShot(Sha1Words.MACROS, Sha1Words.INITIAL, 0, Bytes(raw), Sha1Words.STANDARD);
    bucket := ScaledPrefix(digest);
    BucketInUnitInterval(Digest(raw));
  }

  method ScaledPrefix(digest: seq<byte>) returns (bucket: real)
    requires |digest| == 20
    ensures bucket == BucketOf(digest)
  {
    var encoded := EncodePrefix(digest);
    HexDenotes(digest[..8]);
    HexDropLast(HexOf(digest[..8]));
    var n := HexToDecimal(encoded);
    bucket := n / LONG_SCALE;
  }

  /** The first fifteen digits, as a C string. */
  method EncodePrefix(digest: seq<byte>) returns (encoded: array<char>)
    requires |digest| == 20
    ensures fresh(encoded) && encoded.Length == 17 && encoded[15] == '\0'
    ensures AllHex(HexOf(digest[..8])) && CString(encoded[..], '\0') == HexOf(digest[..8])[..15]
  {
    encoded := new char[17];
    var status := Hexify(digest, encoded);
    ghost var s, memory := HexOf(digest[..8]), encoded[..];
    assert status == 16 && memory[..15] == s[..15];
    HexDenotes(digest[..8]);
    encoded[15] := '\0';
    Shortened(memory, encoded[..], s);
  }

  lemma {:induction false} Shortened(was: string, memory: string, s: string)
    requires |was| == 17 && |s| == 16 && AllHex(s) && was[..15] == s[..15] && memory == was[15 := '\0']
    ensures CString(memory, '\0') == s[..15]
  {
    CStringStops(memory, 15, '\0');
    assert memory[..15] == s[..15];
    CStringWhole(s[..15], '\0');
  }

  /** The text to hash exists and fits its buffer. */
  predicate Usable(attribute: Option<Json>, key: string, salt: string, seed: Option<int>, secondary: Option<string>,
                   percentF: real -> string) {
    && attribute.Some? && Bucketable(attribute.value, percentF).Some?
    && |Raw(key, salt, seed, Bucketable(attribute.value, percentF).value, secondary)| < 256
  }

  /** The bucket of a user by the value of an attribute; zero when it cannot be hashed. */
  function Bucket(attribute: Option<Json>, key: string, salt: string, seed: Option<int>, secondary: Option<string>,
                  percentF: real -> string): real {
    if Usable(attribute, key, salt, seed, secondary, percentF)
    then BucketOf(Digest(Raw(key, salt, seed, Bucketable(attribute.value, percentF).value, secondary)))
    else 0.0
  }

  lemma {:induction false} BucketIsBounded(attribute: Option<Json>, key: string, salt: string, seed: Option<int>,
                                           secondary: Option<string>, percentF: real -> string)
    ensures 0.0 <= Bucket(attribute, key, salt, seed, secondary, percentF) <= 1.0
  {
    if Usable(attribute, key, salt, seed, secondary, percentF) {
      BucketInUnitInterval(Digest(Raw(key, salt, seed, Bucketable(attribute.value, percentF).value, secondary)));
    }
  }

  /** LDi_bucketUser; `attribute` is the user's value for the attribute to bucket by. */
  method BucketUser(attribute: Option<Json>, key: string, salt: string, seed: Option<int>, secondary: Option<string>,
                    percentF: real -> string) returns (ok: bool, bucket: real)
    ensures ok == Usable(attribute, key, salt, seed, secondary, percentF)
    ensures bucket == Bucket(attribute, key, salt, seed, secondary, percentF) && 0.0 <= bucket <= 1.0
  {
    if attribute.None? || Bucketable(attribute.value, percentF).None? {
      return false, 0.0;
    }
    var raw := Raw(key, salt, seed, Bucketable(attribute.value, percentF).value, secondary);
    if |raw| >= 256 {
      return false, 0.0;
    }
    bucket := HashBucket(raw);
    ok := true;
  }
}
