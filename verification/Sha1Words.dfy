/** The 32-bit word operations of SHA-1: once as section 4.1.1 of FIPS 180-4 writes them, once as the macros of
    third-party/src/sha1.c do on a little-endian host. */
module Sha1Words {
  import opened Basics
  import opened Sha1Spec
  import Sha1

  const INITIAL: Words<bv32> := Words(0x67452301, 0xEFCDAB89, 0x98BADCFE, 0x10325476, 0xC3D2E1F0)

  function Rotl1(x: bv32): bv32 {
    (x << 1) | (x >> 31)
  }

  function Rotl5(x: bv32): bv32 {
    (x << 5) | (x >> 27)
  }

  function Rotl30(x: bv32): bv32 {
    (x << 30) | (x >> 2)
  }

  function BigEndian(b0: bv8, b1: bv8, b2: bv8, b3: bv8): bv32 {
    ((b0 as bv32) << 24) | ((b1 as bv32) << 16) | ((b2 as bv32) << 8) | (b3 as bv32)
  }

  function LittleEndian(b0: bv8, b1: bv8, b2: bv8, b3: bv8): bv32 {
    BigEndian(b3, b2, b1, b0)
  }

  /** The macro blk0: a word read in host order with its bytes turned around. */
  function Swapped(x: bv32): bv32 {
    (((x << 24) | (x >> 8)) & 0xFF00FF00) | (((x << 8) | (x >> 24)) & 0x00FF00FF)
  }

  function BytesOf(w: bv32): (byte, byte, byte, byte) {
    (((w >> 24) & 255) as bv8 as byte, ((w >> 16) & 255) as bv8 as byte, ((w >> 8) & 255) as bv8 as byte,
      (w & 255) as bv8 as byte)
  }

  function Ch(x: bv32, y: bv32, z: bv32): bv32 {
    (x & y) ^ (!x & z)
  }

  function Maj(x: bv32, y: bv32, z: bv32): bv32 {
    (x & y) ^ (x & z) ^ (y & z)
  }

  function Constant(t: nat): bv32 {
    if t < 20 then 0x5A827999 else if t < 40 then 0x6ED9EBA1 else if t < 60 then 0x8F1BBCDC else 0xCA62C1D6
  }

  function Parity(x: bv32, y: bv32, z: bv32): bv32 {
    x ^ y ^ z
  }

  function MacroCh(w: bv32, x: bv32, y: bv32): bv32 {
    (w & (x ^ y)) ^ y
  }

  function MacroMaj(w: bv32, x: bv32, y: bv32): bv32 {
    ((w | x) & y) | (w & x)
  }

  function StandardLoad(b0: byte, b1: byte, b2: byte, b3: byte): bv32 {
    BigEndian(b0 as bv8, b1 as bv8, b2 as bv8, b3 as bv8)
  }

  function MacroLoad(b0: byte, b1: byte, b2: byte, b3: byte): bv32 {
    Swapped(LittleEndian(b0 as bv8, b1 as bv8, b2 as bv8, b3 as bv8))
  }

  function Add(x: bv32, y: bv32): bv32 {
    x + y
  }

  function StandardSum(r: bv32, f: bv32, e: bv32, k: bv32, w: bv32): bv32 {
    r + f + e + k + w
  }

  function MacroSum(r: bv32, f: bv32, z: bv32, k: bv32, w: bv32): bv32 {
    z + (f + w + k + r)
  }

  function Expansion(w: bv32, x: bv32, y: bv32, z: bv32): bv32 {
    Rotl1(w ^ x ^ y ^ z)
  }

  const STANDARD: Machine<bv32> :=
    Machine(StandardLoad, BytesOf, Add, Rotl5, Rotl30, Ch, Parity, Maj, Constant, StandardSum, Expansion)

  const MACROS: Machine<bv32> :=
    Machine(MacroLoad, BytesOf, Add, Rotl5, Rotl30, MacroCh, Parity, MacroMaj, Constant, MacroSum, Expansion)

  lemma {:induction false} LoadsAgree()
    ensures forall a, b, c, d :: MACROS.load(a, b, c, d) == STANDARD.load(a, b, c, d)
  {
  }

  lemma {:induction false} ChoicesAgree()
    ensures forall x, y, z :: MACROS.ch(x, y, z) == STANDARD.ch(x, y, z)
  {
  }

  lemma {:induction false} MajoritiesAgree()
    ensures forall x, y, z :: MACROS.maj(x, y, z) == STANDARD.maj(x, y, z)
  {
  }

  lemma {:induction false} SumsAgree()
    ensures forall r, f, z, k, w :: MACROS.sum(r, f, z, k, w) == STANDARD.sum(r, f, z, k, w)
  {
  }

  /** The macros compute the functions of the standard. */
  lemma {:induction false} MacrosImplementStandard()
    ensures Sha1.Implements(MACROS, STANDARD)
  {
    LoadsAgree();
    ChoicesAgree();
    MajoritiesAgree();
    SumsAgree();
  }

  // ---------- the constants and rotations of the standard ----------

  /** Section 3.2: circular left shifts. */
  lemma {:induction false} RotationsRotate(x: bv32)
    ensures Rotl1(x) == x.RotateLeft(1) && Rotl5(x) == x.RotateLeft(5) && Rotl30(x) == x.RotateLeft(30)
  {
  }

  /** Section 4.1.1: Parity is set where an odd number of arguments is, so two of them and the result give the third. */
  lemma {:induction false} ParityGivesTheThird(x: bv32, y: bv32, z: bv32)
    ensures Parity(x, y, z) ^ x ^ y == z
  {
  }

  /** Section 3.2, addition modulo 2^32: zero adds nothing, a word and its complement add to all ones, one more
      wraps to zero, and doubling shifts. */
  lemma {:induction false} AdditionWraps(x: bv32)
    ensures Add(x, 0) == x && Add(x, !x) == 0xFFFF_FFFF && Add(Add(x, !x), 1) == 0 && Add(x, x) == x << 1
  {
  }

  /** Section 6.1.2: rotated back, an expanded word is the exclusive or of four. */
  lemma {:induction false} ExpansionIsRotated(w: bv32, x: bv32, y: bv32, z: bv32)
    ensures Expansion(w, x, y, z).RotateRight(1) ^ w ^ x ^ y == z
  {
    var all := w ^ x ^ y ^ z;
    assert Rotl1(all).RotateRight(1) == all;
  }

  /** Unloading a word and loading it again gives the word. */
  lemma {:induction false} LoadsWhatItUnloads(w: bv32)
    ensures var (b0, b1, b2, b3) := BytesOf(w); StandardLoad(b0, b1, b2, b3) == w
  {
    var b0, b1, b2, b3 := ((w >> 24) & 255) as bv8, ((w >> 16) & 255) as bv8, ((w >> 8) & 255) as bv8, (w & 255) as bv8;
    assert BigEndian(b0, b1, b2, b3) == w;
  }

  function LoadWord(s: seq<byte>): bv32
    requires |s| == 4
  {
    StandardLoad(s[0], s[1], s[2], s[3])
  }

  lemma {:induction false} WordIsLoaded(w: bv32)
    ensures |WordBytes(STANDARD, w)| == 4 && LoadWord(WordBytes(STANDARD, w)) == w
  {
    assert STANDARD.unload(w) == BytesOf(w);
    LoadsWhatItUnloads(w);
  }

  lemma {:induction false} FiveInARow<T>(a: seq<T>, b: seq<T>, c: seq<T>, d: seq<T>, e: seq<T>)
    requires |a| == |b| == |c| == |d| == |e| == 4
    ensures var s := a + b + c + d + e;
      |s| == 20 && s[..4] == a && s[4..8] == b && s[8..12] == c && s[12..16] == d && s[16..] == e
  {
  }

  /** Section 6.1.2: the digest holds the five words, each with its most significant byte first. */
  lemma {:induction false} DigestHoldsWords(h: Words<bv32>)
    ensures var d := DigestOf(STANDARD, h);
      && |d| == 20 && LoadWord(d[..4]) == h.a && LoadWord(d[4..8]) == h.b && LoadWord(d[8..12]) == h.c
      && LoadWord(d[12..16]) == h.d && LoadWord(d[16..]) == h.e
  {
    WordIsLoaded(h.a);
    WordIsLoaded(h.b);
    WordIsLoaded(h.c);
    WordIsLoaded(h.d);
    WordIsLoaded(h.e);
    FiveInARow(WordBytes(STANDARD, h.a), WordBytes(STANDARD, h.b), WordBytes(STANDARD, h.c),
      WordBytes(STANDARD, h.d), WordBytes(STANDARD, h.e));
  }

  /** The largest number whose square is at most `n` times 2^60. */
  predicate ScaledRoot(k: nat, n: nat) {
    k * k <= n * 0x1000_0000_0000_0000 < (k + 1) * (k + 1)
  }

  /** Section 4.2.1: the round constants are the square roots of 2, 3, 5 and 10, scaled by 2^30. */
  lemma {:induction false} ConstantsAreRoots(t: nat)
    requires t < 80
    ensures ScaledRoot(Constant(t) as nat, if t < 20 then 2 else if t < 40 then 3 else if t < 60 then 5 else 10)
  {
    assert 0x5A827999 as bv32 as nat == 0x5A827999 && 0x6ED9EBA1 as bv32 as nat == 0x6ED9EBA1;
    assert 0x8F1BBCDC as bv32 as nat == 0x8F1BBCDC && 0xCA62C1D6 as bv32 as nat == 0xCA62C1D6;
  }

  /** Section 5.3.1: read from their lowest byte, the first four initial words count the hexadecimal digits up and
      down, and the fifth interleaves both. */
  lemma {:induction false} InitialWordsCount()
    ensures BytesOf(INITIAL.a) == (0x67, 0x45, 0x23, 0x01) && BytesOf(INITIAL.b) == (0xEF, 0xCD, 0xAB, 0x89)
    ensures BytesOf(INITIAL.c) == (0x98, 0xBA, 0xDC, 0xFE) && BytesOf(INITIAL.d) == (0x10, 0x32, 0x54, 0x76)
    ensures BytesOf(INITIAL.e) == (0xC3, 0xD2, 0xE1, 0xF0)
  {
  }
}
