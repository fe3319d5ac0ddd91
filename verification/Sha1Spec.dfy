/** SHA-1 as FIPS 180-4 defines it: section 4.1.1 (functions), 5.1.1 (padding), 6.1.2 (block computation). The word
    operations are collected in a record, so that the structure of the algorithm is stated once for any machine word;
    module Sha1Words gives the 32-bit operations. */
module Sha1Spec {
  import opened Basics

  type Block = s: seq<byte> | |s| == 64 witness seq(64, i => 0)

  datatype Machine<!Word> = Machine(
    load: (byte, byte, byte, byte) -> Word,         // big-endian word
    unload: Word -> (byte, byte, byte, byte),
    add: (Word, Word) -> Word,
    rotl5: Word -> Word,
    rotl30: Word -> Word,
    ch: (Word, Word, Word) -> Word,
    parity: (Word, Word, Word) -> Word,
    maj: (Word, Word, Word) -> Word,
    k: nat -> Word,
    sum: (Word, Word, Word, Word, Word) -> Word,     // of five words
    expand: (Word, Word, Word, Word) -> Word)        // xor of four words, rotated by one

  datatype Words<Word> = Words(a: Word, b: Word, c: Word, d: Word, e: Word)

  /** The big-endian word at place `t` of a block. */
  function WordAt<Word>(m: Machine<Word>, block: Block, t: nat): Word
    requires t < 16
  {
    m.load(block[4 * t], block[4 * t + 1], block[4 * t + 2], block[4 * t + 3])
  }

  /** The message schedule. */
  function W<Word>(m: Machine<Word>, block: Block, t: nat): Word {
    if t < 16 then WordAt(m, block, t)
    else m.expand(W(m, block, t - 3), W(m, block, t - 8), W(m, block, t - 14), W(m, block, t - 16))
  }

  /** The function of round `t`. */
  function F<Word>(m: Machine<Word>, t: nat, x: Word, y: Word, z: Word): Word {
    if t < 20 then m.ch(x, y, z) else if t < 40 then m.parity(x, y, z) else if t < 60 then m.maj(x, y, z)
      else m.parity(x, y, z)
  }

  function Round<Word>(m: Machine<Word>, h: Words<Word>, t: nat, word: Word): Words<Word> {
    Words(m.sum(m.rotl5(h.a), F(m, t, h.b, h.c, h.d), h.e, m.k(t), word), h.a, m.rotl30(h.b), h.c, h.d)
  }

  function Rounds<Word>(m: Machine<Word>, h: Words<Word>, block: Block, n: nat): Words<Word> {
    if n == 0 then h else Round(m, Rounds(m, h, block, n - 1), n - 1, W(m, block, n - 1))
  }

  function Compress<Word>(m: Machine<Word>, h: Words<Word>, block: Block): Words<Word> {
    var r := Rounds(m, h, block, 80);
    Words(m.add(h.a, r.a), m.add(h.b, r.b), m.add(h.c, r.c), m.add(h.d, r.d), m.add(h.e, r.e))
  }

  /** Block `i` of a message. */
  function BlockAt(msg: seq<byte>, i: nat): Block
    requires 64 * i + 64 <= |msg|
  {
    msg[64 * i..64 * i + 64]
  }

  /** The first `n` blocks of a message, first to last. */
  function HashBlocks<Word>(m: Machine<Word>, h: Words<Word>, msg: seq<byte>, n: nat): Words<Word>
    requires 64 * n <= |msg|
  {
    if n == 0 then h else Compress(m, HashBlocks(m, h, msg, n - 1), BlockAt(msg, n - 1))
  }

  function Zeros(n: nat): seq<byte> {
    if n == 0 then [] else Zeros(n - 1) + [0]
  }

  /** The byte of `x` below which `shift` lower bytes lie. */
  function ByteOf(x: nat, shift: nat): byte
    decreases shift
  {
    if shift == 0 then x % 256 else ByteOf(x / 256, shift - 1)
  }

  /** The low 64 bits of the length, most significant byte first. */
  function Length64(bits: nat): seq<byte> {
    [ByteOf(bits, 7), ByteOf(bits, 6), ByteOf(bits, 5), ByteOf(bits, 4),
     ByteOf(bits, 3), ByteOf(bits, 2), ByteOf(bits, 1), ByteOf(bits, 0)]
  }

  /** How many zero bytes bring a message and its 0x80 to 56 modulo 64. */
  function ZerosNeeded(length: nat): nat {
    (119 - length % 64) % 64
  }

  function Padded(msg: seq<byte>): (r: seq<byte>)
    ensures |r| % 64 == 0
  {
    PaddingFits(|msg|);
    msg + ([128] + Zeros(ZerosNeeded(|msg|)) + Length64(8 * |msg|))
  }

  lemma {:induction false} PaddingFits(n: nat)
    ensures |Zeros(ZerosNeeded(n))| == ZerosNeeded(n)
    ensures (n + 1 + ZerosNeeded(n) + 8) % 64 == 0
  {
    ZerosLength(ZerosNeeded(n));
    var q, r := n / 64, n % 64;
    assert n == 64 * q + r;
    if r <= 55 {
      assert ZerosNeeded(n) == 55 - r;
    } else {
      assert ZerosNeeded(n) == 119 - r;
    }
  }

  lemma {:induction false} ZerosLength(n: nat)
    ensures |Zeros(n)| == n
  {
    if n > 0 { ZerosLength(n - 1); }
  }

  function WordBytes<Word>(m: Machine<Word>, w: Word): seq<byte> {
    var (b0, b1, b2, b3) := m.unload(w);
    [b0, b1, b2, b3]
  }

  function DigestOf<Word>(m: Machine<Word>, h: Words<Word>): seq<byte> {
    WordBytes(m, h.a) + WordBytes(m, h.b) + WordBytes(m, h.c) + WordBytes(m, h.d) + WordBytes(m, h.e)
  }

  function Sha1<Word>(m: Machine<Word>, initial: Words<Word>, msg: seq<byte>): seq<byte> {
    DigestOf(m, HashBlocks(m, initial, Padded(msg), |Padded(msg)| / 64))
  }
}
