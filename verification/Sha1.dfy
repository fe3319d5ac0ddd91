/** The SHA-1 code of third-party/src/sha1.c against FIPS 180-4: an in-place 16-word schedule, a two-word bit counter, a
    64-byte buffer, and padding fed through the update routine itself. `code` holds the word operations as the macros
    write them, `m` as the standard does; they must agree, which module Sha1Words proves for 32-bit words. */
module Sha1 {
  import opened Basics
  import opened Sha1Spec

  /** The macros compute the standard's functions. */
  ghost predicate Implements<Word(!new)>(code: Machine<Word>, m: Machine<Word>) {
    && (forall a, b, c, d :: code.load(a, b, c, d) == m.load(a, b, c, d))
    && (forall w :: code.unload(w) == m.unload(w))
    && (forall x, y :: code.add(x, y) == m.add(x, y))
    && (forall x :: code.rotl5(x) == m.rotl5(x))
    && (forall x :: code.rotl30(x) == m.rotl30(x))
    && (forall x, y, z :: code.ch(x, y, z) == m.ch(x, y, z))
    && (forall x, y, z :: code.parity(x, y, z) == m.parity(x, y, z))
    && (forall x, y, z :: code.maj(x, y, z) == m.maj(x, y, z))
    && (forall t :: code.k(t) == m.k(t))
    && (forall r, f, z, k, w :: code.sum(r, f, z, k, w) == m.sum(r, f, z, k, w))
    && (forall w, x, y, z :: code.expand(w, x, y, z) == m.expand(w, x, y, z))
  }

  function WordsOf<Word>(state: array<Word>): Words<Word>
    requires state.Length == 5
    reads state
  {
    Words(state[0], state[1], state[2], state[3], state[4])
  }

  /** The sixteen schedule words in play at round `t`, each at its place modulo 16. */
  ghost predicate Window<Word>(m: Machine<Word>, l: seq<Word>, block: Block, t: nat) {
    && |l| == 16
    && var low := if t < 16 then 0 else t - 16;
       forall u :: low <= u < low + 16 ==> l[u % 16] == W(m, block, u)
  }

  lemma {:induction false} PlacesModulo16(t: nat)
    requires t >= 16
    ensures (t + 13) % 16 == (t - 3) % 16 && (t + 8) % 16 == (t - 8) % 16
    ensures (t + 2) % 16 == (t - 14) % 16 && t % 16 == (t - 16) % 16
  {
  }

  lemma {:induction false} FirstWords<Word>(m: Machine<Word>, l: seq<Word>, block: Block, t: nat)
    requires t < 16 && Window(m, l, block, t)
    ensures l[t % 16] == W(m, block, t) && Window(m, l, block, t + 1)
  {
  }

  lemma {:induction false} NextWord<Word>(m: Machine<Word>, l: seq<Word>, block: Block, t: nat)
    requires t >= 16 && Window(m, l, block, t)
    ensures m.expand(l[(t + 13) % 16], l[(t + 8) % 16], l[(t + 2) % 16], l[t % 16]) == W(m, block, t)
  {
    PlacesModulo16(t);
    assert l[(t - 3) % 16] == W(m, block, t - 3) && l[(t - 8) % 16] == W(m, block, t - 8);
    assert l[(t - 14) % 16] == W(m, block, t - 14) && l[(t - 16) % 16] == W(m, block, t - 16);
  }

  lemma {:induction false} WindowSlides<Word>(m: Machine<Word>, l: seq<Word>, block: Block, t: nat)
    requires t >= 16 && Window(m, l, block, t)
    ensures Window(m, l[t % 16 := W(m, block, t)], block, t + 1)
  {
  }

  /** The macros blk0 and blk: word `t` of the schedule, replacing word `t - 16`. */
  method Expand<Word(!new)>(
    code: Machine<Word>, l: array<Word>, t: nat, ghost m: Machine<Word>, ghost block: Block) returns (word: Word)
    requires Implements(code, m) && l.Length == 16 && Window(m, l[..], block, t)
    modifies l
    ensures word == W(m, block, t) && Window(m, l[..], block, t + 1)
  {
    if t < 16 {
      FirstWords(m, l[..], block, t);
    } else {
      NextWord(m, l[..], block, t);
      WindowSlides(m, l[..], block, t);
      l[t % 16] := code.expand(l[(t + 13) % 16], l[(t + 8) % 16], l[(t + 2) % 16], l[t % 16]);
      assert l[..] == old(l[..])[t % 16 := W(m, block, t)];
    }
    word := l[t % 16];
  }

  lemma {:induction false} FreshWindow<Word(!new)>(code: Machine<Word>, m: Machine<Word>, l: seq<Word>, block: Block)
    requires Implements(code, m) && |l| == 16 && forall i :: 0 <= i < 16 ==> l[i] == WordAt(code, block, i)
    ensures Window(m, l, block, 0)
  {
  }

  /** One round macro R0 to R4; its arguments rotate one place for the next. */
  method MacroRound<Word(!new)>(
    code: Machine<Word>, h: Words<Word>, t: nat, word: Word, ghost m: Machine<Word>) returns (h': Words<Word>)
    requires Implements(code, m)
    ensures h' == Round(m, h, t, word)
  {
    var Words(v, w, x, y, z) := h;
    z := code.sum(code.rotl5(v), F(code, t, w, x, y), z, code.k(t), word);
    w := code.rotl30(w);
    h' := Words(z, v, w, x, y);
  }

  /** SHA1Transform: 80 rounds with the schedule expanded in place. */
  method Transform<Word(!new)>(code: Machine<Word>, state: array<Word>, block: Block, ghost m: Machine<Word>)
    requires Implements(code, m) && state.Length == 5
    modifies state
    ensures WordsOf(state) == Compress(m, old(WordsOf(state)), block)
  {
    var l := new Word[16](i requires 0 <= i < 16 => WordAt(code, block, i));
    FreshWindow(code, m, l[..], block);
    var start := WordsOf(state);
    var h := start;
    var t := 0;
    while t < 80
      invariant t <= 80 && Window(m, l[..], block, t)
      invariant h == Rounds(m, start, block, t)
      invariant WordsOf(state) == start
    {
      var word := Expand(code, l, t, m, block);
      h := MacroRound(code, h, t, word, m);
      t := t + 1;
    }
    AddInto(code, state, h, m);
  }

  /** The working words are added back into the context. */
  method AddInto<Word(!new)>(code: Machine<Word>, state: array<Word>, h: Words<Word>, ghost m: Machine<Word>)
    requires Implements(code, m) && state.Length == 5
    modifies state
    ensures WordsOf(state) == Words(m.add(old(state[0]), h.a), m.add(old(state[1]), h.b), m.add(old(state[2]), h.c),
                                    m.add(old(state[3]), h.d), m.add(old(state[4]), h.e))
  {
    state[0], state[1], state[2] := code.add(state[0], h.a), code.add(state[1], h.b), code.add(state[2], h.c);
    state[3], state[4] := code.add(state[3], h.d), code.add(state[4], h.e);
  }

  // ---------- the bit counter ----------

  const WORD := 0x1_0000_0000

  /** The two counter words hold the bit length of `bytes` bytes, after `wraps` overflows. */
  ghost predicate CountsBits(low: nat, high: nat, wraps: nat, bytes: nat) {
    low < WORD && high < WORD && 8 * bytes == low + 0x1_0000_0000 * high + 0x1_0000_0000_0000_0000 * wraps
  }

  /** That is, the bit length modulo 2^64. */
  lemma {:induction false} CounterIsBitLength(low: nat, high: nat, wraps: nat, bytes: nat)
    requires CountsBits(low, high, wraps, bytes)
    ensures 0x1_0000_0000 * high + low == (8 * bytes) % 0x1_0000_0000_0000_0000
  {
  }

  /** The counter update of SHA1Update, in 32-bit arithmetic. */
  function Counted(low: nat, high: nat, len: nat): (nat, nat) {
    var low' := (low + (len * 8) % WORD) % WORD;
    var carried := if low' < low then (high + 1) % WORD else high;
    (low', (carried + len / 0x2000_0000) % WORD)
  }

  /** The carry is right: the update keeps the counter at the bit length. */
  lemma {:induction false} CounterAdvances(low: nat, high: nat, wraps: nat, len: nat, bytes: nat) returns (wraps': nat)
    requires len < WORD && CountsBits(low, high, wraps, bytes)
    ensures CountsBits(Counted(low, high, len).0, Counted(low, high, len).1, wraps', bytes + len)
  {
    var lo, hi := (len * 8) % WORD, len / 0x2000_0000;
    LowWord(low, len, lo, hi);
    var carry := if low + lo >= WORD then 1 else 0;
    var total := high + carry + hi;
    HighWord(high, carry, hi, total);
    wraps' := wraps + total / WORD;
    SumIs(low, high, wraps, bytes, len, lo, hi, carry, total);
  }

  lemma {:induction false} SumIs(
    low: nat, high: nat, wraps: nat, bytes: nat, len: nat, lo: nat, hi: nat, carry: nat, total: nat)
    requires 8 * bytes == low + 0x1_0000_0000 * high + 0x1_0000_0000_0000_0000 * wraps
    requires len * 8 == hi * 0x1_0000_0000 + lo && total == high + carry + hi && low + lo >= carry * 0x1_0000_0000
    ensures 8 * (bytes + len) ==
      low + lo - carry * 0x1_0000_0000 + 0x1_0000_0000 * (total % WORD)
        + 0x1_0000_0000_0000_0000 * (wraps + total / WORD)
  {
    assert total == total % WORD + 0x1_0000_0000 * (total / WORD);
  }

  lemma {:induction false} LowWord(low: nat, len: nat, lo: nat, hi: nat)
    requires low < WORD && lo == (len * 8) % WORD && hi == len / 0x2000_0000
    ensures len * 8 == hi * 0x1_0000_0000 + lo
    ensures var carry := if low + lo >= WORD then 1 else 0;
      var low' := (low + lo) % WORD;
      low' == low + lo - carry * 0x1_0000_0000 && (low' < low <==> carry == 1)
  {
  }

  lemma {:induction false} HighWord(high: nat, carry: nat, hi: nat, total: nat)
    requires high < WORD && carry <= 1 && total == high + carry + hi
    ensures ((if carry == 1 then (high + 1) % WORD else high) + hi) % WORD == total % WORD
    ensures total == total % WORD + 0x1_0000_0000 * (total / WORD)
  {
  }

  /** The buffer position is the byte length modulo 64. */
  lemma {:induction false} PositionFromCounter(low: nat, high: nat, wraps: nat, bytes: nat, n: nat)
    requires CountsBits(low, high, wraps, bytes) && 64 * n <= bytes < 64 * n + 64
    ensures low / 8 % 64 == bytes - 64 * n
  {
    var k := high + 0x1_0000_0000 * wraps;
    assert bytes == low / 8 + 0x2000_0000 * k;
  }

  // ---------- the padded length ----------

  /** `q` times 256^n. */
  function Shifted(q: nat, n: nat): nat {
    if n == 0 then q else 256 * Shifted(q, n - 1)
  }

  /** Bytes below a multiple of 256^(s+1) do not see it. */
  lemma {:induction false} ByteIgnoresAbove(x: nat, q: nat, s: nat)
    ensures ByteOf(x + Shifted(q, s + 1), s) == ByteOf(x, s)
    decreases s
  {
    var p := Shifted(q, s);
    assert Shifted(q, s + 1) == 256 * p;
    if s > 0 {
      assert (x + 256 * p) / 256 == x / 256 + p;
      ByteIgnoresAbove(x / 256, q, s - 1);
    }
  }

  lemma {:induction false} ShiftedIs(q: nat)
    ensures Shifted(q, 1) == 256 * q && Shifted(q, 2) == 0x1_0000 * q
    ensures Shifted(q, 3) == 0x100_0000 * q && Shifted(q, 4) == 0x1_0000_0000 * q
  {
    assert Shifted(q, 0) == q;
    assert Shifted(q, 1) == 256 * q;
    assert Shifted(q, 2) == 0x1_0000 * q;
    assert Shifted(q, 3) == 0x100_0000 * q;
  }

  /** The counter words give the length field of the padding. */
  lemma {:induction false} CounterBytes(low: nat, high: nat, wraps: nat, bytes: nat)
    requires CountsBits(low, high, wraps, bytes)
    ensures Length64(8 * bytes) == CounterField(low, high)
  {
    LengthOfCounter(low, high + 0x1_0000_0000 * wraps, high, wraps);
  }

  /** finalcount in SHA1Final. */
  function CounterField(low: nat, high: nat): seq<byte> {
    [ByteOf(high, 3), ByteOf(high, 2), ByteOf(high, 1), ByteOf(high, 0),
     ByteOf(low, 3), ByteOf(low, 2), ByteOf(low, 1), ByteOf(low, 0)]
  }

  lemma {:induction false} LengthOfCounter(low: nat, above: nat, high: nat, wraps: nat)
    requires low < WORD && above == high + wraps * WORD
    ensures Length64(low + above * WORD) == CounterField(low, high)
  {
    LengthBytes(low, above, high, wraps, 0);
    LengthBytes(low, above, high, wraps, 1);
    LengthBytes(low, above, high, wraps, 2);
    LengthBytes(low, above, high, wraps, 3);
  }

  lemma {:induction false} LengthBytes(low: nat, above: nat, high: nat, p: nat, s: nat)
    requires s < 4 && low < WORD && above == high + p * WORD
    ensures ByteOf(low + above * WORD, s) == ByteOf(low, s)
    ensures ByteOf(low + above * WORD, s + 4) == ByteOf(high, s)
  {
    LowByte(low, above, s);
    HighByte(low, above, s);
    LowByte(high, p, s);
  }

  lemma {:induction false} LowByte(low: nat, above: nat, s: nat)
    requires s < 4
    ensures ByteOf(low + above * WORD, s) == ByteOf(low, s)
  {
    if s == 0 {
      ShiftedIs(above * 0x100_0000);
      ByteIgnoresAbove(low, above * 0x100_0000, 0);
    } else if s == 1 {
      ShiftedIs(above * 0x1_0000);
      ByteIgnoresAbove(low, above * 0x1_0000, 1);
    } else if s == 2 {
      ShiftedIs(above * 0x100);
      ByteIgnoresAbove(low, above * 0x100, 2);
    } else {
      ShiftedIs(above);
      ByteIgnoresAbove(low, above, 3);
    }
  }

  lemma {:induction false} HighByte(low: nat, above: nat, s: nat)
    requires s < 4 && low < WORD
    ensures ByteOf(low + above * WORD, s + 4) == ByteOf(above, s)
  {
    var x := low + above * WORD;
    assert x / 256 / 256 / 256 / 256 == above;
    assert ByteOf(x, s + 4) == ByteOf(x / 256, s + 3);
    assert ByteOf(x / 256, s + 3) == ByteOf(x / 256 / 256, s + 2);
    assert ByteOf(x / 256 / 256, s + 2) == ByteOf(x / 256 / 256 / 256, s + 1);
  }
}
