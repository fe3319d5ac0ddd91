/** SHA1_CTX and the streaming routines of third-party/src/sha1.c. */
module Sha1Context {
  import opened Basics
  import opened Sha1Spec
  import opened Sha1

  /** `n` blocks are all the whole blocks of the message, and the buffer starts with what follows them. */
  ghost predicate Rest(buffer: seq<byte>, msg: seq<byte>, n: nat) {
    |buffer| == 64 && 64 * n <= |msg| < 64 * n + 64 && buffer[..|msg| - 64 * n] == msg[64 * n..]
  }

  /** Hashed blocks do not depend on what follows them. */
  lemma {:induction false} HashIgnoresTail<Word>(
    m: Machine<Word>, h: Words<Word>, msg: seq<byte>, more: seq<byte>, n: nat)
    requires 64 * n <= |msg|
    ensures HashBlocks(m, h, msg + more, n) == HashBlocks(m, h, msg, n)
  {
    if n > 0 {
      HashIgnoresTail(m, h, msg, more, n - 1);
      assert BlockAt(msg + more, n - 1) == BlockAt(msg, n - 1);
    }
  }

  /** memcpy into the buffer. */
  method CopyInto(buffer: array<byte>, at: nat, data: seq<byte>)
    requires at + |data| <= buffer.Length
    modifies buffer
    ensures buffer[..at + |data|] == old(buffer[..at]) + data
  {
    forall i | 0 <= i < |data| {
      buffer[at + i] := data[i];
    }
  }

  /** SHA1Update: whole blocks straight from the data, from `start` on; `before` is what was fed earlier. */
  method WholeBlocks<Word(!new)>(
    code: Machine<Word>, state: array<Word>, data: seq<byte>, start: nat,
    ghost m: Machine<Word>, ghost h: Words<Word>, ghost before: seq<byte>, ghost first: nat)
    returns (i: nat, ghost n: nat)
    requires Implements(code, m) && state.Length == 5 && start <= |data| && |before| + start == 64 * first
    requires WordsOf(state) == HashBlocks(m, h, before + data, first)
    modifies state
    ensures i <= |data| < i + 64 && |before| + i == 64 * n
    ensures WordsOf(state) == HashBlocks(m, h, before + data, n)
  {
    ghost var all := before + data;
    i, n := start, first;
    while i + 63 < |data|
      invariant i <= |data| && |before| + i == 64 * n
      invariant WordsOf(state) == HashBlocks(m, h, all, n)
    {
      DataBlock(before, data, n, i);
      Transform(code, state, data[i..i + 64], m);
      i, n := i + 64, n + 1;
    }
  }

  /** SHA1Update, the last memcpy: what no block took, from `i` on, goes to the front of the buffer. */
  method KeepRest(buffer: array<byte>, data: seq<byte>, i: nat, ghost fed: seq<byte>, ghost n: nat)
    requires buffer.Length == 64 && i <= |data| < i + 64 && |fed| + i == 64 * n
    modifies buffer
    ensures Rest(buffer[..], fed + data, n)
  {
    CopyInto(buffer, 0, data[i..]);
    RestInData(buffer[..], fed, data, n, i);
  }

  /** SHA1Update: the buffered bytes and the first of the data complete a block. */
  method FirstBlock<Word(!new)>(
    code: Machine<Word>, state: array<Word>, buffer: array<byte>, data: seq<byte>, j: nat,
    ghost m: Machine<Word>, ghost h: Words<Word>, ghost fed: seq<byte>, ghost blocks: nat)
    requires Implements(code, m) && state.Length == 5 && buffer.Length == 64
    requires Hashed(state, buffer, m, h, fed, blocks) && j == |fed| - 64 * blocks && j + |data| >= 64
    modifies state, buffer
    ensures WordsOf(state) == HashBlocks(m, h, fed + data, blocks + 1)
  {
    FirstBlockBytes(fed, data, blocks, j);
    HashIgnoresTail(m, h, fed, data, blocks);
    CopyInto(buffer, j, data[..64 - j]);
    assert buffer[..] == BlockAt(fed + data, blocks);
    Transform(code, state, buffer[..], m);
  }

  /** SHA1Update, data that completes a block: `j` is the position in the buffer. */
  method AbsorbBlocks<Word(!new)>(
    code: Machine<Word>, state: array<Word>, buffer: array<byte>, data: seq<byte>, j: nat,
    ghost m: Machine<Word>, ghost h: Words<Word>, ghost fed: seq<byte>, ghost blocks: nat)
    returns (ghost n: nat)
    requires Implements(code, m) && state.Length == 5 && buffer.Length == 64
    requires Hashed(state, buffer, m, h, fed, blocks) && j == |fed| - 64 * blocks && j + |data| >= 64
    modifies state, buffer
    ensures Hashed(state, buffer, m, h, fed + data, n)
  {
    FirstBlock(code, state, buffer, data, j, m, h, fed, blocks);
    var i;
    i, n := WholeBlocks(code, state, data, 64 - j, m, h, fed, blocks + 1);
    KeepRest(buffer, data, i, fed, n);
  }

  /** SHA1Update, data that fits in the buffer. */
  method AbsorbTail<Word(!new)>(
    state: array<Word>, buffer: array<byte>, data: seq<byte>, j: nat,
    ghost m: Machine<Word>, ghost h: Words<Word>, ghost fed: seq<byte>, ghost blocks: nat)
    requires state.Length == 5 && buffer.Length == 64
    requires Hashed(state, buffer, m, h, fed, blocks) && j == |fed| - 64 * blocks && j + |data| < 64
    modifies buffer
    ensures Hashed(state, buffer, m, h, fed + data, blocks)
  {
    HashIgnoresTail(m, h, fed, data, blocks);
    CopyInto(buffer, j, data);
    RestGrows(old(buffer[..]), buffer[..], fed, data, blocks, j);
  }

  /** SHA1Update, everything but the counter. */
  method Absorb<Word(!new)>(
    code: Machine<Word>, state: array<Word>, buffer: array<byte>, data: seq<byte>, j: nat,
    ghost m: Machine<Word>, ghost h: Words<Word>, ghost fed: seq<byte>, ghost blocks: nat)
    returns (ghost n: nat)
    requires Implements(code, m) && state.Length == 5 && buffer.Length == 64
    requires Hashed(state, buffer, m, h, fed, blocks) && j == |fed| - 64 * blocks
    modifies state, buffer
    ensures Hashed(state, buffer, m, h, fed + data, n)
  {
    if j + |data| > 63 {
      n := AbsorbBlocks(code, state, buffer, data, j, m, h, fed, blocks);
    } else {
      n := blocks;
      AbsorbTail(state, buffer, data, j, m, h, fed, blocks);
    }
  }

  /** The whole blocks of the message are hashed and the rest is in the buffer. */
  ghost predicate Hashed<Word>(
    state: array<Word>, buffer: array<byte>, m: Machine<Word>, h: Words<Word>, msg: seq<byte>, n: nat)
    requires state.Length == 5 && buffer.Length == 64
    reads state, buffer
  {
    Rest(buffer[..], msg, n) && WordsOf(state) == HashBlocks(m, h, msg, n)
  }

  class Context<Word(!new)> {
    const code: Machine<Word>
    const initial: Words<Word>
    ghost const m: Machine<Word>
    const state: array<Word>
    const buffer: array<byte>
    var low: nat
    var high: nat
    /** Every byte fed so far. */
    ghost var fed: seq<byte>
    ghost var length: nat
    /** How often the counter has overflowed. */
    ghost var wraps: nat
    /** How many whole blocks they make. */
    ghost var blocks: nat

    ghost predicate Built() {
      Implements(code, m) && state.Length == 5 && buffer.Length == 64
    }

    ghost predicate Valid()
      reads this, state, buffer
    {
      && Built()
      && CountsBits(low, high, wraps, length) && length == |fed|
      && Hashed(state, buffer, m, initial, fed, blocks)
    }

    /** SHA1Init. */
    constructor (code: Machine<Word>, initial: Words<Word>, ghost m: Machine<Word>)
      requires Implements(code, m)
      ensures Valid() && fed == [] && fresh(state) && fresh(buffer)
      ensures this.m == m && this.initial == initial
    {
      this.code, this.initial, this.m := code, initial, m;
      state := new Word[] [initial.a, initial.b, initial.c, initial.d, initial.e];
      buffer := new byte[64](i => 0);
      low, high := 0, 0;
      fed, length, wraps, blocks := [], 0, 0, 0;
      new;
      RestOfNothing(buffer[..]);
      assert WordsOf(state) == initial;
    }

    /** SHA1Update, the position in the buffer. */
    method Position() returns (j: nat)
      requires CountsBits(low, high, wraps, length) && 64 * blocks <= length < 64 * blocks + 64
      ensures j == length - 64 * blocks
    {
      PositionFromCounter(low, high, wraps, length, blocks);
      j := low / 8 % 64;
    }

    /** SHA1Update. The bound keeps the 32-bit index arithmetic of the source from wrapping. */
    method Update(data: seq<byte>)
      requires Valid() && |data| + 64 <= WORD
      modifies this`low, this`high, this`fed, this`length, this`wraps, this`blocks, state, buffer
      ensures Valid() && fed == old(fed) + data
    {
      var j := Position();
      Tally(|data|);
      Take(data, j);
    }

    /** SHA1Update, the data. */
    method Take(data: seq<byte>, j: nat)
      requires Built() && Hashed(state, buffer, m, initial, fed, blocks) && j == |fed| - 64 * blocks
      modifies this`fed, this`blocks, state, buffer
      ensures Hashed(state, buffer, m, initial, fed, blocks) && fed == old(fed) + data
    {
      ghost var msg := fed + data;
      ghost var n := Absorb(code, state, buffer, data, j, m, initial, fed, blocks);
      fed, blocks := msg, n;
    }

    /** SHA1Update, the counter. */
    method Tally(len: nat)
      requires CountsBits(low, high, wraps, length) && len < WORD
      modifies this`low, this`high, this`length, this`wraps
      ensures CountsBits(low, high, wraps, length) && length == old(length) + len
    {
      wraps := CounterAdvances(low, high, wraps, len, length);
      var (low', high') := Counted(low, high, len);
      low, high, length := low', high', length + len;
    }

    /** SHA1Final, the padding loop: zero bytes until the position is 56. It ends, after the number the
        standard asks for. */
    method PadToLength(ghost msg: seq<byte>)
      requires Valid() && fed == msg + [128]
      modifies this`low, this`high, this`fed, this`length, this`wraps, this`blocks, state, buffer
      ensures Valid() && fed == msg + [128] + Zeros(ZerosNeeded(|msg|))
    {
      ghost var k := 0;
      var j := Position();
      while j != 56
        invariant Valid() && k <= ZerosNeeded(|msg|) && fed == msg + [128] + Zeros(k)
        invariant j == length - 64 * blocks
        decreases ZerosNeeded(|msg|) - k
      {
        PadPosition(msg, k, fed, blocks);
        Update([0]);
        k := k + 1;
        j := Position();
      }
      PadPosition(msg, k, fed, blocks);
    }

    /** SHA1Final: the digest of everything fed; the context is wiped, `zero` being the word of zero bits. */
    method Final(zero: Word) returns (digest: seq<byte>)
      requires Valid()
      modifies this`low, this`high, this`fed, this`length, this`wraps, this`blocks, state, buffer
      ensures digest == Sha1Spec.Sha1(m, initial, old(fed))
      ensures Wiped(zero)
    {
      ghost var msg := fed;
      CounterBytes(low, high, wraps, length);
      var finalcount := CounterField(low, high);
      Update([128]);
      PadToLength(msg);
      Update(finalcount);
      PaddedFed(msg, fed, blocks);
      digest := Unload();
      Wipe(zero);
    }

    ghost predicate Wiped(zero: Word)
      reads this, state, buffer
    {
      && low == 0 && high == 0
      && (forall i :: 0 <= i < state.Length ==> state[i] == zero)
      && (forall i :: 0 <= i < buffer.Length ==> buffer[i] == 0)
    }

    /** The memset of SHA1Final. */
    method Wipe(zero: Word)
      requires Built()
      modifies this`low, this`high, state, buffer
      ensures Wiped(zero)
    {
      low, high := 0, 0;
      forall i | 0 <= i < buffer.Length {
        buffer[i] := 0;
      }
      var i := 0;
      while i < state.Length
        invariant i <= state.Length && forall k :: 0 <= k < i ==> state[k] == zero
        invariant low == 0 && high == 0 && forall k :: 0 <= k < buffer.Length ==> buffer[k] == 0
      {
        state[i] := zero;
        i := i + 1;
      }
    }

    /** SHA1Final, the digest bytes. */
    method Unload() returns (digest: seq<byte>)
      requires Built()
      ensures digest == DigestOf(m, WordsOf(state))
    {
      digest := DigestOf(code, WordsOf(state));
    }
  }

  /** SHA1: one byte at a time. */
  method OneShot<Word(!new)>(
    code: Machine<Word>, initial: Words<Word>, zero: Word, str: seq<byte>, ghost m: Machine<Word>)
    returns (hash: seq<byte>)
    requires Implements(code, m)
    ensures hash == Sha1Spec.Sha1(m, initial, str)
  {
    var ctx := new Context(code, initial, m);
    var i := 0;
    while i < |str|
      invariant i <= |str| && ctx.Valid() && ctx.fed == str[..i] && ctx.m == m && ctx.initial == initial
      invariant fresh(ctx) && fresh(ctx.state) && fresh(ctx.buffer)
    {
      OneMoreByte(str, i);
      ctx.Update([str[i]]);
      i := i + 1;
    }
    assert str[..i] == str;
    hash := ctx.Final(zero);
  }

  /** However a message was split, the context after it is the same; buffer bytes past the position are left over from
      earlier and are not part of it. */
  lemma {:induction false} SplitIndependence<Word(!new)>(c: Context<Word>, d: Context<Word>)
    requires c.Valid() && d.Valid() && c.fed == d.fed && c.m == d.m && c.initial == d.initial
    ensures c.low == d.low && c.high == d.high && WordsOf(c.state) == WordsOf(d.state)
    ensures c.buffer[..][..|c.fed| % 64] == d.buffer[..][..|c.fed| % 64]
  {
    LiveBytes(c.fed, c.blocks, c.buffer[..]);
    LiveBytes(d.fed, d.blocks, d.buffer[..]);
    CounterDetermined(c.low, c.high, c.wraps, d.low, d.high, d.wraps, c.length);
  }

  lemma {:induction false} LiveBytes(msg: seq<byte>, n: nat, buffer: seq<byte>)
    requires Rest(buffer, msg, n)
    ensures n == |msg| / 64 && buffer[..|msg| % 64] == msg[64 * (|msg| / 64)..]
  {
  }

  lemma {:induction false} CounterDetermined(
    low: nat, high: nat, wraps: nat, low': nat, high': nat, wraps': nat, bytes: nat)
    requires CountsBits(low, high, wraps, bytes) && CountsBits(low', high', wraps', bytes)
    ensures low == low' && high == high'
  {
  }

  lemma {:induction false} PadPosition(msg: seq<byte>, k: nat, fed: seq<byte>, blocks: nat)
    requires fed == msg + [128] + Zeros(k) && k <= ZerosNeeded(|msg|) && 64 * blocks <= |fed| < 64 * blocks + 64
    ensures |fed| - 64 * blocks == 56 <==> k == ZerosNeeded(|msg|)
    ensures fed + [0] == msg + [128] + Zeros(k + 1)
  {
    ZerosLength(k);
    PositionOfPadding(|msg|, k, blocks);
  }

  lemma {:induction false} PositionOfPadding(n: nat, k: nat, blocks: nat)
    requires k <= ZerosNeeded(n) && 64 * blocks <= n + 1 + k < 64 * blocks + 64
    ensures n + 1 + k - 64 * blocks == 56 <==> k == ZerosNeeded(n)
  {
  }

  lemma {:induction false} PaddedFed(msg: seq<byte>, all: seq<byte>, blocks: nat)
    requires all == msg + [128] + Zeros(ZerosNeeded(|msg|)) + Length64(8 * |msg|)
    requires 64 * blocks <= |all| < 64 * blocks + 64
    ensures all == Padded(msg) && blocks == |Padded(msg)| / 64
  {
    RegroupFour(msg, [128], Zeros(ZerosNeeded(|msg|)), Length64(8 * |msg|));
    WholeBlocksOnly(|all|, blocks);
  }

  lemma {:induction false} WholeBlocksOnly(n: nat, blocks: nat)
    requires 64 * blocks <= n < 64 * blocks + 64
    ensures blocks == n / 64
  {
  }

  lemma {:induction false} OneMoreByte(str: seq<byte>, i: nat)
    requires i < |str|
    ensures str[..i] + [str[i]] == str[..i + 1]
  {
  }

  lemma {:induction false} DataBlock(fed: seq<byte>, data: seq<byte>, n: nat, i: nat)
    requires |fed| + i == 64 * n && i + 64 <= |data|
    ensures BlockAt(fed + data, n) == data[i..i + 64]
  {
  }

  lemma {:induction false} RestOfNothing(buffer: seq<byte>)
    requires |buffer| == 64
    ensures Rest(buffer, [], 0)
  {
  }

  lemma {:induction false} RestInData(buffer: seq<byte>, fed: seq<byte>, data: seq<byte>, n: nat, i: nat)
    requires |buffer| == 64 && |fed| + i == 64 * n && i <= |data| < i + 64 && buffer[..|data| - i] == data[i..]
    ensures Rest(buffer, fed + data, n)
  {
  }

  lemma {:induction false} RestGrows(
    buffer: seq<byte>, buffer': seq<byte>, fed: seq<byte>, data: seq<byte>, n: nat, j: nat)
    requires Rest(buffer, fed, n) && j == |fed| - 64 * n && j + |data| < 64 == |buffer'|
    requires buffer'[..j + |data|] == buffer[..j] + data
    ensures Rest(buffer', fed + data, n)
  {
  }

  lemma {:induction false} FirstBlockBytes(fed: seq<byte>, data: seq<byte>, n: nat, j: nat)
    requires |fed| == 64 * n + j && j < 64 && j + |data| >= 64
    ensures fed[64 * n..] + data[..64 - j] == BlockAt(fed + data, n)
  {
  }
}
