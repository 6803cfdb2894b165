/** SHA-256 as the core computes it: a streaming context, proved to agree with the padded
    one-shot definition of FIPS 180-4 (sections 5.1.1 and 6.2) for any chunking. */
module Sha256 {
  import opened Grid
  import opened World

  type Word = bv32

  /** Eight consecutive words of a table. */
  datatype Row = Row(w0: Word, w1: Word, w2: Word, w3: Word, w4: Word, w5: Word, w6: Word, w7: Word)
  {
    function Words(): (s: seq<Word>)
      ensures |s| == 8
    {
      [w0, w1, w2, w3, w4, w5, w6, w7]
    }
  }

  const K0 := Row(0x428a2f98, 0x71374491, 0xb5c0fbcf, 0xe9b5dba5, 0x3956c25b, 0x59f111f1, 0x923f82a4, 0xab1c5ed5)
  const K1 := Row(0xd807aa98, 0x12835b01, 0x243185be, 0x550c7dc3, 0x72be5d74, 0x80deb1fe, 0x9bdc06a7, 0xc19bf174)
  const K2 := Row(0xe49b69c1, 0xefbe4786, 0x0fc19dc6, 0x240ca1cc, 0x2de92c6f, 0x4a7484aa, 0x5cb0a9dc, 0x76f988da)
  const K3 := Row(0x983e5152, 0xa831c66d, 0xb00327c8, 0xbf597fc7, 0xc6e00bf3, 0xd5a79147, 0x06ca6351, 0x14292967)
  const K4 := Row(0x27b70a85, 0x2e1b2138, 0x4d2c6dfc, 0x53380d13, 0x650a7354, 0x766a0abb, 0x81c2c92e, 0x92722c85)
  const K5 := Row(0xa2bfe8a1, 0xa81a664b, 0xc24b8b70, 0xc76c51a3, 0xd192e819, 0xd6990624, 0xf40e3585, 0x106aa070)
  const K6 := Row(0x19a4c116, 0x1e376c08, 0x2748774c, 0x34b0bcb5, 0x391c0cb3, 0x4ed8aa4a, 0x5b9cca4f, 0x682e6ff3)
  const K7 := Row(0x748f82ee, 0x78a5636f, 0x84c87814, 0x8cc70208, 0x90befffa, 0xa4506ceb, 0xbef9a3f7, 0xc67178f2)

  /** The round constants. */
  function K(): (k: seq<Word>)
    ensures |k| == 64
  {
    K0.Words() + K1.Words() + K2.Words() + K3.Words() + K4.Words() + K5.Words() + K6.Words() + K7.Words()
  }

  const INITIAL: seq<Word> := [
    0x6a09e667, 0xbb67ae85, 0x3c6ef372, 0xa54ff53a, 0x510e527f, 0x9b05688c, 0x1f83d9ab, 0x5be0cd19]

  // ----- the compression function

  function RotateRight(x: Word, n: Word): Word
    requires 0 < n < 32
  {
    (x >> n) | (x << (32 - n))
  }

  function Widen(b: u8): Word { (b as bv8) as bv32 }

  function WordOf(b0: u8, b1: u8, b2: u8, b3: u8): Word {
    (Widen(b0) << 24) | (Widen(b1) << 16) | (Widen(b2) << 8) | Widen(b3)
  }

  function BigEndianWord(block: Bytes, at: nat): Word
    requires at + 4 <= |block|
  {
    WordOf(block[at], block[at + 1], block[at + 2], block[at + 3])
  }

  /** The schedule word that follows sixteen others, of which it takes four. */
  function Mix(w0: Word, w1: Word, w9: Word, w14: Word): Word {
    w0 + (RotateRight(w1, 7) ^ RotateRight(w1, 18) ^ (w1 >> 3))
    + w9 + (RotateRight(w14, 17) ^ RotateRight(w14, 19) ^ (w14 >> 10))
  }

  /** The first n words of the message schedule of one block. */
  function Schedule(block: Bytes, n: nat): (w: seq<Word>)
    requires |block| == 64 && n <= 64
    ensures |w| == n
  {
    if n == 0 then []
    else
      var w := Schedule(block, n - 1);
      w + [ScheduleWord(block, w, n - 1)]
  }

  function ScheduleWord(block: Bytes, w: seq<Word>, i: nat): Word
    requires |block| == 64 && i < 64 && i <= |w|
  {
    if i < 16 then BigEndianWord(block, 4 * i) else Mix(w[i - 16], w[i - 15], w[i - 7], w[i - 2])
  }

  datatype Working = Working(a: Word, b: Word, c: Word, d: Word, e: Word, f: Word, g: Word, h: Word)

  function Round(v: Working, k: Word, w: Word): Working {
    var sum1 := RotateRight(v.e, 6) ^ RotateRight(v.e, 11) ^ RotateRight(v.e, 25);
    var choice := (v.e & v.f) ^ (!v.e & v.g);
    var temp1 := v.h + sum1 + choice + k + w;
    var sum0 := RotateRight(v.a, 2) ^ RotateRight(v.a, 13) ^ RotateRight(v.a, 22);
    var majority := (v.a & v.b) ^ (v.a & v.c) ^ (v.b & v.c);
    var temp2 := sum0 + majority;
    Working(temp1 + temp2, v.a, v.b, v.c, v.d + temp1, v.e, v.f, v.g)
  }

  function Rounds(v: Working, w: seq<Word>, n: nat): Working
    requires n <= |w| == 64
  {
    if n == 0 then v else Round(Rounds(v, w, n - 1), K()[n - 1], w[n - 1])
  }

  type HashState = s: seq<Word> | |s| == 8 witness INITIAL

  function Add(x: Word, y: Word): Word { x + y }

  function AddAll(s: HashState, v: Working): (r: HashState) {
    [Add(s[0], v.a), Add(s[1], v.b), Add(s[2], v.c), Add(s[3], v.d),
     Add(s[4], v.e), Add(s[5], v.f), Add(s[6], v.g), Add(s[7], v.h)]
  }

  function Compress(s: HashState, block: Bytes): (r: HashState)
    requires |block| == 64
  {
    AddAll(s, Rounds(Working(s[0], s[1], s[2], s[3], s[4], s[5], s[6], s[7]), Schedule(block, 64), 64))
  }

  // ----- the one-shot definition

  /** Compression folded over whole blocks. */
  function Absorb(m: Bytes): HashState
    requires |m| % 64 == 0
  {
    if m == [] then INITIAL else Compress(Absorb(m[..|m| - 64]), m[|m| - 64..])
  }

  /** v shifted right by k whole bytes. */
  function ShiftBytes(v: nat, k: nat): nat
    decreases k
  {
    if k == 0 then v else ShiftBytes(v / 256, k - 1)
  }

  /** The last n bytes of v, most significant first. */
  function BigEndian(v: nat, n: nat): (b: Bytes)
    ensures |b| == n
    decreases n
  {
    if n == 0 then [] else BigEndian(v / 256, n - 1) + [v % 256]
  }

  function BigEndianValue(b: Bytes): nat {
    if b == [] then 0 else 256 * BigEndianValue(b[..|b| - 1]) + b[|b| - 1]
  }

  lemma {:induction false} BigEndianAt(v: nat, n: nat, i: nat)
    requires i < n
    ensures BigEndian(v, n)[i] == ShiftBytes(v, n - 1 - i) % 256
    decreases n
  {
    if i < n - 1 {
      BigEndianAt(v / 256, n - 1, i);
    }
  }

  /** The bytes determine the word, whatever its value, as long as it fits. */
  lemma {:induction false} BigEndianRoundTrip(v: nat, n: nat)
    requires ShiftBytes(v, n) == 0
    ensures BigEndianValue(BigEndian(v, n)) == v
    decreases n
  {
    if n > 0 {
      BigEndianRoundTrip(v / 256, n - 1);
      var b := BigEndian(v, n);
      assert b[..n - 1] == BigEndian(v / 256, n - 1) && b[n - 1] == v % 256;
    }
  }

  const WORD_LIMIT: nat := 0x1_0000_0000_0000_0000

  /** The bit length of a message, modulo 2^64, as eight big-endian bytes. */
  function LengthField(m: Bytes): (b: Bytes)
    ensures |b| == 8
  {
    BigEndian(8 * |m| % WORD_LIMIT, 8)
  }

  lemma BitSize(m: Bytes)
    ensures BigEndian((|m| % WORD_LIMIT) * 8 % WORD_LIMIT, 8) == LengthField(m)
  {
    hide BigEndian;
    TimesEight(|m|);
  }

  lemma TimesEight(n: nat)
    ensures (n % WORD_LIMIT) * 8 % WORD_LIMIT == 8 * n % WORD_LIMIT
  {
    var q, r := n / WORD_LIMIT, n % WORD_LIMIT;
    assert 8 * n == (8 * q) * WORD_LIMIT + r * 8;
    SameRemainder(8 * q, r * 8);
  }

  lemma TotalGrows(n: nat, more: nat)
    ensures (n % WORD_LIMIT + more) % WORD_LIMIT == (n + more) % WORD_LIMIT
  {
    var q, r := n / WORD_LIMIT, n % WORD_LIMIT;
    assert n + more == q * WORD_LIMIT + (r + more);
    SameRemainder(q, r + more);
  }

  lemma SameRemainder(q: nat, r: nat)
    ensures (q * WORD_LIMIT + r) % WORD_LIMIT == r % WORD_LIMIT
  {
    if q > 0 { SameRemainder(q - 1, r); }
  }

  lemma {:induction false} LengthFieldMeans(m: Bytes)
    ensures BigEndianValue(LengthField(m)) == 8 * |m| % WORD_LIMIT
  {
    var v := 8 * |m| % WORD_LIMIT;
    var v1 := v / 256;
    var v2 := v1 / 256;
    var v3 := v2 / 256;
    var v4 := v3 / 256;
    var v5 := v4 / 256;
    var v6 := v5 / 256;
    assert ShiftBytes(v, 8) == ShiftBytes(v2, 6) == ShiftBytes(v4, 4) == ShiftBytes(v6, 2) == v6 / 256 / 256 == 0;
    BigEndianRoundTrip(v, 8);
  }

  /** The fewest zero bytes that leave eight bytes of the last block for the length. */
  function PadZeros(n: nat): (z: nat)
    ensures z < 64 && (n + 1 + z + 8) % 64 == 0
    ensures z == if n % 64 <= 55 then 55 - n % 64 else 119 - n % 64
  {
    (119 - n % 64) % 64
  }

  /** Section 5.1.1: a one bit, the fewest zero bits that leave room for the length, and the
      length in bits, which the context keeps modulo 2^64. */
  function Padded(m: Bytes): (p: Bytes)
    ensures |p| == |m| + 1 + PadZeros(|m|) + 8 && |p| % 64 == 0
  {
    hide Zeros, LengthField;
    m + [0x80] + Zeros(PadZeros(|m|)) + LengthField(m)
  }

  /** Below 2^61 bytes, different messages have different padded forms. */
  lemma PaddedInjective(a: Bytes, b: Bytes)
    requires 8 * |a| < WORD_LIMIT && 8 * |b| < WORD_LIMIT
    requires Padded(a) == Padded(b)
    ensures a == b
  {
    hide Zeros, PadZeros, LengthField, BigEndianValue;
    assert Padded(a)[|Padded(a)| - 8..] == LengthField(a) && Padded(b)[|Padded(b)| - 8..] == LengthField(b);
    LengthFieldMeans(a);
    LengthFieldMeans(b);
    assert Padded(a)[..|a|] == a && Padded(b)[..|a|] == b;
  }

  function WordBytes(w: Word): (b: Bytes)
    ensures |b| == 4
  {
    [((w >> 24) & 0xFF) as int, ((w >> 16) & 0xFF) as int, ((w >> 8) & 0xFF) as int, (w & 0xFF) as int]
  }

  function Output(s: HashState): Digest {
    WordBytes(s[0]) + WordBytes(s[1]) + WordBytes(s[2]) + WordBytes(s[3])
    + WordBytes(s[4]) + WordBytes(s[5]) + WordBytes(s[6]) + WordBytes(s[7])
  }

  /** The SHA-256 digest of a message. */
  function Hash(m: Bytes): Digest {
    Output(Absorb(Padded(m)))
  }

  /** The bytes of m that fill whole blocks. */
  function Whole(m: Bytes): (w: nat)
    ensures w <= |m| && w % 64 == 0 && |m| - w == |m| % 64
  {
    |m| / 64 * 64
  }

  lemma AbsorbBlock(m: Bytes, block: Bytes)
    requires |m| % 64 == 0 && |block| == 64
    ensures Absorb(m + block) == Compress(Absorb(m), block)
  {
    hide Compress;
    assert (m + block)[..|m|] == m && (m + block)[|m|..] == block;
  }

  /** The last block when the length still fits behind the message. */
  lemma {:induction false} PaddedInOneBlock(m: Bytes, last: Bytes)
    requires |m| % 64 <= 55
    requires last == m[Whole(m)..] + [0x80] + Zeros(55 - |m| % 64) + LengthField(m)
    ensures |last| == 64 && Absorb(Padded(m)) == Compress(Absorb(m[..Whole(m)]), last)
  {
    hide Absorb, Compress, Zeros, LengthField, PadZeros, Whole;
    assert m == m[..Whole(m)] + m[Whole(m)..];
    assert Padded(m) == m[..Whole(m)] + last;
    AbsorbBlock(m[..Whole(m)], last);
  }

  lemma ZerosSplit(a: nat, b: nat)
    ensures Zeros(a + b) == Zeros(a) + Zeros(b)
  {
  }

  /** The last two blocks when it does not. */
  lemma {:induction false} PaddedInTwoBlocks(m: Bytes, first: Bytes, last: Bytes)
    requires |m| % 64 > 55
    requires first == m[Whole(m)..] + [0x80] + Zeros(63 - |m| % 64)
    requires last == Zeros(56) + LengthField(m)
    ensures |first| == 64 && |last| == 64
    ensures Absorb(Padded(m)) == Compress(Compress(Absorb(m[..Whole(m)]), first), last)
  {
    hide Absorb, Compress, Zeros, LengthField, PadZeros, Whole;
    assert m == m[..Whole(m)] + m[Whole(m)..];
    ZerosSplit(63 - |m| % 64, 56);
    assert Padded(m) == m[..Whole(m)] + first + last;
    AbsorbBlock(m[..Whole(m)], first);
    AbsorbBlock(m[..Whole(m)] + first, last);
  }

  /** What a chunk no longer than the room left in the block does to the split of m. */
  lemma {:induction false} Extend(m: Bytes, chunk: Bytes)
    requires |chunk| <= 64 - |m| % 64
    ensures |m| % 64 + |chunk| < 64 ==>
              && Whole(m + chunk) == Whole(m) && (m + chunk)[Whole(m)..] == m[Whole(m)..] + chunk
              && (m + chunk)[..Whole(m)] == m[..Whole(m)] && |m + chunk| % 64 == |m| % 64 + |chunk|
    ensures |m| % 64 + |chunk| == 64 ==>
              && Whole(m + chunk) == |m + chunk| && |m + chunk| % 64 == 0
              && Absorb(m + chunk) == Compress(Absorb(m[..Whole(m)]), m[Whole(m)..] + chunk)
  {
    hide Compress, Absorb;
    if |m| % 64 + |chunk| == 64 {
      assert m + chunk == m[..Whole(m)] + (m[Whole(m)..] + chunk);
      AbsorbBlock(m[..Whole(m)], m[Whole(m)..] + chunk);
    }
  }

  // ----- the streaming context

  class Context {
    const state: array<Word>
    const block: array<u8>
    var totalSize: u64
    var blockSize: nat
    /** Every byte given to the context so far. */
    ghost var fed: Bytes

    /** The chaining state and the partial block stand for the bytes m. */
    ghost predicate Holding(m: Bytes)
      reads this, state, block
    {
      && state.Length == 8 && block.Length == 64
      && blockSize == |m| % 64
      && state[..] == Absorb(m[..Whole(m)])
      && block[..blockSize] == m[Whole(m)..]
    }

    ghost predicate Valid()
      reads this, state, block
    {
      Holding(fed) && totalSize == |fed| % WORD_LIMIT
    }

    /** fd_sha256_init_internal */
    constructor ()
      ensures Valid() && fed == [] && fresh(state) && fresh(block)
    {
      state := new Word[8](i requires 0 <= i < 8 => INITIAL[i]);
      block := new u8[64](_ => 0);
      totalSize, blockSize, fed := 0, 0, [];
      new;
      assert state[..] == INITIAL;
    }

    /** The message schedule, first loops of fd_sha256_compress. */
    method Expand() returns (words: array<Word>)
      requires block.Length == 64
      ensures fresh(words) && words.Length == 64 && words[..] == Schedule(block[..], 64)
    {
      hide BigEndianWord, RotateRight, ScheduleWord;
      words := new Word[64];
      ghost var m := block[..];
      var index: nat := 0;
      while index < 64
        invariant index <= 64
        invariant block[..] == m && words[..index] == Schedule(m, index)
      {
        words[index] := ScheduleWord(block[..], words[..index], index);
        assert words[..index + 1] == words[..index] + [words[index]];
        index := index + 1;
      }
      assert words[..] == words[..64];
    }

    /** The 64 rounds over the working variables. */
    method RunRounds(words: array<Word>, start: Working) returns (v: Working)
      requires words.Length == 64
      ensures v == Rounds(start, words[..], 64)
    {
      hide Round, K;
      v := start;
      var index: nat := 0;
      while index < 64
        invariant index <= 64 && v == Rounds(start, words[..], index)
      {
        v := Round(v, K()[index], words[index]);
        index := index + 1;
      }
    }

    /** fd_sha256_compress */
    method CompressBlock()
      requires state.Length == 8 && block.Length == 64
      modifies state
      ensures state[..] == Compress(old(state[..]), old(block[..]))
      ensures block[..] == old(block[..])
    {
      hide Schedule, Rounds, Add;
      ghost var before: HashState := state[..];
      var words := Expand();
      var v := RunRounds(words, Working(state[0], state[1], state[2], state[3], state[4], state[5], state[6], state[7]));
      state[0], state[1] := Add(state[0], v.a), Add(state[1], v.b);
      state[2], state[3] := Add(state[2], v.c), Add(state[3], v.d);
      state[4], state[5] := Add(state[4], v.e), Add(state[5], v.f);
      state[6], state[7] := Add(state[6], v.g), Add(state[7], v.h);
      assert state[..] == AddAll(before, v);
    }

    /** One turn of the loop of fd_sha256_update_internal: fill the block as far as the chunk
        goes, and compress it once it is full. */
    method Take(chunk: Bytes, ghost m: Bytes)
      requires Holding(m) && |chunk| <= 64 - blockSize
      modifies this`blockSize, state, block
      ensures Holding(m + chunk)
    {
      hide Compress, Absorb, Whole;
      ghost var rest := m[Whole(m)..];
      Extend(m, chunk);
      forall i | 0 <= i < |chunk| {
        block[blockSize + i] := chunk[i];
      }
      blockSize := blockSize + |chunk|;
      assert block[..blockSize] == rest + chunk;
      if blockSize == 64 {
        assert block[..] == rest + chunk;
        assert state[..] == Absorb(m[..Whole(m)]);
        CompressBlock();
        assert state[..] == Compress(Absorb(m[..Whole(m)]), rest + chunk);
        blockSize := 0;
        assert (m + chunk)[..|m + chunk|] == m + chunk && (m + chunk)[|m + chunk|..] == block[..0];
      }
    }

    /** The loop of fd_sha256_update_internal. */
    method Feed(bytes: Bytes, ghost m: Bytes)
      requires Holding(m)
      modifies this`blockSize, state, block
      ensures Holding(m + bytes)
    {
      hide Whole, Absorb, Compress, Padded, Zeros;
      var at: nat := 0;
      assert m + bytes[..0] == m;
      while at < |bytes|
        invariant at <= |bytes| && Holding(m + bytes[..at])
      {
        var take := if |bytes| - at < 64 - blockSize then |bytes| - at else 64 - blockSize;
        Take(bytes[at..at + take], m + bytes[..at]);
        assert m + bytes[..at] + bytes[at..at + take] == m + bytes[..at + take];
        at := at + take;
      }
      assert bytes[..at] == bytes;
    }

    /** fd_sha256_update_internal */
    method Update(bytes: Bytes)
      requires Valid() && |bytes| < WORD_LIMIT
      modifies this, state, block
      ensures Valid() && fed == old(fed) + bytes
    {
      hide Whole, Absorb, Compress, Padded, Zeros;
      TotalGrows(|fed|, |bytes|);
      totalSize := (totalSize + |bytes|) % WORD_LIMIT;
      Feed(bytes, fed);
      fed := fed + bytes;
    }

    /** memset of the block from a position on. */
    method Clear(from: nat, to: nat)
      requires block.Length == 64 && from <= to <= 64
      modifies block
      ensures block[..] == old(block[..from]) + Zeros(to - from) + old(block[to..])
    {
      forall i | from <= i < to {
        block[i] := 0;
      }
    }

    /** The last eight bytes of the final block. */
    method PutLength(bitSize: u64)
      requires block.Length == 64
      modifies block
      ensures block[..] == old(block[..56]) + BigEndian(bitSize, 8)
    {
      ghost var front := block[..56];
      var index: nat := 0;
      while index < 8
        invariant index <= 8
        invariant block[..56] == front && block[56..56 + index] == BigEndian(bitSize, 8)[..index]
      {
        BigEndianAt(bitSize, 8, index);
        block[56 + index] := ShiftBytes(bitSize, 7 - index) % 256;
        assert block[56..56 + index + 1] == block[56..56 + index] + [block[56 + index]];
        index := index + 1;
      }
      assert block[..] == block[..56] + block[56..64];
    }

    /** fd_sha256_final_internal: with the block at any fill, remainders 55, 56 and 63
        included, the digest is that of everything fed. */
    method Final() returns (out: Digest)
      requires Valid()
      modifies this`blockSize, state, block
      ensures out == Hash(fed)
    {
      hide Compress, Absorb, Whole, Zeros, BigEndian, Padded, LengthField;
      ghost var m := fed;
      ghost var rest := m[Whole(m)..];
      var bitSize := totalSize * 8 % WORD_LIMIT;
      assert BigEndian(bitSize, 8) == LengthField(m) by { BitSize(m); }
      block[blockSize] := 0x80;
      blockSize := blockSize + 1;
      assert block[..blockSize] == rest + [0x80];
      if blockSize > 56 {
        Clear(blockSize, 64);
        assert block[..] == rest + [0x80] + Zeros(63 - |m| % 64);
        CompressBlock();
        blockSize := 0;
        Clear(0, 56);
        PutLength(bitSize);
        PaddedInTwoBlocks(m, rest + [0x80] + Zeros(63 - |m| % 64), block[..]);
      } else {
        Clear(blockSize, 56);
        PutLength(bitSize);
        PaddedInOneBlock(m, block[..]);
      }
      CompressBlock();
      out := Output(state[..]);
    }
  }

  /** fd_sha256, and every other one-message use of a context. */
  method Sha256(bytes: Bytes) returns (out: Digest)
    requires |bytes| < WORD_LIMIT
    ensures out == Hash(bytes)
  {
    hide Hash, Context.Valid;
    var ctx := new Context();
    if |bytes| > 0 {
      ctx.Update(bytes);
    }
    assert ctx.fed == bytes;
    out := ctx.Final();
  }

  function Flatten(chunks: seq<Bytes>): Bytes {
    if chunks == [] then [] else Flatten(chunks[..|chunks| - 1]) + chunks[|chunks| - 1]
  }

  /** However a message is cut, empty pieces included, the digest is that of the whole. */
  method DigestChunks(chunks: seq<Bytes>) returns (out: Digest)
    requires forall k :: 0 <= k < |chunks| ==> |chunks[k]| < WORD_LIMIT
    ensures out == Hash(Flatten(chunks))
  {
    hide Hash, Context.Valid;
    var ctx := new Context();
    var index: nat := 0;
    while index < |chunks|
      invariant index <= |chunks| && fresh(ctx) && fresh(ctx.state) && fresh(ctx.block)
      invariant ctx.Valid() && ctx.fed == Flatten(chunks[..index])
    {
      ctx.Update(chunks[index]);
      assert chunks[..index + 1][..index] == chunks[..index];
      index := index + 1;
    }
    assert chunks[..index] == chunks;
    out := ctx.Final();
  }
}
