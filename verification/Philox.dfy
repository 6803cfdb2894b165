/** The Philox 4x32-10 block function: for every key, a bijection on counters. */
module Philox {
  type Word = bv32

  datatype Block = Block(w0: Word, w1: Word, w2: Word, w3: Word)

  datatype Key = Key(k0: Word, k1: Word)

  const M0: Word := 0xd2511f53
  const M1: Word := 0xcd9e8d57
  /** The inverses of the two odd multipliers modulo 2^32. */
  const M0_INVERSE: Word := 0x991a7cdb
  const M1_INVERSE: Word := 0x6d7cae67
  const ROUNDS := 10

  // ----- one round

  function Product(m: Word, v: Word): bv64 {
    (m as bv64) * (v as bv64)
  }

  function High(m: Word, v: Word): Word {
    (Product(m, v) >> 32) as bv32
  }

  function Low(m: Word, v: Word): Word {
    (Product(m, v) & 0xFFFF_FFFF) as bv32
  }

  /** A product word masked by a counter word and a key word. */
  function Mask(product: Word, word: Word, key: Word): Word {
    product ^ word ^ key
  }

  function Round(v: Block, k: Key): Block {
    Block(Mask(High(M1, v.w2), v.w1, k.k0), Low(M1, v.w2), Mask(High(M0, v.w0), v.w3, k.k1), Low(M0, v.w0))
  }

  /** Multiplication modulo 2^32. */
  function Times(m: Word, v: Word): Word {
    m * v
  }

  /** The two multiplied words come back through the inverse multipliers, the two masked
      words by masking again. */
  function Unround(v: Block, k: Key): Block {
    var w0, w2 := Times(M0_INVERSE, v.w3), Times(M1_INVERSE, v.w1);
    Block(w0, Mask(High(M1, w2), v.w0, k.k0), w2, Mask(High(M0, w0), v.w2, k.k1))
  }

  lemma LowIsProduct()
    ensures forall v: Word {:trigger Low(M0, v)} :: Low(M0, v) == 0xd2511f53 * v
    ensures forall v: Word {:trigger Low(M1, v)} :: Low(M1, v) == 0xcd9e8d57 * v
  {
  }

  lemma InverseOfProduct(v: Word)
    ensures Times(M0_INVERSE, 0xd2511f53 * v) == v && Times(M1_INVERSE, 0xcd9e8d57 * v) == v
  {
  }

  lemma ProductOfInverse(v: Word)
    ensures Low(M0, 0x991a7cdb * v) == v && Low(M1, 0x6d7cae67 * v) == v
  {
    hide Low;
    LowIsProduct();
  }

  lemma MultiplyThenInvert(v: Word)
    ensures Times(M0_INVERSE, Low(M0, v)) == v && Times(M1_INVERSE, Low(M1, v)) == v
  {
    hide Low, Times;
    LowIsProduct();
    InverseOfProduct(v);
  }

  lemma InvertThenMultiply(v: Word)
    ensures Low(M0, Times(M0_INVERSE, v)) == v && Low(M1, Times(M1_INVERSE, v)) == v
  {
    hide Low;
    ProductOfInverse(v);
  }

  lemma MasksCancel(product: Word, word: Word, key: Word)
    ensures Mask(product, Mask(product, word, key), key) == word
  {
  }

  lemma UnroundRound(v: Block, k: Key)
    ensures Unround(Round(v, k), k) == v
  {
    hide High, Low, Mask, Times;
    MultiplyThenInvert(v.w0);
    MultiplyThenInvert(v.w2);
    MasksCancel(High(M1, v.w2), v.w1, k.k0);
    MasksCancel(High(M0, v.w0), v.w3, k.k1);
  }

  lemma RoundUnround(v: Block, k: Key)
    ensures Round(Unround(v, k), k) == v
  {
    hide High, Low, Mask, Times;
    InvertThenMultiply(v.w3);
    InvertThenMultiply(v.w1);
    MasksCancel(High(M1, Times(M1_INVERSE, v.w1)), v.w0, k.k0);
    MasksCancel(High(M0, Times(M0_INVERSE, v.w3)), v.w2, k.k1);
  }

  // ----- ten rounds

  function Bump(word: Word, step: Word): Word {
    word + step
  }

  function KeyAfter(k: Key, n: nat): Key {
    if n == 0 then k
    else
      var p := KeyAfter(k, n - 1);
      Key(Bump(p.k0, 0x9e3779b9), Bump(p.k1, 0xbb67ae85))
  }

  function Rounds(v: Block, k: Key, n: nat): Block {
    if n == 0 then v else Round(Rounds(v, k, n - 1), KeyAfter(k, n - 1))
  }

  function Unrounds(v: Block, k: Key, n: nat): Block
    decreases n
  {
    if n == 0 then v else Unrounds(Unround(v, KeyAfter(k, n - 1)), k, n - 1)
  }

  function Philox4x32(counter: Block, k: Key): Block { Rounds(counter, k, ROUNDS) }

  function Inverse4x32(output: Block, k: Key): Block { Unrounds(output, k, ROUNDS) }

  lemma {:induction false} RoundsInvert(v: Block, k: Key, n: nat)
    ensures Unrounds(Rounds(v, k, n), k, n) == v
    ensures Rounds(Unrounds(v, k, n), k, n) == v
    decreases n
  {
    hide Round, Unround;
    if n > 0 {
      UnroundRound(Rounds(v, k, n - 1), KeyAfter(k, n - 1));
      RoundsInvert(v, k, n - 1);
      RoundUnround(v, KeyAfter(k, n - 1));
      RoundsInvert(Unround(v, KeyAfter(k, n - 1)), k, n - 1);
    }
  }

  /** Under every key, the block function is injective and reaches every block. */
  lemma Bijection(k: Key, a: Block, b: Block)
    ensures Philox4x32(a, k) == Philox4x32(b, k) <==> a == b
    ensures Philox4x32(Inverse4x32(b, k), k) == b
  {
    hide Rounds, Unrounds;
    RoundsInvert(a, k, ROUNDS);
    RoundsInvert(b, k, ROUNDS);
  }

  function BlockOf(s: seq<Word>): Block
    requires |s| == 4
  {
    Block(s[0], s[1], s[2], s[3])
  }

  /** fd_philox4x32_10 */
  method RunPhilox(counter: seq<Word>, key: seq<Word>) returns (out: seq<Word>)
    requires |counter| == 4 && |key| == 2
    ensures |out| == 4 && BlockOf(out) == Philox4x32(BlockOf(counter), Key(key[0], key[1]))
  {
    hide High, Low, Mask, Bump, Rounds, KeyAfter;
    ghost var start, k := BlockOf(counter), Key(key[0], key[1]);
    var value := counter;
    var roundKey := key;
    var round: nat := 0;
    RoundsStart(start, k);
    while round < ROUNDS
      invariant round <= ROUNDS && |value| == 4 && |roundKey| == 2
      invariant BlockOf(value) == Rounds(start, k, round)
      invariant Key(roundKey[0], roundKey[1]) == KeyAfter(k, round)
    {
      RoundsStep(start, k, round);
      value := [Mask(High(M1, value[2]), value[1], roundKey[0]), Low(M1, value[2]),
                Mask(High(M0, value[0]), value[3], roundKey[1]), Low(M0, value[0])];
      roundKey := [Bump(roundKey[0], 0x9e3779b9), Bump(roundKey[1], 0xbb67ae85)];
      round := round + 1;
    }
    out := value;
  }

  lemma RoundsStart(v: Block, k: Key)
    ensures Rounds(v, k, 0) == v && KeyAfter(k, 0) == k
  {
  }

  lemma RoundsStep(v: Block, k: Key, n: nat)
    ensures Rounds(v, k, n + 1) == Round(Rounds(v, k, n), KeyAfter(k, n))
    ensures KeyAfter(k, n + 1) == Key(Bump(KeyAfter(k, n).k0, 0x9e3779b9), Bump(KeyAfter(k, n).k1, 0xbb67ae85))
  {
    hide Round, Bump;
  }

  // ----- published vectors

  /** The Random123 vector of the zero counter under the zero key. */
  lemma ZeroVector()
    ensures Philox4x32(Block(0, 0, 0, 0), Key(0, 0))
         == Block(0x6627e8d5, 0xe169c58d, 0xbc57ac4c, 0x9b00dbd8)
  {
    hide Rounds, KeyAfter;
    var v, k := Block(0, 0, 0, 0), Key(0, 0);
    RoundsStart(v, k);
    RoundsStep(v, k, 0);
    assert Rounds(v, k, 1) == Block(0, 0, 0, 0);
    RoundsStep(v, k, 1);
    assert Rounds(v, k, 2) == Block(0x9e3779b9, 0, 0xbb67ae85, 0);
    RoundsStep(v, k, 2);
    assert Rounds(v, k, 3) == Block(0xaae8eb44, 0x02719033, 0xf734f9c9, 0x4942ddfb);
    RoundsStep(v, k, 3);
    assert Rounds(v, k, 4) == Block(0x1e597a2c, 0x4fa2984f, 0xf71cefed, 0xd685830c);
    RoundsStep(v, k, 4);
    assert Rounds(v, k, 5) == Block(0xf10446c0, 0xc841128b, 0x23f43d26, 0x6cb9f044);
    RoundsStep(v, k, 5);
    assert Rounds(v, k, 6) == Block(0xc3b4ab98, 0xe922b5ea, 0x03be793c, 0x8bb43040);
    RoundsStep(v, k, 6);
    assert Rounds(v, k, 7) == Block(0x5f6fb709, 0x0d893f64, 0x4f121f81, 0x4f730a48);
    RoundsStep(v, k, 7);
    assert Rounds(v, k, 8) == Block(0x618f177a, 0x9920c1d7, 0x1ec12dc0, 0xc43b6eeb);
    RoundsStep(v, k, 8);
    assert Rounds(v, k, 9) == Block(0x7028b1c8, 0xd6594c40, 0x4f2051bb, 0x76d6628e);
    RoundsStep(v, k, 9);
    assert Rounds(v, k, 10) == Block(0x6627e8d5, 0xe169c58d, 0xbc57ac4c, 0x9b00dbd8);
  }

  /** The Random123 vector over the digits of pi: every counter and key word differs. */
  lemma PiVector()
    ensures Philox4x32(Block(0x243f6a88, 0x85a308d3, 0x13198a2e, 0x03707344), Key(0xa4093822, 0x299f31d0))
         == Block(0xd16cfe09, 0x94fdcceb, 0x5001e420, 0x24126ea1)
  {
    hide Rounds, KeyAfter;
    var v, k := Block(0x243f6a88, 0x85a308d3, 0x13198a2e, 0x03707344), Key(0xa4093822, 0x299f31d0);
    RoundsStart(v, k);
    RoundsStep(v, k, 0);
    assert Rounds(v, k, 1) == Block(0x2efd7704, 0xad2d4ba2, 0x3728c377, 0xb37e0218);
    RoundsStep(v, k, 1);
    assert Rounds(v, k, 2) == Block(0xc320345a, 0x20f4f871, 0x70e22dde, 0xdddb124c);
    RoundsStep(v, k, 2);
    assert Rounds(v, k, 3) == Block(0x9a27db43, 0x0524dc72, 0xddfbdc94, 0x8e41df2e);
    RoundsStep(v, k, 3);
    assert Rounds(v, k, 4) == Block(0xc9c7529c, 0xd06d7a4c, 0xab326927, 0x24ac33b9);
    RoundsStep(v, k, 4);
    assert Rounds(v, k, 5) == Block(0x450b009c, 0x131e3741, 0x9654aad8, 0xa9fcac94);
    RoundsStep(v, k, 5);
    assert Rounds(v, k, 6) == Block(0xd0be47ee, 0x222f0768, 0x43e1d190, 0xe1001694);
    RoundsStep(v, k, 6);
    assert Rounds(v, k, 7) == Block(0x4dfccaba, 0x190a87f0, 0xc47362ba, 0xb6b5242a);
    RoundsStep(v, k, 7);
    assert Rounds(v, k, 8) == Block(0x734d1a7d, 0x3162ff36, 0xbfd3c78a, 0x9e5c404e);
    RoundsStep(v, k, 8);
    assert Rounds(v, k, 9) == Block(0x3eb49fbb, 0x7f0bd1e6, 0xc4392c8d, 0xa3c1b987);
    RoundsStep(v, k, 9);
    assert Rounds(v, k, 10) == Block(0xd16cfe09, 0x94fdcceb, 0x5001e420, 0x24126ea1);
  }
}
