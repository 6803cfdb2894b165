/** Published digests worked through row by row: every constant, rotation and byte order of
    the compression function is the one that gives them. */
module KnownAnswers {
  import opened Grid
  import opened World
  import opened Codec
  import opened Sha256
  import Philox
  import Rng

  // ----- eight words and eight rounds at a time

  /** Words 8r to 8r + 7 of a table. */
  function Slice(w: seq<Word>, r: nat): Row
    requires 8 * r + 8 <= |w|
  {
    Row(w[8 * r], w[8 * r + 1], w[8 * r + 2], w[8 * r + 3], w[8 * r + 4], w[8 * r + 5], w[8 * r + 6], w[8 * r + 7])
  }

  /** The schedule words after the sixteen of r0 and r1. */
  function NextRow(r0: Row, r1: Row): Row {
    var a, b := Mix(r0.w0, r0.w1, r1.w1, r1.w6), Mix(r0.w1, r0.w2, r1.w2, r1.w7);
    var c, d := Mix(r0.w2, r0.w3, r1.w3, a), Mix(r0.w3, r0.w4, r1.w4, b);
    var e, f := Mix(r0.w4, r0.w5, r1.w5, c), Mix(r0.w5, r0.w6, r1.w6, d);
    Row(a, b, c, d, e, f, Mix(r0.w6, r0.w7, r1.w7, e), Mix(r0.w7, r1.w0, a, f))
  }

  /** Eight rounds. */
  function Eight(v: Working, k: Row, w: Row): Working {
    var v4 := Round(Round(Round(Round(v, k.w0, w.w0), k.w1, w.w1), k.w2, w.w2), k.w3, w.w3);
    Round(Round(Round(Round(v4, k.w4, w.w4), k.w5, w.w5), k.w6, w.w6), k.w7, w.w7)
  }

  lemma {:induction false} ScheduleAt(block: Bytes, n: nat, i: nat)
    requires |block| == 64 && i < n <= 64
    ensures Schedule(block, n)[i] == ScheduleWord(block, Schedule(block, n), i)
    decreases n
  {
    hide Mix, BigEndianWord;
    if i + 1 < n { ScheduleAt(block, n - 1, i); }
  }

  lemma MixedAt(block: Bytes, i: nat)
    requires |block| == 64 && 16 <= i < 64
    ensures var w := Schedule(block, 64); w[i] == Mix(w[i - 16], w[i - 15], w[i - 7], w[i - 2])
  {
    hide Mix, BigEndianWord, Schedule;
    ScheduleAt(block, 64, i);
  }

  lemma ScheduleRow(block: Bytes, r: nat)
    requires |block| == 64 && 2 <= r < 8
    ensures var w := Schedule(block, 64); Slice(w, r) == NextRow(Slice(w, r - 2), Slice(w, r - 1))
  {
    hide Mix, BigEndianWord, Schedule;
    var w, n := Schedule(block, 64), 8 * r;
    MixedAt(block, n);
    MixedAt(block, n + 1);
    MixedAt(block, n + 2);
    MixedAt(block, n + 3);
    MixedAt(block, n + 4);
    MixedAt(block, n + 5);
    MixedAt(block, n + 6);
    MixedAt(block, n + 7);
  }

  lemma RoundStep(v: Working, w: seq<Word>, n: nat)
    requires n < |w| == 64
    ensures Rounds(v, w, n + 1) == Round(Rounds(v, w, n), K()[n], w[n])
  {
    hide Round, K;
  }

  lemma RoundsRow(v: Working, w: seq<Word>, r: nat)
    requires |w| == 64 && r < 8
    ensures Rounds(v, w, 8 * r + 8) == Eight(Rounds(v, w, 8 * r), Slice(K(), r), Slice(w, r))
  {
    hide Round, Rounds, K;
    var n := 8 * r;
    RoundStep(v, w, n);
    RoundStep(v, w, n + 1);
    RoundStep(v, w, n + 2);
    RoundStep(v, w, n + 3);
    RoundStep(v, w, n + 4);
    RoundStep(v, w, n + 5);
    RoundStep(v, w, n + 6);
    RoundStep(v, w, n + 7);
  }

  lemma KRows()
    ensures Slice(K(), 0) == K0 && Slice(K(), 1) == K1 && Slice(K(), 2) == K2 && Slice(K(), 3) == K3
    ensures Slice(K(), 4) == K4 && Slice(K(), 5) == K5 && Slice(K(), 6) == K6 && Slice(K(), 7) == K7
  {
    hide Row.Words;
    WordsOf(K0, K(), 0);
    WordsOf(K1, K(), 1);
    WordsOf(K2, K(), 2);
    WordsOf(K3, K(), 3);
    WordsOf(K4, K(), 4);
    WordsOf(K5, K(), 5);
    WordsOf(K6, K(), 6);
    WordsOf(K7, K(), 7);
  }

  lemma WordsOf(row: Row, w: seq<Word>, r: nat)
    requires 8 * r + 8 <= |w| && forall i :: 0 <= i < 8 ==> w[8 * r + i] == row.Words()[i]
    ensures Slice(w, r) == row
  {
    var s := row.Words();
    assert w[8 * r + 0] == s[0] && w[8 * r + 1] == s[1] && w[8 * r + 2] == s[2] && w[8 * r + 3] == s[3];
    assert w[8 * r + 4] == s[4] && w[8 * r + 5] == s[5] && w[8 * r + 6] == s[6] && w[8 * r + 7] == s[7];
  }

  /** A schedule worked through in rows, and the working variables around each row of rounds:
      from the words of the block to what its 64 rounds compute. */
  lemma Worked(
    block: Bytes, w0: Row, w1: Row, w2: Row, w3: Row, w4: Row, w5: Row, w6: Row, w7: Row, v0: Working, v1: Working,
    v2: Working, v3: Working, v4: Working, v5: Working, v6: Working, v7: Working, v8: Working)
    requires |block| == 64 && Slice(Schedule(block, 64), 0) == w0 && Slice(Schedule(block, 64), 1) == w1
    requires NextRow(w0, w1) == w2 && NextRow(w1, w2) == w3 && NextRow(w2, w3) == w4
    requires NextRow(w3, w4) == w5 && NextRow(w4, w5) == w6 && NextRow(w5, w6) == w7
    requires Eight(v0, K0, w0) == v1 && Eight(v1, K1, w1) == v2 && Eight(v2, K2, w2) == v3
    requires Eight(v3, K3, w3) == v4 && Eight(v4, K4, w4) == v5 && Eight(v5, K5, w5) == v6
    requires Eight(v6, K6, w6) == v7 && Eight(v7, K7, w7) == v8
    ensures Rounds(v0, Schedule(block, 64), 64) == v8
  {
    hide Slice, NextRow, Eight, Schedule, Rounds, K;
    var s := Schedule(block, 64);
    KRows();
    RoundsStart(v0, s);
    RoundsRow(v0, s, 0);
    RoundsRow(v0, s, 1);
    ScheduleRow(block, 2);
    RoundsRow(v0, s, 2);
    ScheduleRow(block, 3);
    RoundsRow(v0, s, 3);
    ScheduleRow(block, 4);
    RoundsRow(v0, s, 4);
    ScheduleRow(block, 5);
    RoundsRow(v0, s, 5);
    ScheduleRow(block, 6);
    RoundsRow(v0, s, 6);
    ScheduleRow(block, 7);
    RoundsRow(v0, s, 7);
  }

  lemma RoundsStart(v: Working, w: seq<Word>)
    requires |w| == 64
    ensures Rounds(v, w, 0) == v
  {
  }

  function WordAt(block: Bytes, i: nat): Word
    requires 4 * i + 4 <= |block|
  {
    WordOf(block[4 * i], block[4 * i + 1], block[4 * i + 2], block[4 * i + 3])
  }

  /** The first two rows of a schedule are the block itself. */
  lemma BlockRow(block: Bytes, r: nat)
    requires |block| == 64 && r < 2
    ensures Slice(Schedule(block, 64), r)
         == Row(WordAt(block, 8 * r), WordAt(block, 8 * r + 1), WordAt(block, 8 * r + 2), WordAt(block, 8 * r + 3),
                WordAt(block, 8 * r + 4), WordAt(block, 8 * r + 5), WordAt(block, 8 * r + 6), WordAt(block, 8 * r + 7))
  {
    hide WordOf, Schedule;
    forall i: nat | i < 16 ensures Schedule(block, 64)[i] == WordAt(block, i) {
      ScheduleAt(block, 64, i);
    }
  }

  function StateOf(v: Working): HashState { [v.a, v.b, v.c, v.d, v.e, v.f, v.g, v.h] }

  lemma CompressionEnds(s: HashState, block: Bytes, v: Working)
    requires |block| == 64 && s == StateOf(v)
    ensures Compress(s, block) == AddAll(s, Rounds(v, Schedule(block, 64), 64))
  {
    hide Schedule, Rounds, AddAll;
  }

  // ----- one block: the message "abc"

  /** Its schedule, and its working variables around each row of rounds. */
  const A_W0 := Row(0x61626380, 0x00000000, 0x00000000, 0x00000000, 0x00000000, 0x00000000, 0x00000000, 0x00000000)
  const A_W1 := Row(0x00000000, 0x00000000, 0x00000000, 0x00000000, 0x00000000, 0x00000000, 0x00000000, 0x00000018)
  const A_W2 := Row(0x61626380, 0x000f0000, 0x7da86405, 0x600003c6, 0x3e9d7b78, 0x0183fc00, 0x12dcbfdb, 0xe2e2c38e)
  const A_W3 := Row(0xc8215c1a, 0xb73679a2, 0xe5bc3909, 0x32663c5b, 0x9d209d67, 0xec8726cb, 0x702138a4, 0xd3b7973b)
  const A_W4 := Row(0x93f5997f, 0x3b68ba73, 0xaff4ffc1, 0xf10a5c62, 0x0a8b3996, 0x72af830a, 0x9409e33e, 0x24641522)
  const A_W5 := Row(0x9f47bf94, 0xf0a64f5a, 0x3e246a79, 0x27333ba3, 0x0c4763f2, 0x840abf27, 0x7a290d5d, 0x065c43da)
  const A_W6 := Row(0xfb3e89cb, 0xcc7617db, 0xb9e66c34, 0xa9993667, 0x84badedd, 0xc21462bc, 0x1487472c, 0xb20f7a99)
  const A_W7 := Row(0xef57b9cd, 0xebe6b238, 0x9fe3095e, 0x78bc8d4b, 0xa43fcf15, 0x668b2ff8, 0xeeaba2cc, 0x12b1edeb)
  const A_V0 := Working(0x6a09e667, 0xbb67ae85, 0x3c6ef372, 0xa54ff53a, 0x510e527f, 0x9b05688c, 0x1f83d9ab, 0x5be0cd19)
  const A_V1 := Working(0x85a07b5f, 0xe5030380, 0x2b4209f5, 0x04409a6a, 0x0c657a79, 0x9b27a401, 0x714260ad, 0x43ada245)
  const A_V2 := Working(0xb0fa238e, 0xc0645fde, 0xd932eb16, 0x87912990, 0x07590dcd, 0x0b92f20c, 0x745a48de, 0x1e578218)
  const A_V3 := Working(0xc5d53d8d, 0xa7a3623f, 0xc2606d6d, 0x9dc68b63, 0xaa47c347, 0x49f5114a, 0xe1257970, 0x8ada8930)
  const A_V4 := Working(0x73b33bf5, 0xea992a22, 0xa0060b30, 0x363482c9, 0xba591112, 0x0109ab3a, 0xade79437, 0x6112a3b7)
  const A_V5 := Working(0x79ea687a, 0x6dc57a8a, 0x34df1604, 0x41a65cb1, 0x1efbc0a0, 0xf0781bc8, 0xa507a53d, 0x0772a26b)
  const A_V6 := Working(0x4172328d, 0xa14c14b0, 0x72ab4b91, 0x26628815, 0xfecf0bc6, 0xd57b94a9, 0xb7755da1, 0xa80f11f0)
  const A_V7 := Working(0x38cc9913, 0x3ec45cdb, 0xf5702fdb, 0x101fd28f, 0x54cb266b, 0xe50e1b4f, 0x9f4787c3, 0x529e7d00)
  const A_V8 := Working(0x506e3058, 0xd39a2165, 0x04d24d6c, 0xb85e2ce9, 0x5ef50f24, 0xfb121210, 0x948d25b6, 0x961f4894)

  lemma AbcWords2()
    ensures NextRow(A_W0, A_W1) == A_W2
    ensures NextRow(A_W1, A_W2) == A_W3
    ensures NextRow(A_W2, A_W3) == A_W4
  {
  }

  lemma AbcWords5()
    ensures NextRow(A_W3, A_W4) == A_W5
    ensures NextRow(A_W4, A_W5) == A_W6
    ensures NextRow(A_W5, A_W6) == A_W7
  {
  }

  lemma AbcRounds0()
    ensures Eight(A_V0, K0, A_W0) == A_V1
    ensures Eight(A_V1, K1, A_W1) == A_V2
  {
  }

  lemma AbcRounds2()
    ensures Eight(A_V2, K2, A_W2) == A_V3
    ensures Eight(A_V3, K3, A_W3) == A_V4
  {
  }

  lemma AbcRounds4()
    ensures Eight(A_V4, K4, A_W4) == A_V5
    ensures Eight(A_V5, K5, A_W5) == A_V6
  {
  }

  lemma AbcRounds6()
    ensures Eight(A_V6, K6, A_W6) == A_V7
    ensures Eight(A_V7, K7, A_W7) == A_V8
  {
  }

  function AbcBlock(): (b: Bytes)
    ensures |b| == 64 && b[0] == 0x61 && b[1] == 0x62 && b[2] == 0x63 && b[3] == 0x80 && b[63] == 24
    ensures forall i :: 4 <= i < 63 ==> b[i] == 0
  {
    [0x61, 0x62, 0x63, 0x80] + Zeros(59) + [24]
  }

  lemma AbcWords()
    ensures WordOf(0x61, 0x62, 0x63, 0x80) == 0x61626380 && WordOf(0, 0, 0, 0) == 0 && WordOf(0, 0, 0, 24) == 24
  {
  }

  lemma AbcSchedule(r: nat)
    requires r < 2
    ensures Slice(Schedule(AbcBlock(), 64), r) == if r == 0 then A_W0 else A_W1
  {
    hide WordOf, Schedule, AbcBlock;
    AbcWords();
    BlockRow(AbcBlock(), r);
  }

  lemma AbcPadded()
    ensures Padded([0x61, 0x62, 0x63]) == AbcBlock()
  {
    LengthIs24();
    hide LengthField;
    assert Padded([0x61, 0x62, 0x63]) == [0x61, 0x62, 0x63] + [0x80] + Zeros(52) + (Zeros(7) + [24]);
  }

  lemma LengthIs24()
    ensures LengthField([0x61, 0x62, 0x63]) == Zeros(7) + [24]
  {
    assert BigEndian(0, 7) == Zeros(7) by { BigEndianZero(7); }
  }

  lemma BigEndianZero(n: nat)
    ensures BigEndian(0, n) == Zeros(n)
  {
  }

  lemma AbcState()
    ensures AddAll(INITIAL, A_V8)
         == [0xba7816bf, 0x8f01cfea, 0x414140de, 0x5dae2223, 0xb00361a3, 0x96177a9c, 0xb410ff61, 0xf20015ad]
  {
  }

  lemma AbcOutput()
    ensures Output([0xba7816bf, 0x8f01cfea, 0x414140de, 0x5dae2223, 0xb00361a3, 0x96177a9c, 0xb410ff61, 0xf20015ad])
         == [0xba, 0x78, 0x16, 0xbf, 0x8f, 0x01, 0xcf, 0xea, 0x41, 0x41, 0x40, 0xde, 0x5d, 0xae, 0x22, 0x23,
             0xb0, 0x03, 0x61, 0xa3, 0x96, 0x17, 0x7a, 0x9c, 0xb4, 0x10, 0xff, 0x61, 0xf2, 0x00, 0x15, 0xad]
  {
  }

  lemma AbcRuns()
    ensures Rounds(A_V0, Schedule(AbcBlock(), 64), 64) == A_V8
  {
    hide Slice, NextRow, Eight, Schedule, Rounds, K, AbcBlock;
    AbcSchedule(0);
    AbcSchedule(1);
    AbcWords2();
    AbcWords5();
    AbcRounds0();
    AbcRounds2();
    AbcRounds4();
    AbcRounds6();
    Worked(AbcBlock(), A_W0, A_W1, A_W2, A_W3, A_W4, A_W5, A_W6, A_W7,
           A_V0, A_V1, A_V2, A_V3, A_V4, A_V5, A_V6, A_V7, A_V8);
  }

  /** The digest of "abc". */
  lemma AbcDigest()
    ensures Hash([0x61, 0x62, 0x63])
         == [0xba, 0x78, 0x16, 0xbf, 0x8f, 0x01, 0xcf, 0xea, 0x41, 0x41, 0x40, 0xde, 0x5d, 0xae, 0x22, 0x23,
             0xb0, 0x03, 0x61, 0xa3, 0x96, 0x17, 0x7a, 0x9c, 0xb4, 0x10, 0xff, 0x61, 0xf2, 0x00, 0x15, 0xad]
  {
    hide Schedule, Rounds, Compress, AddAll, Output, Padded, AbcBlock;
    AbcPadded();
    AbcRuns();
    AbcState();
    AbcOutput();
    AbsorbBlock([], AbcBlock());
    assert [] + AbcBlock() == AbcBlock();
    CompressionEnds(INITIAL, AbcBlock(), A_V0);
  }

  // ----- two blocks: the scope of a coast draw under the zero seed

  const ZERO_SCOPE := Rng.Scope(Zeros(16), 1, 1, 1, 0, 0)

  /** FrontierDirectorate/RNG/v1 */
  const LITERAL_FRONT: Bytes := [0x46, 0x72, 0x6f, 0x6e, 0x74, 0x69, 0x65, 0x72, 0x44, 0x69, 0x72, 0x65, 0x63]
  const LITERAL_BACK: Bytes := [0x74, 0x6f, 0x72, 0x61, 0x74, 0x65, 0x2f, 0x52, 0x4e, 0x47, 0x2f, 0x76, 0x31]

  lemma ScopePieces()
    ensures Store32(26) == [26, 0, 0, 0] && Store32(16) == [16, 0, 0, 0] && Store32(8) == [8, 0, 0, 0]
    ensures Store32(4) == [4, 0, 0, 0] && Store32(1) == [1, 0, 0, 0] && Store64(0) == Zeros(8)
    ensures Rng.RngLiteral() == LITERAL_FRONT + LITERAL_BACK
  {
  }

  /** The framed scope, byte by byte. */
  function ScopeText(): (b: Bytes)
    ensures |b| == 98
  {
    [26, 0, 0, 0] + LITERAL_FRONT + LITERAL_BACK + [16, 0, 0, 0] + Zeros(16)
    + [4, 0, 0, 0, 1, 0, 0, 0, 4, 0, 0, 0, 1, 0, 0, 0, 4, 0, 0, 0, 1, 0, 0, 0]
    + [8, 0, 0, 0] + Zeros(8) + [8, 0, 0, 0] + Zeros(8)
  }

  lemma ScopeIsText()
    ensures Rng.ScopeBytes(ZERO_SCOPE) == ScopeText()
  {
    ScopePieces();
    hide Store32, Store64, Rng.RngLiteral;
  }

  function ScopeFront(): (b: Bytes)
    ensures |b| == 64
  {
    [26, 0, 0, 0] + LITERAL_FRONT + LITERAL_BACK + [16, 0, 0, 0] + Zeros(16)
    + [4, 0, 0, 0, 1, 0, 0, 0, 4, 0, 0, 0, 1, 0]
  }

  function ScopeBack(): (b: Bytes)
    ensures |b| == 64
  {
    [0, 0, 4, 0, 0, 0, 1, 0, 0, 0] + [8, 0, 0, 0] + Zeros(8) + [8, 0, 0, 0] + Zeros(8)
    + [0x80] + Zeros(27) + [0x03, 0x10]
  }

  lemma TextSplits()
    ensures ScopeText() + [0x80] + Zeros(21) + (Zeros(6) + [0x03, 0x10]) == ScopeFront() + ScopeBack()
  {
  }

  lemma ScopePadded()
    ensures Padded(ScopeText()) == ScopeFront() + ScopeBack()
  {
    hide LengthField;
    LengthIs784(ScopeText());
    TextSplits();
    hide ScopeText, ScopeFront, ScopeBack;
    assert Padded(ScopeText()) == ScopeText() + [0x80] + Zeros(21) + (Zeros(6) + [0x03, 0x10]);
  }

  lemma LengthIs784(m: Bytes)
    requires |m| == 98
    ensures LengthField(m) == Zeros(6) + [0x03, 0x10]
  {
    hide BigEndian;
    BigEndianZero(6);
    BigEndianLast(784, 8);
    BigEndianLast(3, 7);
  }

  lemma BigEndianLast(v: nat, n: nat)
    requires n > 0
    ensures BigEndian(v, n) == BigEndian(v / 256, n - 1) + [v % 256]
  {
  }

  /** The first block of the framed scope. */
  const F_W0 := Row(0x1a000000, 0x46726f6e, 0x74696572, 0x44697265, 0x63746f72, 0x6174652f, 0x524e472f, 0x76311000)
  const F_W1 := Row(0x00000000, 0x00000000, 0x00000000, 0x00000000, 0x00000400, 0x00000100, 0x00000400, 0x00000100)
  const F_W2 := Row(0x6c1938b0, 0xfa4bd2ec, 0xce5b50e5, 0xcaf3e4ea, 0x7179f4d6, 0xb5756b05, 0x61664ec9, 0xfb1979fe)
  const F_W3 := Row(0xe8f197f8, 0x6259b596, 0xc42d39ed, 0x5edb6068, 0xf1afc104, 0x3e94e2bf, 0x13f80b32, 0xf97084f9)
  const F_W4 := Row(0x05757731, 0x17c55bbb, 0x78a7da7e, 0xa34b0f67, 0x0d82dd31, 0xbd41ca63, 0x4cff3e92, 0x6613d695)
  const F_W5 := Row(0xc7296131, 0xf9f9b797, 0x078427f8, 0x40fd5710, 0x86f4e7d9, 0xf1a2ae13, 0x3724c02e, 0x02f9d9cd)
  const F_W6 := Row(0x19c8273f, 0xfca34dda, 0xea196e82, 0xce901dd2, 0x3c1b8ee0, 0xe469afbe, 0xda473cc7, 0x8514c1d4)
  const F_W7 := Row(0x9ac37292, 0xd6064a82, 0x2aac3522, 0x0362aaca, 0x99f27f9b, 0x36a7e09d, 0x187bcd8e, 0x1ed333b9)
  const F_V0 := Working(0x6a09e667, 0xbb67ae85, 0x3c6ef372, 0xa54ff53a, 0x510e527f, 0x9b05688c, 0x1f83d9ab, 0x5be0cd19)
  const F_V1 := Working(0x4e10b4d3, 0x759cd3f1, 0xc350b0cc, 0x976d65c6, 0x4ec71413, 0x5869c569, 0xf6964b0a, 0x156cbf19)
  const F_V2 := Working(0xde3a687b, 0xacdb9305, 0x9a08ad41, 0xd9845848, 0x1ecf19dd, 0x87649493, 0x2a9a3ccb, 0x13b7007e)
  const F_V3 := Working(0xf10581fd, 0xdd442d97, 0xe75f56d9, 0x2e81c30c, 0xfb71438b, 0xf3ff0d9c, 0xb1887023, 0xabdbd79e)
  const F_V4 := Working(0x66bc5dcd, 0x6febb431, 0x719cf903, 0xfd626dc9, 0x071820ab, 0xffe03717, 0x03b60890, 0xbc80c868)
  const F_V5 := Working(0x0b443016, 0xe00d0246, 0xbf610d2f, 0x9a731578, 0x5e5e2a7f, 0x3046f8bf, 0x6d84a850, 0x33654cba)
  const F_V6 := Working(0x6c6ee0c7, 0x2aec8859, 0xb45a8e0b, 0xc860fc8a, 0x255d6d13, 0xadc8b259, 0x803b0bd4, 0xd8773b63)
  const F_V7 := Working(0xa99976b7, 0xfaa7ebda, 0x2fd0a77e, 0x0fe797fe, 0xd9b517bf, 0x7fafda58, 0x652bff65, 0x800b04de)
  const F_V8 := Working(0xecb392e6, 0x294770c3, 0x9e8495f8, 0xe6f734ec, 0x6990a802, 0x475b21c6, 0x2d333da2, 0xaeb49f8e)

  lemma FrontWords2()
    ensures NextRow(F_W0, F_W1) == F_W2
    ensures NextRow(F_W1, F_W2) == F_W3
    ensures NextRow(F_W2, F_W3) == F_W4
  {
  }

  lemma FrontWords5()
    ensures NextRow(F_W3, F_W4) == F_W5
    ensures NextRow(F_W4, F_W5) == F_W6
    ensures NextRow(F_W5, F_W6) == F_W7
  {
  }

  lemma FrontRounds0()
    ensures Eight(F_V0, K0, F_W0) == F_V1
    ensures Eight(F_V1, K1, F_W1) == F_V2
  {
  }

  lemma FrontRounds2()
    ensures Eight(F_V2, K2, F_W2) == F_V3
    ensures Eight(F_V3, K3, F_W3) == F_V4
  {
  }

  lemma FrontRounds4()
    ensures Eight(F_V4, K4, F_W4) == F_V5
    ensures Eight(F_V5, K5, F_W5) == F_V6
  {
  }

  lemma FrontRounds6()
    ensures Eight(F_V6, K6, F_W6) == F_V7
    ensures Eight(F_V7, K7, F_W7) == F_V8
  {
  }

  lemma FrontWords()
    ensures WordOf(0x1a, 0x00, 0x00, 0x00) == 0x1a000000 && WordOf(0x46, 0x72, 0x6f, 0x6e) == 0x46726f6e
    ensures WordOf(0x74, 0x69, 0x65, 0x72) == 0x74696572 && WordOf(0x44, 0x69, 0x72, 0x65) == 0x44697265
    ensures WordOf(0x63, 0x74, 0x6f, 0x72) == 0x63746f72 && WordOf(0x61, 0x74, 0x65, 0x2f) == 0x6174652f
    ensures WordOf(0x52, 0x4e, 0x47, 0x2f) == 0x524e472f && WordOf(0x76, 0x31, 0x10, 0x00) == 0x76311000
    ensures WordOf(0x00, 0x00, 0x00, 0x00) == 0x00000000 && WordOf(0x00, 0x00, 0x04, 0x00) == 0x00000400
    ensures WordOf(0x00, 0x00, 0x01, 0x00) == 0x00000100
  {
  }

  lemma FrontBytes0()
    ensures ScopeFront()[0] == 26 && ScopeFront()[1] == 0 && ScopeFront()[2] == 0 && ScopeFront()[3] == 0
    ensures ScopeFront()[4] == 70 && ScopeFront()[5] == 114 && ScopeFront()[6] == 111 && ScopeFront()[7] == 110
    ensures ScopeFront()[8] == 116 && ScopeFront()[9] == 105 && ScopeFront()[10] == 101 && ScopeFront()[11] == 114
    ensures ScopeFront()[12] == 68 && ScopeFront()[13] == 105 && ScopeFront()[14] == 114 && ScopeFront()[15] == 101
  {
  }

  lemma FrontBytes16()
    ensures ScopeFront()[16] == 99 && ScopeFront()[17] == 116 && ScopeFront()[18] == 111 && ScopeFront()[19] == 114
    ensures ScopeFront()[20] == 97 && ScopeFront()[21] == 116 && ScopeFront()[22] == 101 && ScopeFront()[23] == 47
    ensures ScopeFront()[24] == 82 && ScopeFront()[25] == 78 && ScopeFront()[26] == 71 && ScopeFront()[27] == 47
    ensures ScopeFront()[28] == 118 && ScopeFront()[29] == 49 && ScopeFront()[30] == 16 && ScopeFront()[31] == 0
  {
  }

  lemma FrontBytes32()
    ensures ScopeFront()[32] == 0 && ScopeFront()[33] == 0 && ScopeFront()[34] == 0 && ScopeFront()[35] == 0
    ensures ScopeFront()[36] == 0 && ScopeFront()[37] == 0 && ScopeFront()[38] == 0 && ScopeFront()[39] == 0
    ensures ScopeFront()[40] == 0 && ScopeFront()[41] == 0 && ScopeFront()[42] == 0 && ScopeFront()[43] == 0
    ensures ScopeFront()[44] == 0 && ScopeFront()[45] == 0 && ScopeFront()[46] == 0 && ScopeFront()[47] == 0
  {
  }

  lemma FrontBytes48()
    ensures ScopeFront()[48] == 0 && ScopeFront()[49] == 0 && ScopeFront()[50] == 4 && ScopeFront()[51] == 0
    ensures ScopeFront()[52] == 0 && ScopeFront()[53] == 0 && ScopeFront()[54] == 1 && ScopeFront()[55] == 0
    ensures ScopeFront()[56] == 0 && ScopeFront()[57] == 0 && ScopeFront()[58] == 4 && ScopeFront()[59] == 0
    ensures ScopeFront()[60] == 0 && ScopeFront()[61] == 0 && ScopeFront()[62] == 1 && ScopeFront()[63] == 0
  {
  }

  lemma FrontSchedule(r: nat)
    requires r < 2
    ensures Slice(Schedule(ScopeFront(), 64), r) == if r == 0 then F_W0 else F_W1
  {
    hide WordOf, Schedule, ScopeFront;
    FrontWords();
    BlockRow(ScopeFront(), r);
    if r == 0 {
      FrontBytes0();
      FrontBytes16();
    } else {
      FrontBytes32();
      FrontBytes48();
    }
  }

  lemma FrontRuns()
    ensures Rounds(F_V0, Schedule(ScopeFront(), 64), 64) == F_V8
  {
    hide Slice, NextRow, Eight, Schedule, Rounds, K, ScopeFront;
    FrontSchedule(0);
    FrontSchedule(1);
    FrontWords2();
    FrontWords5();
    FrontRounds0();
    FrontRounds2();
    FrontRounds4();
    FrontRounds6();
    Worked(ScopeFront(), F_W0, F_W1, F_W2, F_W3, F_W4, F_W5, F_W6, F_W7,
           F_V0, F_V1, F_V2, F_V3, F_V4, F_V5, F_V6, F_V7, F_V8);
  }

  /** The second block. */
  const B_W0 := Row(0x00000400, 0x00000100, 0x00000800, 0x00000000, 0x00000000, 0x00000800, 0x00000000, 0x00000000)
  const B_W1 := Row(0x00008000, 0x00000000, 0x00000000, 0x00000000, 0x00000000, 0x00000000, 0x00000000, 0x00000310)
  const B_W2 := Row(0x00400422, 0x03ea0210, 0x02955829, 0x414afb08, 0x0911055e, 0x22f58232, 0xa20684fb, 0x9197fd66)
  const B_W3 := Row(0x96b4a6f2, 0x03d1572f, 0x08cdafad, 0x8a839b25, 0x85169846, 0x60db59f2, 0x5166d559, 0xa393f53e)
  const B_W4 := Row(0x5523cb37, 0x9525d413, 0xd06ad6da, 0x13780576, 0x9c065bdc, 0xb8a7a274, 0x4c95ca81, 0xea5e038a)
  const B_W5 := Row(0x93946e6e, 0xc6ae5a86, 0x93b04ab8, 0x48656692, 0xa8943831, 0xdad2dc32, 0x6b748ee2, 0x0395d1e8)
  const B_W6 := Row(0x3313e017, 0x95bb3f03, 0x93ea6cf9, 0xf0a0f519, 0x0998ce44, 0x01dbe1af, 0x57924716, 0x7f21fbc3)
  const B_W7 := Row(0x18c4d969, 0x8f1e2cb7, 0xf029d223, 0x9e3cec10, 0x47bceecf, 0x0813d946, 0x7955c032, 0x83e60454)
  const B_V0 := Working(0x56bd794d, 0xe4af1f48, 0xdaf3896a, 0x8c472a26, 0xba9efa81, 0xe2608a52, 0x4cb7174d, 0x0a956ca7)
  const B_V1 := Working(0xaf8b6fb6, 0xb26c8056, 0x306fa528, 0x2cbd8ad1, 0xeabcd63a, 0x7f03a2a7, 0x76062079, 0x8c639a98)
  const B_V2 := Working(0xe88094b0, 0x9d11c542, 0x1560a5d5, 0xd7c7a6d0, 0x87198916, 0x410d74d5, 0xc1e9e93f, 0x26d34757)
  const B_V3 := Working(0xd98ee5e9, 0xaec49e5f, 0x96236f11, 0x9d07b243, 0x82ce448e, 0x6f0697f1, 0xc1e96b29, 0x2d72e0ad)
  const B_V4 := Working(0x7ae58146, 0x984a585a, 0x0cf9b070, 0xe14cb19d, 0x606cf342, 0xac33e79d, 0x796da7b0, 0xeb0b53ca)
  const B_V5 := Working(0x8ac635c8, 0xfa22fa1c, 0x4baf70ca, 0xed1b8177, 0x588b06b4, 0x38081f17, 0xae61c20b, 0x0b77067d)
  const B_V6 := Working(0xab246af6, 0xe3c6cafd, 0xa4dc0421, 0x78307788, 0x28d4bba4, 0xa3196b9c, 0x79f0f81f, 0x5752db9e)
  const B_V7 := Working(0x270abd36, 0x6dfd8311, 0x4236e489, 0x30796352, 0xf27ab888, 0xe7243037, 0x44353da5, 0xfa102256)
  const B_V8 := Working(0x2f89b1d1, 0x35f2da9f, 0x6f7a87e2, 0x3cc23689, 0xf771cb9f, 0x7d0bde76, 0xd0fb5f61, 0xa322a5e5)

  lemma BackWords2()
    ensures NextRow(B_W0, B_W1) == B_W2
    ensures NextRow(B_W1, B_W2) == B_W3
    ensures NextRow(B_W2, B_W3) == B_W4
  {
  }

  lemma BackWords5()
    ensures NextRow(B_W3, B_W4) == B_W5
    ensures NextRow(B_W4, B_W5) == B_W6
    ensures NextRow(B_W5, B_W6) == B_W7
  {
  }

  lemma BackRounds0()
    ensures Eight(B_V0, K0, B_W0) == B_V1
    ensures Eight(B_V1, K1, B_W1) == B_V2
  {
  }

  lemma BackRounds2()
    ensures Eight(B_V2, K2, B_W2) == B_V3
    ensures Eight(B_V3, K3, B_W3) == B_V4
  {
  }

  lemma BackRounds4()
    ensures Eight(B_V4, K4, B_W4) == B_V5
    ensures Eight(B_V5, K5, B_W5) == B_V6
  {
  }

  lemma BackRounds6()
    ensures Eight(B_V6, K6, B_W6) == B_V7
    ensures Eight(B_V7, K7, B_W7) == B_V8
  {
  }

  lemma BackWords()
    ensures WordOf(0x00, 0x00, 0x04, 0x00) == 0x00000400 && WordOf(0x00, 0x00, 0x01, 0x00) == 0x00000100
    ensures WordOf(0x00, 0x00, 0x08, 0x00) == 0x00000800 && WordOf(0x00, 0x00, 0x00, 0x00) == 0x00000000
    ensures WordOf(0x00, 0x00, 0x80, 0x00) == 0x00008000 && WordOf(0x00, 0x00, 0x03, 0x10) == 0x00000310
  {
  }

  lemma BackBytes0()
    ensures ScopeBack()[0] == 0 && ScopeBack()[1] == 0 && ScopeBack()[2] == 4 && ScopeBack()[3] == 0
    ensures ScopeBack()[4] == 0 && ScopeBack()[5] == 0 && ScopeBack()[6] == 1 && ScopeBack()[7] == 0
    ensures ScopeBack()[8] == 0 && ScopeBack()[9] == 0 && ScopeBack()[10] == 8 && ScopeBack()[11] == 0
    ensures ScopeBack()[12] == 0 && ScopeBack()[13] == 0 && ScopeBack()[14] == 0 && ScopeBack()[15] == 0
  {
  }

  lemma BackBytes16()
    ensures ScopeBack()[16] == 0 && ScopeBack()[17] == 0 && ScopeBack()[18] == 0 && ScopeBack()[19] == 0
    ensures ScopeBack()[20] == 0 && ScopeBack()[21] == 0 && ScopeBack()[22] == 8 && ScopeBack()[23] == 0
    ensures ScopeBack()[24] == 0 && ScopeBack()[25] == 0 && ScopeBack()[26] == 0 && ScopeBack()[27] == 0
    ensures ScopeBack()[28] == 0 && ScopeBack()[29] == 0 && ScopeBack()[30] == 0 && ScopeBack()[31] == 0
  {
  }

  lemma BackBytes32()
    ensures ScopeBack()[32] == 0 && ScopeBack()[33] == 0 && ScopeBack()[34] == 128 && ScopeBack()[35] == 0
    ensures ScopeBack()[36] == 0 && ScopeBack()[37] == 0 && ScopeBack()[38] == 0 && ScopeBack()[39] == 0
    ensures ScopeBack()[40] == 0 && ScopeBack()[41] == 0 && ScopeBack()[42] == 0 && ScopeBack()[43] == 0
    ensures ScopeBack()[44] == 0 && ScopeBack()[45] == 0 && ScopeBack()[46] == 0 && ScopeBack()[47] == 0
  {
  }

  lemma BackBytes48()
    ensures ScopeBack()[48] == 0 && ScopeBack()[49] == 0 && ScopeBack()[50] == 0 && ScopeBack()[51] == 0
    ensures ScopeBack()[52] == 0 && ScopeBack()[53] == 0 && ScopeBack()[54] == 0 && ScopeBack()[55] == 0
    ensures ScopeBack()[56] == 0 && ScopeBack()[57] == 0 && ScopeBack()[58] == 0 && ScopeBack()[59] == 0
    ensures ScopeBack()[60] == 0 && ScopeBack()[61] == 0 && ScopeBack()[62] == 3 && ScopeBack()[63] == 16
  {
  }

  lemma BackSchedule(r: nat)
    requires r < 2
    ensures Slice(Schedule(ScopeBack(), 64), r) == if r == 0 then B_W0 else B_W1
  {
    hide WordOf, Schedule, ScopeBack;
    BackWords();
    BlockRow(ScopeBack(), r);
    if r == 0 {
      BackBytes0();
      BackBytes16();
    } else {
      BackBytes32();
      BackBytes48();
    }
  }

  lemma BackRuns()
    ensures Rounds(B_V0, Schedule(ScopeBack(), 64), 64) == B_V8
  {
    hide Slice, NextRow, Eight, Schedule, Rounds, K, ScopeBack;
    BackSchedule(0);
    BackSchedule(1);
    BackWords2();
    BackWords5();
    BackRounds0();
    BackRounds2();
    BackRounds4();
    BackRounds6();
    Worked(ScopeBack(), B_W0, B_W1, B_W2, B_W3, B_W4, B_W5, B_W6, B_W7,
           B_V0, B_V1, B_V2, B_V3, B_V4, B_V5, B_V6, B_V7, B_V8);
  }

  lemma ScopeStates()
    ensures AddAll(INITIAL, F_V8) == StateOf(B_V0)
    ensures AddAll(StateOf(B_V0), B_V8)
         == [0x86472b1e, 0x1aa1f9e7, 0x4a6e114c, 0xc90960af, 0xb210c620, 0x5f6c68c8, 0x1db276ae, 0xadb8128c]
  {
  }

  function ScopeDigestBytes(): Digest {
    [0x86, 0x47, 0x2b, 0x1e, 0x1a, 0xa1, 0xf9, 0xe7, 0x4a, 0x6e, 0x11, 0x4c, 0xc9, 0x09, 0x60, 0xaf]
    + [0xb2, 0x10, 0xc6, 0x20, 0x5f, 0x6c, 0x68, 0xc8, 0x1d, 0xb2, 0x76, 0xae, 0xad, 0xb8, 0x12, 0x8c]
  }

  lemma ScopeOutput()
    ensures Output([0x86472b1e, 0x1aa1f9e7, 0x4a6e114c, 0xc90960af, 0xb210c620, 0x5f6c68c8, 0x1db276ae, 0xadb8128c])
         == ScopeDigestBytes()
  {
  }

  /** The digest of the framed scope of the first coast draw under the zero seed. */
  lemma ScopeDigest()
    ensures Hash(Rng.ScopeBytes(ZERO_SCOPE)) == ScopeDigestBytes()
  {
    hide Schedule, Rounds, Compress, AddAll, Output, Padded, ScopeFront, ScopeBack, ScopeText, Rng.ScopeBytes,
      ScopeDigestBytes;
    ScopeIsText();
    ScopePadded();
    FrontRuns();
    BackRuns();
    ScopeStates();
    ScopeOutput();
    AbsorbBlock([], ScopeFront());
    assert [] + ScopeFront() == ScopeFront();
    AbsorbBlock(ScopeFront(), ScopeBack());
    CompressionEnds(INITIAL, ScopeFront(), F_V0);
    CompressionEnds(StateOf(B_V0), ScopeBack(), B_V0);
  }

  // ----- the first coast draw under the zero seed

  lemma ScopeLoads()
    ensures Load32(ScopeDigestBytes(), 0) == 0x1e2b4786 && Load32(ScopeDigestBytes(), 4) == 0xe7f9a11a
    ensures Load32(ScopeDigestBytes(), 8) == 0x4c116e4a && Load32(ScopeDigestBytes(), 12) == 0xaf6009c9
    ensures Load32(ScopeDigestBytes(), 16) == 0x20c610b2 && Load32(ScopeDigestBytes(), 20) == 0xc8686c5f
    ensures Load32(ScopeDigestBytes(), 24) == 0xae76b21d && Load32(ScopeDigestBytes(), 28) == 0x8c12b8ad
  {
  }

  lemma LoadedWords()
    ensures Rng.ToWord(0x1e2b4786) == 0x1e2b4786 && Rng.ToWord(0xe7f9a11a) == 0xe7f9a11a
    ensures Rng.ToWord(0x4c116e4a) == 0x4c116e4a && Rng.ToWord(0xaf6009c9) == 0xaf6009c9
    ensures Rng.ToWord(0x20c610b2) == 0x20c610b2 && Rng.ToWord(0xc8686c5f) == 0xc8686c5f
    ensures Rng.ToWord(0xae76b21d) == 0xae76b21d && Rng.ToWord(0x8c12b8ad) == 0x8c12b8ad
  {
  }

  lemma ScopeWords()
    ensures Rng.DigestWord(ScopeDigestBytes(), 0) == 0x1e2b4786 && Rng.DigestWord(ScopeDigestBytes(), 1) == 0xe7f9a11a
    ensures Rng.DigestWord(ScopeDigestBytes(), 2) == 0x4c116e4a && Rng.DigestWord(ScopeDigestBytes(), 3) == 0xaf6009c9
    ensures Rng.DigestWord(ScopeDigestBytes(), 4) == 0x20c610b2 && Rng.DigestWord(ScopeDigestBytes(), 5) == 0xc8686c5f
    ensures Rng.DigestWord(ScopeDigestBytes(), 6) == 0xae76b21d && Rng.DigestWord(ScopeDigestBytes(), 7) == 0x8c12b8ad
  {
    hide Load32, Rng.ToWord, ScopeDigestBytes;
    ScopeLoads();
    LoadedWords();
  }

  lemma FacingCounter()
    ensures Rng.DrawKey(ScopeDigestBytes()) == Philox.Key(0xb05df59b, 0x6beb19b7)
    ensures Rng.DrawCounter(ScopeDigestBytes(), 0, 0x0101, 0)
         == Philox.Block(0x4c116e4a, 0xaf6009c9, 0x20c611b3, 0xc8686c5f)
  {
    hide ScopeDigestBytes, Rng.DigestWord;
    ScopeWords();
  }

  /** Site 0x0101 draws which side the sea is on. */
  lemma FacingBlock()
    ensures Rng.DrawBlock(ScopeDigestBytes(), 0, 0x0101, 0)
         == Philox.Block(0xa5f21f42, 0x7a4e8472, 0xc46cb41e, 0x89969bc3)
  {
    hide ScopeDigestBytes, Rng.DrawKey, Rng.DrawCounter, Philox.Rounds, Philox.KeyAfter;
    FacingCounter();
    var v, k := Rng.DrawCounter(ScopeDigestBytes(), 0, 0x0101, 0), Rng.DrawKey(ScopeDigestBytes());
    Philox.RoundsStart(v, k);
    Philox.RoundsStep(v, k, 0);
    assert Philox.Rounds(v, k, 1) == Philox.Block(0x056f14d1, 0x7e899ad5, 0x9dfd12a3, 0x5f6bb7fe);
    Philox.RoundsStep(v, k, 1);
    assert Philox.Rounds(v, k, 2) == Philox.Block(0x4ef974d9, 0x1bdf1c65, 0x7c4fa821, 0x3eaa0ec3);
    Philox.RoundsStep(v, k, 2);
    assert Philox.Rounds(v, k, 3) == Philox.Block(0x94cb3206, 0x500a5037, 0x9cf1d073, 0xcab0295b);
    Philox.RoundsStep(v, k, 3);
    assert Philox.Rounds(v, k, 4) == Philox.Block(0xa500e520, 0x43f72e15, 0x2eafd995, 0x98d5f1f2);
    Philox.RoundsStep(v, k, 4);
    assert Philox.Rounds(v, k, 5) == Philox.Block(0x4fb349e1, 0x539002a3, 0x46d32754, 0x5a292960);
    Philox.RoundsStep(v, k, 5);
    assert Philox.Rounds(v, k, 6) == Philox.Block(0xac01a771, 0xe843a18c, 0x0fa2ff25, 0x7f4432f3);
    Philox.RoundsStep(v, k, 6);
    assert Philox.Rounds(v, k, 7) == Philox.Block(0x81665bf1, 0x30c21693, 0x2252deca, 0xa490f8a3);
    Philox.RoundsStep(v, k, 7);
    assert Philox.Rounds(v, k, 8) == Philox.Block(0x28b1c1b9, 0x918af8a6, 0x451edf5d, 0x2292fe23);
    Philox.RoundsStep(v, k, 8);
    assert Philox.Rounds(v, k, 9) == Philox.Block(0x0417b3d1, 0xd2ea219b, 0x44d4c5de, 0xc5a035fb);
    Philox.RoundsStep(v, k, 9);
    assert Philox.Rounds(v, k, 10) == Philox.Block(0xa5f21f42, 0x7a4e8472, 0xc46cb41e, 0x89969bc3);
  }

  /** The first draw of the zero seed: an accepted candidate that puts the sea in the west. */
  lemma FacingDraw()
    ensures Rng.Candidate(Hash(Rng.ScopeBytes(ZERO_SCOPE)), 0, 0x0101, 0, 0) == 0xa5f21f42
    ensures Rng.BoundedBy(Hash(Rng.ScopeBytes(ZERO_SCOPE)), 0, 0x0101, 2, Rng.Drawn(0))
  {
    hide ScopeDigestBytes, Rng.DrawBlock, Hash, Rng.ScopeBytes;
    ScopeDigest();
    FacingBlock();
  }
}
