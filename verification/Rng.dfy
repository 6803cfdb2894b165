/** Stateless random draws: scope digest, counter derivation and bounded sampling. */
module Rng {
  import opened Grid
  import opened World
  import opened Codec
  import opened Hashing
  import opened Philox
  import Sha256

  function RngLiteral(): (b: Bytes)
    ensures |b| == 26
  {
    Text("FrontierDirectorate/RNG/v1")
  }

  /** What selects one stream of draws: everything fd_rng_digest hashes. */
  datatype Scope = Scope(seed: Bytes, generatorVersion: u32, rulesetVersion: u32,
                         domainId: u32, subjectId: u64, occurrenceId: u64)
  {
    predicate Valid() { |seed| == 16 }
  }

  // ----- the scope digest

  /** A field behind its own length. */
  function Framed(field: Bytes): (b: Bytes)
    requires |field| < 0x1_0000_0000
    ensures |b| == 4 + |field|
  {
    Store32(|field|) + field
  }

  function ScopeBytes(s: Scope): (b: Bytes)
    requires s.Valid()
    ensures |b| == 98
  {
    hide RngLiteral;
    Framed(RngLiteral()) + Framed(s.seed) + Framed(Store32(s.generatorVersion)) + Framed(Store32(s.rulesetVersion))
    + Framed(Store32(s.domainId)) + Framed(Store64(s.subjectId)) + Framed(Store64(s.occurrenceId))
  }

  /** Different scopes feed different bytes to the digest. */
  lemma ScopeBytesInjective(a: Scope, b: Scope)
    requires a.Valid() && b.Valid() && ScopeBytes(a) == ScopeBytes(b)
    ensures a == b
  {
    hide Store32, Store64, RngLiteral;
    forall s: Scope | s.Valid()
      ensures ScopeBytes(s)[34..50] == s.seed
      ensures Load32(ScopeBytes(s), 54) == s.generatorVersion && Load32(ScopeBytes(s), 62) == s.rulesetVersion
      ensures Load32(ScopeBytes(s), 70) == s.domainId
      ensures Load64(ScopeBytes(s), 78) == s.subjectId && Load64(ScopeBytes(s), 90) == s.occurrenceId
    {
      LoadStored32(ScopeBytes(s), 54, s.generatorVersion);
      LoadStored32(ScopeBytes(s), 62, s.rulesetVersion);
      LoadStored32(ScopeBytes(s), 70, s.domainId);
      LoadStored64(ScopeBytes(s), 78, s.subjectId);
      LoadStored64(ScopeBytes(s), 90, s.occurrenceId);
    }
  }

  method FeedField(sha: Sha256.Context, field: Bytes)
    requires sha.Valid() && |field| < 0x1_0000_0000
    modifies sha, sha.state, sha.block
    ensures sha.Valid() && sha.fed == old(sha.fed) + Framed(field)
  {
    hide Sha256.Context.Valid, Store32;
    sha.Update(Store32(|field|));
    sha.Update(field);
    assert sha.fed == old(sha.fed) + (Store32(|field|) + field);
  }

  /** The fields common to every draw of one world. */
  method StartScope(s: Scope) returns (sha: Sha256.Context)
    requires s.Valid()
    ensures fresh(sha) && fresh(sha.state) && fresh(sha.block) && sha.Valid()
    ensures sha.fed == Framed(RngLiteral()) + Framed(s.seed) + Framed(Store32(s.generatorVersion))
                       + Framed(Store32(s.rulesetVersion))
  {
    hide Sha256.Hash, Sha256.Context.Valid, Store32, RngLiteral, Framed;
    sha := new Sha256.Context();
    FeedField(sha, RngLiteral());
    assert sha.fed == Framed(RngLiteral());
    FeedField(sha, s.seed);
    FeedField(sha, Store32(s.generatorVersion));
    FeedField(sha, Store32(s.rulesetVersion));
  }

  /** fd_rng_digest: the fields streamed one by one hash as one string. */
  method RngDigest(s: Scope) returns (digest: Digest)
    requires s.Valid()
    ensures digest == Sha256.Hash(ScopeBytes(s))
  {
    hide Sha256.Hash, Sha256.Context.Valid, Store32, Store64, RngLiteral, Framed;
    var sha := StartScope(s);
    FeedField(sha, Store32(s.domainId));
    FeedField(sha, Store64(s.subjectId));
    FeedField(sha, Store64(s.occurrenceId));
    digest := sha.Final();
  }

  // ----- one draw

  /** The scope digest as eight words. */
  function ToWord(v: u32): Word { v as bv32 }

  function DigestWord(digest: Digest, k: nat): Word
    requires k < 8
  {
    ToWord(Load32(digest, 4 * k))
  }

  function Xor(x: Word, y: Word): Word { x ^ y }

  function DrawKey(digest: Digest): Key {
    Key(Xor(DigestWord(digest, 0), DigestWord(digest, 6)), Xor(DigestWord(digest, 1), DigestWord(digest, 7)))
  }

  function LowHalf(sample: bv64): Word { (sample & 0xFFFF_FFFF) as bv32 }

  function HighHalf(sample: bv64): Word { (sample >> 32) as bv32 }

  function DrawCounter(digest: Digest, sample: bv64, site: Word, retry: Word): Block {
    Block(Xor(DigestWord(digest, 2), LowHalf(sample)), Xor(DigestWord(digest, 3), HighHalf(sample)),
          Xor(DigestWord(digest, 4), site), Xor(DigestWord(digest, 5), retry))
  }

  /** The four words drawn for one sample, site and retry block of a scope. */
  function DrawBlock(digest: Digest, sample: bv64, site: Word, retry: Word): Block {
    Philox4x32(DrawCounter(digest, sample, site, retry), DrawKey(digest))
  }

  lemma XorInjective(mask: Word, x: Word, y: Word)
    requires Xor(mask, x) == Xor(mask, y)
    ensures x == y
  {
  }

  lemma HalvesInjective(x: bv64, y: bv64)
    requires LowHalf(x) == LowHalf(y) && HighHalf(x) == HighHalf(y)
    ensures x == y
  {
  }

  lemma CounterInjective(digest: Digest, sample: bv64, site: Word, retry: Word,
                         sample': bv64, site': Word, retry': Word)
    requires DrawCounter(digest, sample, site, retry) == DrawCounter(digest, sample', site', retry')
    ensures sample == sample' && site == site' && retry == retry'
  {
    hide LowHalf, HighHalf, DigestWord, Xor;
    XorInjective(DigestWord(digest, 2), LowHalf(sample), LowHalf(sample'));
    XorInjective(DigestWord(digest, 3), HighHalf(sample), HighHalf(sample'));
    XorInjective(DigestWord(digest, 4), site, site');
    XorInjective(DigestWord(digest, 5), retry, retry');
    HalvesInjective(sample, sample');
  }

  /** Within one scope, two draws share their four words only when they are the same draw. */
  lemma DistinctDraws(digest: Digest, sample: bv64, site: Word, retry: Word,
                      sample': bv64, site': Word, retry': Word)
    ensures DrawBlock(digest, sample, site, retry) == DrawBlock(digest, sample', site', retry')
            <==> sample == sample' && site == site' && retry == retry'
  {
    hide DrawCounter, DrawKey, Philox4x32;
    Bijection(DrawKey(digest), DrawCounter(digest, sample, site, retry), DrawCounter(digest, sample', site', retry'));
    if DrawCounter(digest, sample, site, retry) == DrawCounter(digest, sample', site', retry') {
      CounterInjective(digest, sample, site, retry, sample', site', retry');
    }
  }

  function Lane(b: Block, lane: nat): Word
    requires lane < 4
  {
    if lane == 0 then b.w0 else if lane == 1 then b.w1 else if lane == 2 then b.w2 else b.w3
  }

  // ----- bounded draws

  const RANGE: nat := 0x1_0000_0000
  const RETRY_BLOCKS: Word := 256

  function Number(w: Word): u32 { w as int }

  /** One candidate of a bounded draw: a lane of one retry block. */
  function Candidate(digest: Digest, sample: bv64, site: Word, block: Word, lane: nat): (c: u32)
    requires lane < 4
  {
    Number(Lane(DrawBlock(digest, sample, site, block), lane))
  }

  datatype Draw = Drawn(value: u32) | InvalidArgument | Capacity

  /** Every candidate before the given one, in block then lane order, is below the threshold. */
  ghost predicate AllRejected(digest: Digest, sample: bv64, site: Word, threshold: nat, block: Word, lane: nat) {
    forall b: Word, l: nat :: l < 4 && (b < block || (b == block && l < lane)) ==>
      Candidate(digest, sample, site, b, l) < threshold
  }

  /** Capacity exactly when all 256 blocks of four are rejected, and otherwise the first
      accepted candidate, reduced. */
  ghost predicate BoundedBy(digest: Digest, sample: bv64, site: Word, bound: u32, draw: Draw)
    requires bound > 0
  {
    var threshold := 0x1_0000_0000 % bound;
    if draw == Capacity then AllRejected(digest, sample, site, threshold, 256, 0)
    else
      exists block: Word, lane: nat ::
        && block < 256 && lane < 4 && AllRejected(digest, sample, site, threshold, block, lane)
        && Candidate(digest, sample, site, block, lane) >= threshold
        && draw == Drawn(Candidate(digest, sample, site, block, lane) % bound)
  }

  /** fd_rng_bounded: the first candidate at or above 2^32 mod bound, reduced. */
  method Bounded(s: Scope, sample: bv64, site: Word, bound: u32) returns (draw: Draw)
    requires s.Valid()
    ensures draw == InvalidArgument <==> bound == 0
    ensures bound > 0 ==> BoundedBy(Sha256.Hash(ScopeBytes(s)), sample, site, bound, draw)
  {
    hide Sha256.Hash, ScopeBytes, DrawBlock, Lane, Number, WordDrawn;
    if bound == 0 {
      return InvalidArgument;
    }
    var threshold := RANGE % bound;
    ghost var digest := Sha256.Hash(ScopeBytes(s));
    var block: Word := 0;
    while block < RETRY_BLOCKS
      invariant block <= RETRY_BLOCKS && AllRejected(digest, sample, site, threshold, block, 0)
      decreases RETRY_BLOCKS - block
    {
      var lane: nat := 0;
      while lane < 4
        invariant lane <= 4 && AllRejected(digest, sample, site, threshold, block, lane)
      {
        var word := RetryWord(s, sample, site, block, lane);
        var value := Number(word);
        assert value == Candidate(digest, sample, site, block, lane);
        if value >= threshold {
          return Drawn(value % bound);
        }
        lane := lane + 1;
      }
      NextBlock(digest, sample, site, threshold, block);
      block := block + 1;
    }
    return Capacity;
  }

  lemma NextBlock(digest: Digest, sample: bv64, site: Word, threshold: nat, block: Word)
    requires block < RETRY_BLOCKS && AllRejected(digest, sample, site, threshold, block, 4)
    ensures AllRejected(digest, sample, site, threshold, block + 1, 0)
  {
    hide Candidate;
    forall b: Word, l: nat | l < 4 && b < block + 1 ensures Candidate(digest, sample, site, b, l) < threshold {
      assert b < block || b == block;
    }
  }

  /** Words 0 and 1 of the digest, masked by words 6 and 7, are the key.  Words 2 to 5, masked
      by the two halves of the sample, the site and the retry block, are the counter. */
  ghost predicate WordDrawn(digest: Digest, sample: bv64, site: bv32, retry: bv32, lane: nat, word: bv32) {
    var key := Key(ToWord(Load32(digest, 0)) ^ ToWord(Load32(digest, 24)),
                   ToWord(Load32(digest, 4)) ^ ToWord(Load32(digest, 28)));
    var counter := Block(ToWord(Load32(digest, 8)) ^ ((sample & 0xFFFF_FFFF) as bv32),
                         ToWord(Load32(digest, 12)) ^ ((sample >> 32) as bv32),
                         ToWord(Load32(digest, 16)) ^ site, ToWord(Load32(digest, 20)) ^ retry);
    var out := Philox4x32(counter, key);
    lane < 4 && word == [out.w0, out.w1, out.w2, out.w3][lane]
  }

  lemma KeyWords(digest: Digest)
    ensures DrawKey(digest) == Key(ToWord(Load32(digest, 0)) ^ ToWord(Load32(digest, 24)),
                                   ToWord(Load32(digest, 4)) ^ ToWord(Load32(digest, 28)))
  {
    hide ToWord, Load32;
  }

  lemma CounterWords(digest: Digest, sample: bv64, site: bv32, retry: bv32)
    ensures DrawCounter(digest, sample, site, retry)
         == Block(ToWord(Load32(digest, 8)) ^ ((sample & 0xFFFF_FFFF) as bv32),
                  ToWord(Load32(digest, 12)) ^ ((sample >> 32) as bv32),
                  ToWord(Load32(digest, 16)) ^ site, ToWord(Load32(digest, 20)) ^ retry)
  {
    hide ToWord, Load32;
  }

  lemma LaneIsDrawn(digest: Digest, sample: bv64, site: bv32, retry: bv32, lane: nat)
    requires lane < 4
    ensures WordDrawn(digest, sample, site, retry, lane, Lane(DrawBlock(digest, sample, site, retry), lane))
  {
    hide ToWord, Load32, Philox4x32, DrawKey, DrawCounter;
    KeyWords(digest);
    CounterWords(digest, sample, site, retry);
  }

  /** fd_rng_u32_retry */
  method RetryWord(s: Scope, sample: bv64, site: Word, retry: Word, lane: nat) returns (word: Word)
    requires s.Valid() && lane < 4
    ensures word == Lane(DrawBlock(Sha256.Hash(ScopeBytes(s)), sample, site, retry), lane)
    ensures WordDrawn(Sha256.Hash(ScopeBytes(s)), sample, site, retry, lane, word)
  {
    hide Sha256.Hash, ScopeBytes, DigestWord, LowHalf, HighHalf, Xor, Philox4x32, WordDrawn;
    var digest := RngDigest(s);
    var key := [Xor(DigestWord(digest, 0), DigestWord(digest, 6)), Xor(DigestWord(digest, 1), DigestWord(digest, 7))];
    var counter := [Xor(DigestWord(digest, 2), LowHalf(sample)), Xor(DigestWord(digest, 3), HighHalf(sample)),
                    Xor(DigestWord(digest, 4), site), Xor(DigestWord(digest, 5), retry)];
    var output := RunPhilox(counter, key);
    word := output[lane];
    LaneIsDrawn(digest, sample, site, retry, lane);
  }

  // ----- exact uniformity

  ghost function Preimages(low: nat, high: nat, bound: nat, residue: nat): set<nat>
    requires bound > 0
  {
    set v: nat | low <= v < high && v % bound == residue
  }

  /** Any bound consecutive integers hold each residue exactly once. */
  lemma {:induction false} OneInWindow(low: nat, bound: nat, residue: nat) returns (v: nat)
    requires residue < bound
    ensures Preimages(low, low + bound, bound, residue) == {v} && low <= v < low + bound
  {
    var r := low % bound;
    v := if r <= residue then low + (residue - r) else low + (residue + bound - r);
    var q := low / bound;
    assert low == q * bound + r;
    if r <= residue {
      DivModUnique(bound, residue, q, v);
    } else {
      assert (q + 1) * bound == q * bound + bound;
      DivModUnique(bound, residue, q + 1, v);
    }
    forall u: nat | low <= u < low + bound && u % bound == residue ensures u == v {
      SameResidue(bound, u, v);
    }
  }

  lemma SameResidue(bound: nat, u: nat, v: nat)
    requires bound > 0 && u % bound == v % bound && u < v + bound && v < u + bound
    ensures u == v
  {
    var a, b := u / bound, v / bound;
    if a < b { RowBefore(a, b, bound); }
    if b < a { RowBefore(b, a, bound); }
  }

  lemma {:induction false} PreimageCount(low: nat, windows: nat, bound: nat, residue: nat)
    requires residue < bound
    ensures |Preimages(low, low + windows * bound, bound, residue)| == windows
  {
    if windows == 0 {
      assert Preimages(low, low, bound, residue) == {};
    } else {
      var middle := low + (windows - 1) * bound;
      assert low + windows * bound == middle + bound;
      PreimageCount(low, windows - 1, bound, residue);
      var v := OneInWindow(middle, bound, residue);
      MulMono(0, windows - 1, bound);
      assert Preimages(low, middle + bound, bound, residue) == Preimages(low, middle, bound, residue) + {v};
    }
  }

  /** Every residue below the bound has exactly floor(2^32 / bound) accepted candidates, so
      an accepted candidate reduced modulo the bound is exactly uniform. */
  lemma Uniform(bound: u32, residue: nat)
    requires residue < bound
    ensures |Preimages(0x1_0000_0000 % bound, 0x1_0000_0000, bound, residue)| == 0x1_0000_0000 / bound
    ensures RANGE == 0x1_0000_0000
  {
    hide Preimages;
    assert RANGE == RANGE % bound + RANGE / bound * bound;
    PreimageCount(RANGE % bound, RANGE / bound, bound, residue);
  }
}
