/** The three growing streams of a replay under construction. */
module ReplayStreams {
  import opened Grid
  import opened World
  import opened Codec
  import opened Hashing
  import opened Decisions
  import opened Frames
  import opened Wire
  import opened Step
  import opened SaveFormat
  import opened SaveWriter
  import opened ReplayLog
  import opened ReplayWire
  import opened ReplayFormat
  import opened ReplayLayout

  lemma {:induction false} AuditMessagesFit(sha: HashFunction, s: State, ds: seq<Decision>)
    requires s.WellFormed() && NamesFit(s.entities) && |ds| < FILE_LIMIT
    ensures MessagesFit(Audits(sha, s, ds))
  {
    hide NamesFit, Verdict, Nth, Accepted;
    if ds != [] { AuditMessagesFit(sha, s, ds[..|ds| - 1]); }
  }

  /** a records, these audits and c checkpoints are written behind the skeleton. */
  ghost predicate Streams(b: Bytes, sha: HashFunction, s: State, n: nat, m: nat, a: nat, audits: seq<Audit>, c: nat) {
    && CountsFit(s, n, m) && a <= n && |audits| <= m && MessagesFit(audits)
    && RunOk(s, n) && CHECKPOINT_INTERVAL * c <= a
    && var save := SaveSize(s);
       && Skeleton(b, sha, s, n, m)
       && Holds(b, PayloadAt(save, n, m, 3) + 8, RecordsBytes(Records(sha, s, a)))
       && Holds(b, PayloadAt(save, n, m, 4) + 4, AuditsBytes(audits))
       && Holds(b, PayloadAt(save, n, m, 5) + 4, CheckpointsBytes(sha, s, c))
  }

  function RecordCursor(save: nat, n: nat, m: nat, a: nat): nat { PayloadAt(save, n, m, 3) + 8 + RECORD_SIZE * a }

  function AuditCursor(save: nat, n: nat, m: nat,
                       audits: nat): nat { PayloadAt(save, n, m, 4) + 4 + AUDIT_SIZE * audits }

  function CheckpointCursor(save: nat, n: nat, m: nat, c: nat): nat {
    PayloadAt(save, n, m, 5) + 4 + CheckpointsSize(c, save)
  }

  lemma StreamsStart(b: Bytes, sha: HashFunction, s: State, n: nat, m: nat)
    requires CountsFit(s, n, m) && RunOk(s, n) && Skeleton(b, sha, s, n, m)
    ensures Streams(b, sha, s, n, m, 0, [], 0)
  {
    hide Skeleton, PayloadAt, SaveSize, Savable, ReplaySize;
    Spacing(SaveSize(s), n, m);
    InFile(b, sha, s, n, m);
    EmptyHolds(b, PayloadAt(SaveSize(s), n, m, 3) + 8);
    EmptyHolds(b, PayloadAt(SaveSize(s), n, m, 4) + 4);
    EmptyHolds(b, PayloadAt(SaveSize(s), n, m, 5) + 4);
  }

  lemma InFile(b: Bytes, sha: HashFunction, s: State, n: nat, m: nat)
    requires CountsFit(s, n, m) && Skeleton(b, sha, s, n, m)
    ensures |b| == ReplaySize(SaveSize(s), n, m)
  {
  }

  lemma EmptyHolds(b: Bytes, at: nat)
    requires at <= |b|
    ensures Holds(b, at, [])
  {
  }

  lemma SavableParts(s: State)
    requires Savable(s)
    ensures s.WellFormed() && NamesFit(s.entities)
  {
  }

  lemma MoreRecords(sha: HashFunction, s: State, a: nat)
    requires s.WellFormed() && NamesFit(s.entities) && s.tick + OPERATIONAL_TICKS * (a + 1) <= LAST_TICK
    ensures TickFits(Nth(sha, s, a).tick)
    ensures RecordsBytes(Records(sha, s, a + 1))
         == RecordsBytes(Records(sha, s, a)) + RecordBytes(RecordOf(sha, Nth(sha, s, a)))
  {
    hide State.WellFormed, NamesFit, Nth, RecordOf, RecordBytes;
    assert Records(sha, s, a + 1)[..a] == Records(sha, s, a);
  }

  /** A record written at the record cursor. */
  lemma RecordWritten(b: Bytes, b': Bytes, sha: HashFunction, s: State, n: nat, m: nat, a: nat, audits: seq<Audit>,
                      c: nat, record: Record)
    requires Streams(b, sha, s, n, m, a, audits, c) && a < n
    requires s.WellFormed() && NamesFit(s.entities) && TickFits(Nth(sha, s, a).tick) && record == RecordOf(sha, Nth(sha, s, a))
    requires Kept(b, b', RecordCursor(SaveSize(s), n, m, a), RECORD_SIZE)
    requires Holds(b', RecordCursor(SaveSize(s), n, m, a), RecordBytes(record))
    ensures Streams(b', sha, s, n, m, a + 1, audits, c)
  {
    hide Holds, Kept, Skeleton, PayloadAt, SaveSize, SaveBytes, Savable, ReplaySize, CheckpointsSize, Nth, RecordOf,
      RecordBytes, Records, RecordsBytes, AuditsBytes, CheckpointsBytes, State.WellFormed, NamesFit, SizesOk;
    var at := RecordCursor(SaveSize(s), n, m, a);
    Spacing(SaveSize(s), n, m);
    CheckpointsLength(sha, s, c);
    SkeletonKept(b, b', sha, s, n, m, at, RECORD_SIZE);
    Undisturbed(b, b', at, RECORD_SIZE);
    MoreRecords(sha, s, a);
    HoldsSplit(b', PayloadAt(SaveSize(s), n, m, 3) + 8, RecordsBytes(Records(sha, s, a)), RecordBytes(record));
  }

  /** An audit written at the audit cursor. */
  lemma AuditWritten(b: Bytes, b': Bytes, sha: HashFunction, s: State, n: nat, m: nat, a: nat, audits: seq<Audit>,
                     c: nat, audit: Audit)
    requires Streams(b, sha, s, n, m, a, audits, c) && |audits| < m && |audit.message| < MESSAGE_BYTES
    requires var at := AuditCursor(SaveSize(s), n, m, |audits|);
             Kept(b, b', at, AUDIT_SIZE) && Holds(b', at, AuditBytes(audit))
    ensures Streams(b', sha, s, n, m, a, audits + [audit], c)
  {
    hide Holds, Kept, Skeleton, PayloadAt, SaveSize, SaveBytes, Savable, ReplaySize, CheckpointsSize, Nth, RecordOf,
      AuditBytes, RecordsBytes, CheckpointsBytes;
    var at := AuditCursor(SaveSize(s), n, m, |audits|);
    Spacing(SaveSize(s), n, m);
    CheckpointsLength(sha, s, c);
    SkeletonKept(b, b', sha, s, n, m, at, AUDIT_SIZE);
    Undisturbed(b, b', at, AUDIT_SIZE);
    assert (audits + [audit])[..|audits|] == audits;
    HoldsSplit(b', PayloadAt(SaveSize(s), n, m, 4) + 4, AuditsBytes(audits), AuditBytes(audit));
  }

  /** A checkpoint written at the checkpoint cursor. */
  lemma CheckpointWritten(b: Bytes, b': Bytes, sha: HashFunction, s: State, n: nat, m: nat, a: nat, audits: seq<Audit>,
                          c: nat)
    requires Streams(b, sha, s, n, m, a, audits, c) && CHECKPOINT_INTERVAL * (c + 1) <= a
    requires Kept(b, b', CheckpointCursor(SaveSize(s), n, m, c), 16 + SaveSize(s))
    requires RunOk(s, CHECKPOINT_INTERVAL * (c + 1))
    requires Holds(b', CheckpointCursor(SaveSize(s), n, m, c), Checkpoint(sha, s, c + 1))
    ensures Streams(b', sha, s, n, m, a, audits, c + 1)
  {
    hide Holds, Kept, Skeleton, PayloadAt, SaveSize, Savable, ReplaySize, CheckpointsSize, Nth, Checkpoint,
      RecordsBytes, Records, AuditsBytes, State.WellFormed, NamesFit, SizesOk;
    SavableParts(s);
    var save := SaveSize(s);
    var at := CheckpointCursor(save, n, m, c);
    Spacing(save, n, m);
    CheckpointsLength(sha, s, c);
    CheckpointsSizeStep(c, save);
    CheckpointsSizeGrows(c + 1, n / CHECKPOINT_INTERVAL, save);
    SkeletonKept(b, b', sha, s, n, m, at, 16 + save);
    Undisturbed(b, b', at, 16 + save);
    HoldsSplit(b', PayloadAt(save, n, m, 5) + 4, CheckpointsBytes(sha, s, c), Checkpoint(sha, s, c + 1));
  }

  // ----- closing the file

  /** All five sections are complete. */
  ghost predicate Sealed(b: Bytes, sha: HashFunction, s: State, n: nat, audits: seq<Audit>) {
    && Writable(sha, s, n, audits) && CountsFit(s, n, |audits|)
    && var save, m, c := SaveSize(s), |audits|, n / CHECKPOINT_INTERVAL;
       && Streams(b, sha, s, n, m, n, audits, c)
       && Holds(b, PayloadAt(save, n, m, 3) + 8 + RECORD_SIZE * n, sha(RecordsPayload(Records(sha, s, n))))
       && Holds(b, PayloadAt(save, n, m, 4) + 4 + AUDIT_SIZE * m, sha(AuditsPayload(audits)))
       && Holds(b, PayloadAt(save, n, m, 5) + 4 + CheckpointsSize(c, save), sha(CheckpointsPayload(sha, s, c)))
  }

  /** Header, payload and digest make up a frame. */
  lemma FrameHeld(b: Bytes, sha: HashFunction, at: nat, tag: u16, p: Bytes)
    requires |p| < FILE_LIMIT && at >= HEADER
    requires Holds(b, at - HEADER, HeaderBytes(tag, true, |p|)) && Holds(b, at, p) && Holds(b, at + |p|, sha(p))
    ensures Holds(b, at - HEADER, FrameBytes(sha, Frame(tag, true, p)))
  {
    hide Holds, HeaderBytes;
    HoldsSplit(b, at - HEADER, HeaderBytes(tag, true, |p|), p);
    HoldsSplit(b, at - HEADER, HeaderBytes(tag, true, |p|) + p, sha(p));
  }

  lemma FrontFrames(b: Bytes, sha: HashFunction, s: State, n: nat, m: nat)
    requires CountsFit(s, n, m) && FrontLaid(b, sha, s, n, m)
    ensures |SaveBytes(sha, s)| == SaveSize(s) < FILE_LIMIT
    ensures Holds(b, 8, FrameBytes(sha, Frame(1, true, Counts(n, n / CHECKPOINT_INTERVAL, m))))
    ensures Holds(b, 84, FrameBytes(sha, Frame(2, true, SaveBytes(sha, s))))
  {
    hide Holds, SaveSize, Savable, ReplaySize, HeaderBytes, Counts, SaveBytes, FrameBytes;
    SaveSizeExact(sha, s);
    FrameHeld(b, sha, 24, 1, Counts(n, n / CHECKPOINT_INTERVAL, m));
    FrameHeld(b, sha, 100, 2, SaveBytes(sha, s));
  }

  /** A counted stream: its count and its entries are its payload. */
  lemma CountedFrame(b: Bytes, sha: HashFunction, at: nat, tag: u16, count: Bytes, entries: Bytes)
    requires at >= HEADER && |count| + |entries| < FILE_LIMIT
    requires Holds(b, at - HEADER, HeaderBytes(tag, true, |count| + |entries|)) && Holds(b, at, count)
    requires Holds(b, at + |count|, entries) && Holds(b, at + |count| + |entries|, sha(count + entries))
    ensures Holds(b, at - HEADER, FrameBytes(sha, Frame(tag, true, count + entries)))
  {
    hide Holds, HeaderBytes, FrameBytes;
    HoldsSplit(b, at, count, entries);
    FrameHeld(b, sha, at, tag, count + entries);
  }

  lemma SealedPieces(b: Bytes, sha: HashFunction, s: State, n: nat, audits: seq<Audit>)
    requires Sealed(b, sha, s, n, audits)
    ensures var save, m, c := SaveSize(s), |audits|, n / CHECKPOINT_INTERVAL;
            && Writable(sha, s, n, audits) && CountsFit(s, n, m) && FrontLaid(b, sha, s, n, m) && HeadsLaid(b, s, n, m)
            && |b| == ReplaySize(save, n, m)
            && Holds(b, PayloadAt(save, n, m, 3) + 8, RecordsBytes(Records(sha, s, n)))
            && Holds(b, PayloadAt(save, n, m, 4) + 4, AuditsBytes(audits))
            && Holds(b, PayloadAt(save, n, m, 5) + 4, CheckpointsBytes(sha, s, c))
            && Holds(b, PayloadAt(save, n, m, 3) + 8 + RECORD_SIZE * n, sha(RecordsPayload(Records(sha, s, n))))
            && Holds(b, PayloadAt(save, n, m, 4) + 4 + AUDIT_SIZE * m, sha(AuditsPayload(audits)))
            && Holds(b, PayloadAt(save, n, m, 5) + 4 + CheckpointsSize(c, save), sha(CheckpointsPayload(sha, s, c)))
  {
    hide Holds, PayloadAt, SaveSize, Savable, ReplaySize, CheckpointsSize, Records, RecordsBytes, AuditsBytes,
      CheckpointsBytes, RecordsPayload, AuditsPayload, CheckpointsPayload, FrontLaid, HeadsLaid, NamesFit,
      State.WellFormed, SizesOk;
  }

  lemma StreamFrames(b: Bytes, sha: HashFunction, s: State, n: nat, audits: seq<Audit>)
    requires Sealed(b, sha, s, n, audits)
    ensures var save, m := SaveSize(s), |audits|;
            && Writable(sha, s, n, audits) && PayloadAt(save, n, m, 3) >= 100 && PayloadAt(save, n, m, 4) >= 100
            && PayloadAt(save, n, m, 5) >= 100
            && |CheckpointsPayload(sha, s, n / CHECKPOINT_INTERVAL)| < FILE_LIMIT
            && 8 + RECORD_SIZE * n < FILE_LIMIT && 4 + AUDIT_SIZE * m < FILE_LIMIT
            && Holds(b, PayloadAt(save, n, m, 3) - HEADER, FrameBytes(sha, Frame(3, true, RecordsPayload(Records(sha, s, n)))))
            && Holds(b, PayloadAt(save, n, m, 4) - HEADER, FrameBytes(sha, Frame(4, true, AuditsPayload(audits))))
            && Holds(b, PayloadAt(save, n, m, 5) - HEADER,
                     FrameBytes(sha, Frame(5, true, CheckpointsPayload(sha, s, n / CHECKPOINT_INTERVAL))))
  {
    hide Holds, PayloadAt, SaveSize, Savable, ReplaySize, CheckpointsSize, Records, RecordsBytes, AuditsBytes,
      CheckpointsBytes, Sealed, FrontLaid, HeaderBytes, Store32, Store64, FrameBytes, NamesFit, State.WellFormed,
      SizesOk;
    SealedPieces(b, sha, s, n, audits);
    SavableParts(s);
    var save, m, c := SaveSize(s), |audits|, n / CHECKPOINT_INTERVAL;
    Spacing(save, n, m);
    CheckpointsLength(sha, s, c);
    CountedFrame(b, sha, PayloadAt(save, n, m, 3), 3, Store64(n), RecordsBytes(Records(sha, s, n)));
    CountedFrame(b, sha, PayloadAt(save, n, m, 4), 4, Store32(m), AuditsBytes(audits));
    CountedFrame(b, sha, PayloadAt(save, n, m, 5), 5, Store32(c), CheckpointsBytes(sha, s, c));
  }

  lemma ReplayFrameIs(sha: HashFunction, s: State, n: nat, audits: seq<Audit>, tag: nat)
    requires Writable(sha, s, n, audits) && 1 <= tag <= 5
    ensures ReplayFrame(sha, s, n, audits, tag) == Frame(tag, true, ReplayPayload(sha, s, n, audits, tag))
  {
    hide ReplayPayload, Writable;
  }

  lemma AllFrames(b: Bytes, sha: HashFunction, s: State, n: nat, audits: seq<Audit>, tag: nat)
    requires Sealed(b, sha, s, n, audits) && 1 <= tag <= 5
    ensures Writable(sha, s, n, audits) && PayloadAt(SaveSize(s), n, |audits|, tag) >= HEADER
    ensures Holds(b, PayloadAt(SaveSize(s), n, |audits|, tag) - HEADER, FrameBytes(sha, ReplayFrame(sha, s, n, audits, tag)))
  {
    hide Holds, PayloadAt, SaveSize, Savable, ReplaySize, CheckpointsSize, RecordsPayload, AuditsPayload,
      CheckpointsPayload, Records, Sealed, FrontLaid, HeadsLaid, Counts, SaveBytes, FrameBytes, ReplayFrame,
      MessagesFit;
    SealedPieces(b, sha, s, n, audits);
    ReplayFrameIs(sha, s, n, audits, tag);
    Spacing(SaveSize(s), n, |audits|);
    if tag <= 2 {
      FrontFrames(b, sha, s, n, |audits|);
      assert tag == 1 || tag == 2;
    } else {
      StreamFrames(b, sha, s, n, audits);
      assert tag == 3 || tag == 4 || tag == 5;
    }
  }

  lemma BodyGrows(sha: HashFunction, s: State, n: nat, audits: seq<Audit>, k: nat)
    requires Writable(sha, s, n, audits) && k <= 5
    ensures k == 0 ==> BodyBytes(sha, ReplayFrames(sha, s, n, audits, k)) == []
    ensures k > 0 ==>
              BodyBytes(sha, ReplayFrames(sha, s, n, audits, k))
              == BodyBytes(sha, ReplayFrames(sha, s, n, audits, k - 1)) + FrameBytes(sha, ReplayFrame(sha, s, n, audits, k))
  {
    hide FrameBytes, ReplayFrame, Writable;
    if k > 0 {
      assert ReplayFrames(sha, s, n, audits, k)[..k - 1] == ReplayFrames(sha, s, n, audits, k - 1);
    }
  }

  lemma {:induction false} FramesHeld(b: Bytes, sha: HashFunction, s: State, n: nat, audits: seq<Audit>, k: nat)
    requires Sealed(b, sha, s, n, audits) && Writable(sha, s, n, audits) && k <= 5
    ensures Holds(b, 8, BodyBytes(sha, ReplayFrames(sha, s, n, audits, k)))
    decreases k
  {
    hide Holds, PayloadAt, SaveSize, Savable, ReplaySize, FrameBytes, ReplayFrame, Sealed, Writable, ReplayFrames,
      BodyBytes;
    BodyGrows(sha, s, n, audits, k);
    if k == 0 {
      SealedSize(b, sha, s, n, audits);
      EmptyHolds(b, 8);
    } else {
      FramesHeld(b, sha, s, n, audits, k - 1);
      AllFrames(b, sha, s, n, audits, k);
      BodyEnds(sha, s, n, audits, k - 1);
      HoldsSplit(b, 8, BodyBytes(sha, ReplayFrames(sha, s, n, audits, k - 1)), FrameBytes(sha, ReplayFrame(sha, s, n, audits, k)));
    }
  }

  lemma SealedSize(b: Bytes, sha: HashFunction, s: State, n: nat, audits: seq<Audit>)
    requires Sealed(b, sha, s, n, audits)
    ensures Writable(sha, s, n, audits)
    ensures |b| == ReplaySize(SaveSize(s), n, |audits|) && |b| > 100 && Holds(b, 0, ReplayMagic())
  {
    hide Holds, PayloadAt, SaveSize, CheckpointsSize, Sealed, HeadsLaid, Savable, Writable;
    SealedPieces(b, sha, s, n, audits);
  }

  /** A sealed buffer is the replay file up to its footer. */
  lemma SealedIsBody(b: Bytes, sha: HashFunction, s: State, n: nat, audits: seq<Audit>)
    requires Sealed(b, sha, s, n, audits)
    ensures Writable(sha, s, n, audits)
    ensures |b| == ReplaySize(SaveSize(s), n, |audits|) >= DIGEST
    ensures b[..|b| - DIGEST] == ReplayBody(sha, s, n, audits)
  {
    hide PayloadAt, SaveSize, Savable, ReplaySize, ReplayFrames, Sealed, Writable, BodyBytes, ReplayFooter;
    SealedSize(b, sha, s, n, audits);
    FramesHeld(b, sha, s, n, audits, 5);
    HoldsSplit(b, 0, ReplayMagic(), BodyBytes(sha, ReplayFrames(sha, s, n, audits, 5)));
    ReplaySizeExact(sha, s, n, audits);
    assert b[0..|b| - DIGEST] == b[..|b| - DIGEST];
  }

  /** The payloads the digests are taken over. */
  lemma PayloadSizes(b: Bytes, sha: HashFunction, s: State, n: nat, audits: seq<Audit>)
    requires Writable(sha, s, n, audits) && CountsFit(s, n, |audits|)
    requires Streams(b, sha, s, n, |audits|, n, audits, n / CHECKPOINT_INTERVAL)
    ensures var save, m, c := SaveSize(s), |audits|, n / CHECKPOINT_INTERVAL;
            && |CheckpointsPayload(sha, s, c)| == 4 + CheckpointsSize(c, save)
            && Holds(b, PayloadAt(save, n, m, 3), RecordsPayload(Records(sha, s, n)))
            && Holds(b, PayloadAt(save, n, m, 4), AuditsPayload(audits))
            && Holds(b, PayloadAt(save, n, m, 5), CheckpointsPayload(sha, s, c))
            && |b| == ReplaySize(save, n, m)
  {
    hide Holds, PayloadAt, SaveSize, Savable, ReplaySize, CheckpointsSize, Records, RecordsBytes, AuditsBytes,
      CheckpointsBytes, Store32, Store64, FrontLaid, HeaderBytes, NamesFit, State.WellFormed, SizesOk;
    var save, m, c := SaveSize(s), |audits|, n / CHECKPOINT_INTERVAL;
    CheckpointsLength(sha, s, c);
    SavableParts(s);
    HoldsSplit(b, PayloadAt(save, n, m, 3), Store64(n), RecordsBytes(Records(sha, s, n)));
    HoldsSplit(b, PayloadAt(save, n, m, 4), Store32(m), AuditsBytes(audits));
    HoldsSplit(b, PayloadAt(save, n, m, 5), Store32(c), CheckpointsBytes(sha, s, c));
  }

  /** Writing a digest behind a stream, or the footer, disturbs no stream. */
  lemma StreamsKept(b: Bytes, b': Bytes, sha: HashFunction, s: State, n: nat, audits: seq<Audit>, at: nat)
    requires Writable(sha, s, n, audits) && CountsFit(s, n, |audits|)
    requires Streams(b, sha, s, n, |audits|, n, audits, n / CHECKPOINT_INTERVAL) && Kept(b, b', at, DIGEST)
    requires var save, m := SaveSize(s), |audits|;
             || at == PayloadAt(save, n, m, 3) + 8 + RECORD_SIZE * n
             || at == PayloadAt(save, n, m, 4) + 4 + AUDIT_SIZE * m
             || PayloadAt(save, n, m, 5) + 4 + CheckpointsSize(n / CHECKPOINT_INTERVAL, save) <= at
    ensures Streams(b', sha, s, n, |audits|, n, audits, n / CHECKPOINT_INTERVAL)
  {
    hide Holds, PayloadAt, SaveSize, Savable, ReplaySize, CheckpointsSize, Records, RecordsBytes, AuditsBytes,
      CheckpointsBytes, Skeleton, NamesFit, State.WellFormed, SizesOk;
    SavableParts(s);
    InFile(b, sha, s, n, |audits|);
    Spacing(SaveSize(s), n, |audits|);
    CheckpointsLength(sha, s, n / CHECKPOINT_INTERVAL);
    SkeletonKept(b, b', sha, s, n, |audits|, at, DIGEST);
    Undisturbed(b, b', at, DIGEST);
  }

  /** The footer leaves everything before it alone. */
  lemma FooterKeeps(b: Bytes, b': Bytes, sha: HashFunction, s: State, n: nat, audits: seq<Audit>)
    requires Sealed(b, sha, s, n, audits) && |b| >= DIGEST && Kept(b, b', |b| - DIGEST, DIGEST)
    ensures Sealed(b', sha, s, n, audits) && b'[..|b'| - DIGEST] == b[..|b| - DIGEST]
  {
    hide Holds, PayloadAt, SaveSize, Savable, ReplaySize, CheckpointsSize, Records, RecordsPayload, AuditsPayload,
      CheckpointsPayload, Streams, MessagesFit, NamesFit, State.WellFormed, SizesOk;
    SealedSize(b, sha, s, n, audits);
    Spacing(SaveSize(s), n, |audits|);
    StreamsKept(b, b', sha, s, n, audits, |b| - DIGEST);
    Undisturbed(b, b', |b| - DIGEST, DIGEST);
  }
}
