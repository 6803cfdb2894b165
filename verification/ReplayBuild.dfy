/** Building a replay: attempts are classified on a clone, then written in two streams and
    checkpoints into one buffer with three moving cursors. */
module ReplayBuild {
  import opened Grid
  import opened World
  import opened Invariants
  import opened Codec
  import opened Hashing
  import opened Decisions
  import opened Step
  import opened Frames
  import opened Wire
  import opened SaveFormat
  import opened SaveWriter
  import opened SaveLoad
  import opened SaveRoundTrip
  import opened ReplayLog
  import opened ReplayWire
  import opened ReplayFormat
  import opened ReplayLayout
  import opened ReplayStreams

  // ----- one attempt on the working copy

  /** The record the builder assembles from the staged metadata of a step. */
  function RecordFrom(step: StepOutput): Record
    requires step.StepResult?
  {
    Record(step.stagedTickBefore, step.stagedTickAfter, step.staged, step.stagedPreHash, step.finalizedPostHash,
           step.stagedEventHash, step.rngDomains)
  }

  /** The staging order and digests the builder cross-checks. */
  predicate StagedProperly(sha: HashFunction, step: StepOutput) {
    && step.StepResult? && step.stageIndex < step.hashIndex
    && DecisionHash(sha, step.staged) == step.stagedDecisionHash && step.postHash == step.finalizedPostHash
  }

  /** fd_world_step on the n-th state of a run: the verdict, and exactly the record of that
      state when it is accepted. */
  method TryAttempt(work: Game, d: Decision, sha: HashFunction, ghost s: State, ghost n: nat)
    returns (diag: Diagnostic, step: StepOutput)
    requires Authentic(sha, s) && s.WellFormed() && NamesFit(s.entities) && s.tick + OPERATIONAL_TICKS * n <= LAST_TICK
    requires work.Valid() && work.Value() == Nth(sha, s, n)
    modifies work`tick, work`stateHash
    ensures work.Valid() && diag == Verdict(Nth(sha, s, n), d)
    ensures diag.code != OK ==> work.Value() == Nth(sha, s, n) && Auditable(diag.code)
    ensures diag.code == OK ==>
              && TickFits(Nth(sha, s, n).tick) && s.tick + OPERATIONAL_TICKS * (n + 1) <= LAST_TICK
              && work.Value() == Nth(sha, s, n + 1)
              && StagedProperly(sha, step) && RecordFrom(step) == RecordOf(sha, Nth(sha, s, n))
  {
    hide Authentic, Nth, Answers, Verdict, Stepped, JointJudged, WorldOk, StateHash, DecisionHash, EntityTraced,
      PhasesTraced, NamesFit, RecordOf;
    ghost var at := Nth(sha, s, n);
    NthIsAuthentic(sha, s, n);
    Rights(sha, at);
    diag, step := WorldStep(work, d, sha);
    VerdictIsTheAnswer(at, d, diag);
    if diag.code == OK {
      NthStep(sha, s, n);
      RecordOfStep(sha, at, d, step);
    }
  }

  lemma RecordOfStep(sha: HashFunction, s: State, d: Decision, step: StepOutput)
    requires s.WellFormed() && NamesFit(s.entities) && TickFits(s.tick)
    requires Verdict(s, d).code == OK && ResultOf(sha, s, d, step)
    ensures StagedProperly(sha, step) && RecordFrom(step) == RecordOf(sha, s)
  {
    hide Stepped, JointJudged, StateHash, DecisionHash, EntityTraced, PhasesTraced, NamesFit, Staged, PassDecision;
    AcceptedIsPass(s.region, s.tick, s.stateHash, d);
    StagedHashesAlike(sha, d);
  }

  // ----- classification

  const MAX_AUDITS: nat := 0xFFFF_FFFF

  /** Whether the source can be cloned at all. */
  ghost predicate Cloneable(limits: Limits, s: State) {
    TickFits(s.tick) && Savable(s) && SaveSize(s) <= limits.maxFileBytes && FitsLive(limits, s.config.dims)
  }

  predicate AttemptsBounded(limits: Limits, count: nat) {
    count <= limits.maxFileBytes / RECORD_SIZE && count <= LAST_TICK / OPERATIONAL_TICKS
  }

  lemma PrefixRun(sha: HashFunction, s: State, ds: seq<Decision>, i: nat)
    requires s.WellFormed() && NamesFit(s.entities) && i < |ds| < 0x1_0000_0000_0000_0000
    ensures var n, at := Accepted(sha, s, ds[..i]), Nth(sha, s, Accepted(sha, s, ds[..i]));
            && Accepted(sha, s, ds[..i + 1]) == (if Verdict(at, ds[i]).code == OK then n + 1 else n)
            && Audits(sha, s, ds[..i + 1])
               == (if Verdict(at, ds[i]).code == OK then Audits(sha, s, ds[..i])
                   else Audits(sha, s, ds[..i]) + [AuditOf(at, i, ds[i])])
  {
    hide NamesFit, Verdict, Nth, AuditOf, Accepted, Audits;
    assert ds[..i + 1] == ds[..i] + [ds[i]];
    RunExtends(sha, s, ds[..i], ds[i]);
  }

  lemma {:induction false} AuditsGrow(sha: HashFunction, s: State, ds: seq<Decision>, i: nat)
    requires s.WellFormed() && NamesFit(s.entities) && i <= |ds| < 0x1_0000_0000_0000_0000
    ensures |Audits(sha, s, ds[..i])| <= |Audits(sha, s, ds)|
    decreases |ds| - i
  {
    hide NamesFit, Verdict, Nth, AuditOf, Accepted, Audits;
    if i < |ds| {
      AuditsGrow(sha, s, ds, i + 1);
      PrefixRun(sha, s, ds, i);
    } else {
      assert ds[..i] == ds;
    }
  }

  /** The classification loop, on the clone. */
  method CountAttempts(work: Game, ds: seq<Decision>, sha: HashFunction, ghost s: State)
    returns (code: u32, accepted: nat, audits: nat)
    requires Authentic(sha, s) && s.WellFormed() && NamesFit(s.entities) && |ds| < 0x1_0000_0000_0000_0000
    requires work.Valid() && work.Value() == s
    modifies work`tick, work`stateHash
    ensures code == OK <==> |Audits(sha, s, ds)| <= MAX_AUDITS
    ensures code == OK ==> accepted == Accepted(sha, s, ds) && audits == |Audits(sha, s, ds)|
  {
    hide Authentic, NamesFit, Verdict, Nth, AuditOf, Accepted, Audits, Savable, StagedProperly, RecordFrom, RecordOf,
      Game.Value, Game.Valid, State.WellFormed;
    accepted, audits := 0, 0;
    NothingRun(sha, s);
    NthZero(sha, s);
    assert ds[..0] == [];
    var index: nat := 0;
    while index < |ds|
      invariant index <= |ds| && work.Valid()
      invariant accepted == Accepted(sha, s, ds[..index]) && audits == |Audits(sha, s, ds[..index])| <= MAX_AUDITS
      invariant work.Value() == Nth(sha, s, accepted)
    {
      PrefixRun(sha, s, ds, index);
      AuditsGrow(sha, s, ds, index + 1);
      var diag, step := TryAttempt(work, ds[index], sha, s, accepted);
      if diag.code == OK {
        accepted := accepted + 1;
      } else if Auditable(diag.code) {
        if audits == MAX_AUDITS {
          return CAPACITY, 0, 0;
        }
        audits := audits + 1;
      } else {
        assert false;
      }
      index := index + 1;
    }
    assert ds[..index] == ds;
    code := OK;
  }

  /** fd_replay_classify_attempts: counts accepted and refused attempts; the contents of the
      attempts never make it fail. */
  method ClassifyAttempts(w: Game, ds: seq<Decision>, limits: Limits, sha: HashFunction)
    returns (code: u32, accepted: nat, audits: nat)
    requires w.Valid() && Authentic(sha, w.Value()) && |ds| < 0x1_0000_0000_0000_0000
    requires NamesFit(w.entities)
    ensures code == OK <==>
              && AttemptsBounded(limits, |ds|) && Cloneable(limits, w.Value())
              && |Audits(sha, w.Value(), ds)| <= MAX_AUDITS
    ensures code == OK ==> accepted == Accepted(sha, w.Value(), ds) && audits == |Audits(sha, w.Value(), ds)|
  {
    hide Authentic, NamesFit, Accepted, Audits, Savable, SaveSize, FitsLive, AttemptsBounded, TickFits;
    if !AttemptsBounded(limits, |ds|) {
      return CAPACITY, 0, 0;
    }
    accepted, audits := 0, 0;
    var work;
    code, work := CloneViaSave(w, limits, sha);
    if work != null {
      code, accepted, audits := CountAttempts(work, ds, sha, w.Value());
    }
  }

  // ----- writing the streams

  /** A checkpoint at the checkpoint cursor: offset, length and save. */
  method WriteCheckpoint(work: Game, buffer: array<u8>, at: nat, accepted: u64, save: nat, limits: Limits,
                         sha: HashFunction, ghost s: State, ghost c: nat)
    requires RunOk(s, CHECKPOINT_INTERVAL * c) && accepted == CHECKPOINT_INTERVAL * c
    requires work.Valid() && s.WellFormed() && NamesFit(s.entities) && work.Value() == Nth(sha, s, accepted)
    requires save == SaveSize(s) <= limits.maxFileBytes && at + 16 + save <= buffer.Length
    modifies buffer
    ensures Holds(buffer[..], at, Checkpoint(sha, s, c)) && Kept(old(buffer[..]), buffer[..], at, 16 + save)
  {
    hide Holds, Kept, SaveSize, SaveBytes, Savable, Nth, Game.Value, Game.Valid, Store64, State.WellFormed, NamesFit;
    NthIsSavable(sha, s, accepted);
    ghost var b0 := buffer[..];
    PutAt(buffer, at, Store64(accepted));
    ghost var b1 := buffer[..];
    PutAt(buffer, at + 8, Store64(save));
    ghost var b2 := buffer[..];
    Undisturbed(b1, b2, at + 8, 8);
    KeptTwice(b0, b1, b2, at, 8, 8);
    SaveAt(work, buffer, at + 16, save, limits, sha);
    ghost var b3 := buffer[..];
    Undisturbed(b2, b3, at + 16, save);
    KeptTwice(b0, b2, b3, at, 16, save);
    HoldsSplit(b3, at, Store64(accepted), Store64(save));
    HoldsSplit(b3, at, Store64(accepted) + Store64(save), SaveBytes(sha, Nth(sha, s, accepted)));
  }

  lemma {:induction false} AcceptedGrows(sha: HashFunction, s: State, ds: seq<Decision>, i: nat)
    requires s.WellFormed() && NamesFit(s.entities) && i <= |ds| < FILE_LIMIT
    ensures Accepted(sha, s, ds[..i]) <= Accepted(sha, s, ds)
    decreases |ds| - i
  {
    hide NamesFit, Verdict, Nth, AuditOf, Accepted, Audits;
    if i < |ds| {
      AcceptedGrows(sha, s, ds, i + 1);
      PrefixRun(sha, s, ds, i);
    } else {
      assert ds[..i] == ds;
    }
  }

  /** One refused attempt: its audit goes to the audit cursor. */
  method WriteAudit(buffer: array<u8>, cursor: nat, audit: Audit, ghost sha: HashFunction, ghost s: State, ghost n: nat,
                    ghost m: nat, ghost a: nat, ghost audits: seq<Audit>, ghost c: nat)
    requires Streams(buffer[..], sha, s, n, m, a, audits, c) && |audits| < m && |audit.message| < MESSAGE_BYTES
    requires cursor == AuditCursor(SaveSize(s), n, m, |audits|)
    modifies buffer
    ensures Streams(buffer[..], sha, s, n, m, a, audits + [audit], c)
  {
    hide Streams, Holds, Kept, AuditBytes;
    ghost var b := buffer[..];
    CursorsInFile(b, sha, s, n, m, a, audits, c);
    PutAt(buffer, cursor, AuditBytes(audit));
    AuditWritten(b, buffer[..], sha, s, n, m, a, audits, c, audit);
  }

  lemma CursorsInFile(b: Bytes, sha: HashFunction, s: State, n: nat, m: nat, a: nat, audits: seq<Audit>, c: nat)
    requires Streams(b, sha, s, n, m, a, audits, c)
    ensures a < n ==> RecordCursor(SaveSize(s), n, m, a) + RECORD_SIZE <= |b|
    ensures |audits| < m ==> AuditCursor(SaveSize(s), n, m, |audits|) + AUDIT_SIZE <= |b|
    ensures CHECKPOINT_INTERVAL * (c + 1) <= n ==> CheckpointCursor(SaveSize(s), n, m, c) + 16 + SaveSize(s) <= |b|
  {
    hide Holds, PayloadAt, SaveSize, Savable, ReplaySize, CheckpointsSize, FrontLaid, HeadsLaid, Records, RecordsBytes,
      AuditsBytes, CheckpointsBytes, NamesFit, State.WellFormed;
    Spacing(SaveSize(s), n, m);
    CheckpointsSizeStep(c, SaveSize(s));
    if CHECKPOINT_INTERVAL * (c + 1) <= n {
      CheckpointsSizeGrows(c + 1, n / CHECKPOINT_INTERVAL, SaveSize(s));
    }
  }

  /** One accepted attempt: its record goes to the record cursor, and every 1024th is
      followed by a checkpoint. */
  method WriteRecord(work: Game, buffer: array<u8>, recordCursor: nat, checkpointCursor: nat, record: Record, accepted: u64,
                     save: nat, limits: Limits, sha: HashFunction, ghost s: State, ghost n: nat, ghost m: nat,
                     ghost audits: seq<Audit>)
    returns (nextCheckpoint: nat)
    requires accepted < n && Streams(buffer[..], sha, s, n, m, accepted, audits, accepted / CHECKPOINT_INTERVAL)
    requires s.WellFormed() && NamesFit(s.entities) && TickFits(Nth(sha, s, accepted).tick)
    requires record == RecordOf(sha, Nth(sha, s, accepted))
    requires work.Valid() && work.Value() == Nth(sha, s, accepted + 1)
    requires save == SaveSize(s) <= limits.maxFileBytes
    requires recordCursor == RecordCursor(save, n, m, accepted)
    requires checkpointCursor == CheckpointCursor(save, n, m, accepted / CHECKPOINT_INTERVAL)
    modifies buffer
    ensures Streams(buffer[..], sha, s, n, m, accepted + 1, audits, (accepted + 1) / CHECKPOINT_INTERVAL)
    ensures nextCheckpoint == CheckpointCursor(save, n, m, (accepted + 1) / CHECKPOINT_INTERVAL)
  {
    hide Streams, Holds, Kept, RecordBytes, RecordOf, Nth, SaveSize, Savable, Checkpoint, Game.Value, Game.Valid,
      CheckpointsSize, PayloadAt, NamesFit, State.WellFormed;
    ghost var c := accepted / CHECKPOINT_INTERVAL;
    ghost var b := buffer[..];
    CursorsInFile(b, sha, s, n, m, accepted, audits, c);
    PutAt(buffer, recordCursor, RecordBytes(record));
    RecordWritten(b, buffer[..], sha, s, n, m, accepted, audits, c, record);
    nextCheckpoint := checkpointCursor;
    if (accepted + 1) % CHECKPOINT_INTERVAL == 0 {
      assert CHECKPOINT_INTERVAL * (c + 1) == accepted + 1 && (accepted + 1) / CHECKPOINT_INTERVAL == c + 1;
      b := buffer[..];
      CursorsInFile(b, sha, s, n, m, accepted + 1, audits, c);
      RunGoesOn(b, sha, s, n, m, accepted + 1, audits, c);
      WriteCheckpoint(work, buffer, checkpointCursor, accepted + 1, save, limits, sha, s, c + 1);
      CheckpointWritten(b, buffer[..], sha, s, n, m, accepted + 1, audits, c);
      CheckpointsSizeStep(c, save);
      nextCheckpoint := checkpointCursor + 16 + save;
    } else {
      assert (accepted + 1) / CHECKPOINT_INTERVAL == c;
    }
  }

  lemma RunGoesOn(b: Bytes, sha: HashFunction, s: State, n: nat, m: nat, a: nat, audits: seq<Audit>, c: nat)
    requires Streams(b, sha, s, n, m, a, audits, c)
    ensures RunOk(s, a) && n < FILE_LIMIT && a <= n
  {
    hide Skeleton, Holds, PayloadAt, SaveSize, Savable, ReplaySize, Records, RecordsBytes, AuditsBytes,
      CheckpointsBytes;
  }

  /** The attempt loop of fd_replay_build_into. */
  method WriteStreams(work: Game, ds: seq<Decision>, buffer: array<u8>, n: nat, m: nat, save: nat, limits: Limits,
                      sha: HashFunction, ghost s: State)
    requires Authentic(sha, s) && s.WellFormed() && NamesFit(s.entities) && |ds| < FILE_LIMIT
    requires n == Accepted(sha, s, ds) && m == |Audits(sha, s, ds)|
    requires CountsFit(s, n, m) && RunOk(s, n) && save == SaveSize(s) <= limits.maxFileBytes
    requires Skeleton(buffer[..], sha, s, n, m) && work.Valid() && work.Value() == s
    modifies buffer, work`tick, work`stateHash
    ensures Streams(buffer[..], sha, s, n, m, n, Audits(sha, s, ds), n / CHECKPOINT_INTERVAL)
    ensures work.Valid()
  {
    hide Authentic, Streams, Skeleton, Holds, Kept, RecordBytes, RecordOf, Nth, SaveSize, Savable, Checkpoint,
      Game.Value, Game.Valid, CheckpointsSize, PayloadAt, NamesFit, State.WellFormed, Accepted, Audits, Verdict,
      AuditOf, RunOk, CountsFit, RecordFrom, DecisionHash, MessageBytes, MessagesFit, Records, SaveBytes, Stepped,
      TickFits;
    NothingRun(sha, s);
    NthZero(sha, s);
    assert ds[..0] == [];
    StreamsStart(buffer[..], sha, s, n, m);
    CheckpointsSizeStep(0, save);
    var accepted: nat := 0;
    var recordCursor := PayloadAt(save, n, m, 3) + 8;
    var auditCursor := PayloadAt(save, n, m, 4) + 4;
    var checkpointCursor := PayloadAt(save, n, m, 5) + 4;
    var index: nat := 0;
    while index < |ds|
      invariant index <= |ds| && work.Valid() && accepted == Accepted(sha, s, ds[..index])
      invariant work.Value() == Nth(sha, s, accepted)
      invariant Streams(buffer[..], sha, s, n, m, accepted, Audits(sha, s, ds[..index]), accepted / CHECKPOINT_INTERVAL)
      invariant recordCursor == RecordCursor(save, n, m, accepted)
      invariant auditCursor == AuditCursor(save, n, m, |Audits(sha, s, ds[..index])|)
      invariant checkpointCursor == CheckpointCursor(save, n, m, accepted / CHECKPOINT_INTERVAL)
    {
      PrefixRun(sha, s, ds, index);
      AuditsGrow(sha, s, ds, index + 1);
      AcceptedGrows(sha, s, ds, index + 1);
      ghost var audits := Audits(sha, s, ds[..index]);
      var tick := work.tick;
      TickOfNth(work, sha, s, accepted);
      var diag, step := TryAttempt(work, ds[index], sha, s, accepted);
      if diag.code != OK && Auditable(diag.code) {
        var audit := Audit(index, tick, ds[index], diag.code, diag.field, diag.item, MessageBytes(diag.message));
        AuditIs(Nth(sha, s, accepted), index, ds[index], audit);
        WriteAudit(buffer, auditCursor, audit, sha, s, n, m, accepted, audits, accepted / CHECKPOINT_INTERVAL);
        auditCursor := auditCursor + AUDIT_SIZE;
      } else if diag.code != OK || !StagedProperly(sha, step) {
        assert false;
      } else {
        CountBound(sha, s, n, m, accepted);
        checkpointCursor := WriteRecord(work, buffer, recordCursor, checkpointCursor, RecordFrom(step), accepted, save, limits,
                                        sha, s, n, m, audits);
        recordCursor := recordCursor + RECORD_SIZE;
        accepted := accepted + 1;
      }
      index := index + 1;
    }
    assert ds[..index] == ds;
  }

  lemma TickOfNth(w: Game, sha: HashFunction, s: State, n: nat)
    requires s.WellFormed() && NamesFit(s.entities) && s.tick + OPERATIONAL_TICKS * n <= LAST_TICK
    requires w.Value() == Nth(sha, s, n)
    ensures w.tick == Nth(sha, s, n).tick
  {
  }

  lemma AuditIs(at: State, attempt: u64, d: Decision, audit: Audit)
    requires audit == Audit(attempt, at.tick, d, Verdict(at, d).code, Verdict(at, d).field, Verdict(at, d).item,
                            MessageBytes(Verdict(at, d).message))
    ensures audit == AuditOf(at, attempt, d) && |audit.message| < MESSAGE_BYTES
  {
    hide Verdict;
  }

  lemma CountBound(sha: HashFunction, s: State, n: nat, m: nat, a: nat)
    requires CountsFit(s, n, m) && a <= n
    ensures a < FILE_LIMIT
  {
  }

  // ----- the whole build

  /** A world that can be saved, and a list of attempts short enough to count. */
  ghost predicate Attemptable(s: State, ds: seq<Decision>) { Savable(s) && |ds| < FILE_LIMIT }

  /** The size of the replay of these attempts. */
  ghost function BuiltSize(sha: HashFunction, s: State, ds: seq<Decision>): nat {
    if Attemptable(s, ds) then ReplaySize(SaveSize(s), Accepted(sha, s, ds), |Audits(sha, s, ds)|) else 0
  }

  /** Everything fd_replay_build checks before it writes. */
  ghost predicate Buildable(sha: HashFunction, limits: Limits, s: State, ds: seq<Decision>) {
    && Attemptable(s, ds)
    && s.tick == 0 && AttemptsBounded(limits, |ds|) && Cloneable(limits, s)
    && |Audits(sha, s, ds)| <= MAX_AUDITS && Accepted(sha, s, ds) / CHECKPOINT_INTERVAL < 0x1_0000_0000
    && BuiltSize(sha, s, ds) <= limits.maxFileBytes
  }

  /** b is the canonical replay of these attempts. */
  ghost predicate Built(sha: HashFunction, s: State, ds: seq<Decision>, b: Bytes) {
    && Attemptable(s, ds)
    && var n, audits := Accepted(sha, s, ds), Audits(sha, s, ds);
       Writable(sha, s, n, audits) && b == ReplayBytes(sha, s, n, audits)
  }

  /** The same checks in numbers: the list is short enough for the file limit and the clock,
      the source is at tick zero and can be saved and loaded in this context, and the audit
      and checkpoint counts fit their words. */
  lemma BuildableInNumbers(sha: HashFunction, limits: Limits, s: State, ds: seq<Decision>)
    requires s.WellFormed() && NamesFit(s.entities) && |ds| < FILE_LIMIT
    ensures Buildable(sha, limits, s, ds) <==>
              && Savable(s) && s.tick == 0
              && |ds| <= limits.maxFileBytes / 228 && |ds| <= 0xFFFF_FFFF_FFFF_FFFF / 24
              && SaveSize(s) <= limits.maxFileBytes && 24 * s.config.dims.Count() + 1544 <= limits.maxLiveWorldBytes
              && var n, m := Accepted(sha, s, ds), |Audits(sha, s, ds)|;
                 && m <= 0xFFFF_FFFF && n / 1024 <= 0xFFFF_FFFF
                 && 324 + SaveSize(s) + 228 * n + 328 * m + n / 1024 * (16 + SaveSize(s)) <= limits.maxFileBytes
  {
    hide SaveSize, Savable, Accepted, Audits, ReplaySize;
    if Savable(s) { SizeInNumbers(SaveSize(s), Accepted(sha, s, ds), |Audits(sha, s, ds)|); }
  }

  lemma BuildableIsWritable(sha: HashFunction, limits: Limits, s: State, ds: seq<Decision>)
    requires s.WellFormed() && NamesFit(s.entities) && |ds| < FILE_LIMIT && Buildable(sha, limits, s, ds)
    ensures var n, audits := Accepted(sha, s, ds), Audits(sha, s, ds);
            && CountsFit(s, n, |audits|) && RunOk(s, n) && Writable(sha, s, n, audits)
            && SaveSize(s) <= limits.maxFileBytes
  {
    hide NamesFit, Accepted, Audits, SaveSize, ReplaySize, Savable, FitsLive;
    AuditMessagesFit(sha, s, ds);
    SizeCounts(SaveSize(s), Accepted(sha, s, ds), |Audits(sha, s, ds)|);
  }

  lemma SizeCounts(save: nat, n: nat, m: nat)
    ensures ReplaySize(save, n, m) >= RECORD_SIZE * n
  {
    hide CheckpointsSize;
  }

  lemma WritableBytes(b: Bytes, sha: HashFunction, s: State, n: nat, audits: seq<Audit>)
    requires Sealed(b, sha, s, n, audits)
    requires Holds(b, ReplaySize(SaveSize(s), n, |audits|) - DIGEST, ReplayFooter(sha, b[..|b| - DIGEST]))
    ensures Writable(sha, s, n, audits) && b == ReplayBytes(sha, s, n, audits)
  {
    hide SaveSize, ReplaySize, Sealed, Writable, ReplayBody, ReplayFooter;
    SealedIsBody(b, sha, s, n, audits);
    assert b == b[..|b| - DIGEST] + b[|b| - DIGEST..];
  }

  /** The digests of the three streams. */
  method FinishStreams(buffer: array<u8>, n: nat, m: nat, save: nat, sha: HashFunction, ghost s: State,
                       ghost audits: seq<Audit>)
    requires Writable(sha, s, n, audits) && CountsFit(s, n, m) && m == |audits| && save == SaveSize(s)
    requires Streams(buffer[..], sha, s, n, m, n, audits, n / CHECKPOINT_INTERVAL)
    modifies buffer
    ensures Sealed(buffer[..], sha, s, n, audits)
  {
    hide Streams, Holds, Kept, PayloadAt, SaveSize, Savable, ReplaySize, CheckpointsSize, Records, RecordsPayload,
      AuditsPayload, CheckpointsPayload, MessagesFit, NamesFit, State.WellFormed, SizesOk;
    SavableParts(s);
    Spacing(save, n, m);
    PayloadSizes(buffer[..], sha, s, n, audits);
    var p3, p4, p5 := PayloadAt(save, n, m, 3), PayloadAt(save, n, m, 4), PayloadAt(save, n, m, 5);
    ghost var b := buffer[..];
    FinishSection(buffer, p3, 8 + RECORD_SIZE * n, sha, RecordsPayload(Records(sha, s, n)));
    StreamsKept(b, buffer[..], sha, s, n, audits, p3 + 8 + RECORD_SIZE * n);
    PayloadSizes(buffer[..], sha, s, n, audits);
    b := buffer[..];
    FinishSection(buffer, p4, 4 + AUDIT_SIZE * m, sha, AuditsPayload(audits));
    Undisturbed(b, buffer[..], p4 + 4 + AUDIT_SIZE * m, DIGEST);
    StreamsKept(b, buffer[..], sha, s, n, audits, p4 + 4 + AUDIT_SIZE * m);
    PayloadSizes(buffer[..], sha, s, n, audits);
    b := buffer[..];
    FinishSection(buffer, p5, 4 + CheckpointsSize(n / CHECKPOINT_INTERVAL, save), sha,
                  CheckpointsPayload(sha, s, n / CHECKPOINT_INTERVAL));
    Undisturbed(b, buffer[..], p5 + 4 + CheckpointsSize(n / CHECKPOINT_INTERVAL, save), DIGEST);
    StreamsKept(b, buffer[..], sha, s, n, audits, p5 + 4 + CheckpointsSize(n / CHECKPOINT_INTERVAL, save));
  }

  /** The footer over everything before it. */
  method SealFile(buffer: array<u8>, n: nat, save: nat, sha: HashFunction, ghost s: State, ghost audits: seq<Audit>)
    requires Sealed(buffer[..], sha, s, n, audits) && save == SaveSize(s)
    modifies buffer
    ensures Writable(sha, s, n, audits) && buffer[..] == ReplayBytes(sha, s, n, audits)
  {
    hide Sealed, Holds, Kept, SaveSize, ReplaySize, ReplayBytes, ReplayFooter, Writable, Streams, CountsFit, RunOk,
      MessagesFit, RecordsPayload, AuditsPayload, CheckpointsPayload, Records, PayloadAt, CheckpointsSize, Savable,
      ReplayBody, Domain, Footer;
    ghost var b := buffer[..];
    SealedIsBody(b, sha, s, n, audits);
    var footer := ReplayFooter(sha, buffer[..buffer.Length - DIGEST]);
    PutAt(buffer, buffer.Length - DIGEST, footer);
    FooterKeeps(b, buffer[..], sha, s, n, audits);
    assert b[..|b| - DIGEST] == buffer[..][..|b| - DIGEST];
    WritableBytes(buffer[..], sha, s, n, audits);
  }

  /** The part of fd_replay_build_into that writes, into a buffer of exactly the file's size. */
  method WriteReplay(w: Game, ds: seq<Decision>, buffer: array<u8>, n: nat, m: nat, limits: Limits, sha: HashFunction)
    requires w.Valid() && Authentic(sha, w.Value()) && NamesFit(w.entities) && |ds| < FILE_LIMIT
    requires Buildable(sha, limits, w.Value(), ds)
    requires n == Accepted(sha, w.Value(), ds) && m == |Audits(sha, w.Value(), ds)|
    requires buffer.Length == BuiltSize(sha, w.Value(), ds)
    modifies buffer
    ensures Built(sha, w.Value(), ds, buffer[..])
  {
    hide Authentic, NamesFit, Accepted, Audits, Savable, SaveSize, SaveBytes, ReplaySize, Streams, Skeleton, Sealed,
      Writable, CountsFit, RunOk, FrontLaid, FitsLive, AttemptsBounded;
    ghost var s := w.Value();
    Rights(sha, s);
    BuildableIsWritable(sha, limits, s, ds);
    var save := SaveSizeOf(w);
    forall i | 0 <= i < buffer.Length {
      buffer[i] := 0;
    }
    WriteFront(w, buffer, n, m, save, limits, sha);
    WriteHeads(buffer, n, m, save, sha, s);
    var code, work := CloneViaSave(w, limits, sha);
    if work == null {
      assert false;
    }
    WriteStreams(work, ds, buffer, n, m, save, limits, sha, s);
    FinishStreams(buffer, n, m, save, sha, s, Audits(sha, s, ds));
    SealFile(buffer, n, save, sha, s, Audits(sha, s, ds));
  }

  /** The checks fd_replay_build_size and fd_replay_build_into both begin with. */
  method Measure(w: Game, ds: seq<Decision>, limits: Limits, sha: HashFunction)
    returns (code: u32, n: nat, m: nat, size: nat)
    requires w.Valid() && Authentic(sha, w.Value()) && NamesFit(w.entities) && |ds| < FILE_LIMIT
    ensures code == OK <==> Buildable(sha, limits, w.Value(), ds)
    ensures code == OK ==>
              && n == Accepted(sha, w.Value(), ds) && m == |Audits(sha, w.Value(), ds)|
              && size == BuiltSize(sha, w.Value(), ds)
  {
    hide Authentic, NamesFit, Accepted, Audits, Savable, SaveSize, ReplaySize, FitsLive, AttemptsBounded;
    n, m, size := 0, 0, 0;
    if w.tick != 0 {
      return STATE, n, m, size;
    }
    code, n, m := ClassifyAttempts(w, ds, limits, sha);
    if code != OK {
      return;
    }
    var save := SaveSizeOf(w);
    if n / CHECKPOINT_INTERVAL >= 0x1_0000_0000 || ReplaySize(save, n, m) > limits.maxFileBytes {
      return CAPACITY, n, m, size;
    }
    size := ReplaySize(save, n, m);
  }

  /** fd_replay_build_size */
  method BuildSize(w: Game, ds: seq<Decision>, limits: Limits, sha: HashFunction) returns (code: u32, size: nat)
    requires w.Valid() && Authentic(sha, w.Value()) && NamesFit(w.entities) && |ds| < FILE_LIMIT
    ensures code == OK <==> Buildable(sha, limits, w.Value(), ds)
    ensures code == OK ==> size == BuiltSize(sha, w.Value(), ds)
  {
    hide *;
    var n, m;
    code, n, m, size := Measure(w, ds, limits, sha);
  }

  /** fd_replay_build_into, into a buffer no longer than the file. */
  method BuildInto(w: Game, ds: seq<Decision>, buffer: array?<u8>, limits: Limits,
                   sha: HashFunction) returns (code: u32)
    requires w.Valid() && Authentic(sha, w.Value()) && NamesFit(w.entities) && |ds| < FILE_LIMIT
    requires buffer != null && Buildable(sha, limits, w.Value(), ds) ==>
               buffer.Length <= BuiltSize(sha, w.Value(), ds)
    modifies buffer
    ensures code == OK <==>
              && Buildable(sha, limits, w.Value(), ds) && buffer != null
              && BuiltSize(sha, w.Value(), ds) <= buffer.Length
    ensures code == OK ==> Built(sha, w.Value(), ds, buffer[..])
    ensures code != OK ==> (buffer != null ==> buffer[..] == old(buffer[..]))
  {
    hide Authentic, NamesFit, BuiltSize, Built, Buildable, Game.Valid, State.WellFormed, Accepted, Audits, WorldOk,
      StateHash;
    var n, m, required;
    code, n, m, required := Measure(w, ds, limits, sha);
    if code != OK {
      return;
    }
    if buffer == null || buffer.Length < required {
      return BUFFER_TOO_SMALL;
    }
    WriteReplay(w, ds, buffer, n, m, limits, sha);
  }

  lemma BuiltIsSealed(sha: HashFunction, s: State, ds: seq<Decision>, file: Bytes)
    requires Built(sha, s, ds, file)
    ensures SealedFile(sha, file, [0x46, 0x44, 0x52, 0x50, 0, 0, 0, 1], "FrontierDirectorate/Replay/Footer/v1")
  {
    hide SealedFile, ReplayBytes, Writable, Accepted, Audits;
    ReplayIsSealed(sha, s, Accepted(sha, s, ds), Audits(sha, s, ds));
  }

  /** fd_replay_build: transactional; the caller's buffer is untouched unless the whole file
      is built. */
  method Build(w: Game, ds: seq<Decision>, buffer: array?<u8>, capacity: u64, limits: Limits, sha: HashFunction)
    returns (code: u32, written: nat)
    requires w.Valid() && Authentic(sha, w.Value()) && NamesFit(w.entities) && |ds| < FILE_LIMIT
    requires buffer != null ==> capacity <= buffer.Length
    modifies buffer
    ensures code == OK <==>
              && Buildable(sha, limits, w.Value(), ds) && buffer != null
              && BuiltSize(sha, w.Value(), ds) <= capacity
    ensures code == OK ==>
              && written == BuiltSize(sha, w.Value(), ds) <= buffer.Length
              && Built(sha, w.Value(), ds, buffer[..written]) && buffer[written..] == old(buffer[..])[written..]
              && SealedFile(sha, buffer[..written], [0x46, 0x44, 0x52, 0x50, 0, 0, 0, 1],
                            "FrontierDirectorate/Replay/Footer/v1")
    ensures code != OK ==> written == 0 && (buffer != null ==> buffer[..] == old(buffer[..]))
  {
    hide Authentic, NamesFit, BuiltSize, Built, Buildable, SealedFile, State.WellFormed;
    written := 0;
    var required;
    code, required := BuildSize(w, ds, limits, sha);
    if code != OK {
      return;
    }
    if buffer == null || capacity < required {
      return BUFFER_TOO_SMALL, 0;
    }
    var temporary := new u8[required](_ => 0);
    code := BuildInto(w, ds, temporary, limits, sha);
    if code != OK {
      assert false;
    }
    ghost var s, file := w.Value(), temporary[..];
    assert Built(sha, s, ds, file);
    forall i | 0 <= i < required {
      buffer[i] := temporary[i];
    }
    assert buffer[..required] == file;
    assert w.Value() == s;
    BuiltIsSealed(sha, s, ds, file);
    written := required;
  }
}
