/** What is built opens again, as the log of the attempts it was built from. */
module ReplayRoundTrip {
  import opened Grid
  import opened World
  import opened Invariants
  import opened Codec
  import opened Hashing
  import opened Decisions
  import opened Step
  import opened Frames
  import opened Wire
  import opened SaveFormat
  import opened SaveWriter
  import opened SaveLoad
  import opened SaveRoundTrip
  import opened ReplayLog
  import opened ReplayWire
  import opened ReplayFormat
  import opened ReplayBuild
  import opened ReplayRead
  import opened ReplayOpen

  // ----- checkpoints

  lemma {:induction false} CheckpointHeld(p: Bytes, at: nat, sha: HashFunction, s: State, c: nat, k: nat)
    requires RunOk(s, CHECKPOINT_INTERVAL * c) && CHECKPOINT_INTERVAL * c < FILE_LIMIT && k < c
    requires Holds(p, at, CheckpointsBytes(sha, s, c))
    ensures Holds(p, at + CheckpointsSize(k, SaveSize(s)), Checkpoint(sha, s, k + 1))
    decreases c
  {
    hide Holds, Checkpoint, SaveSize, CheckpointsSize, Savable;
    HoldsSplit(p, at, CheckpointsBytes(sha, s, c - 1), Checkpoint(sha, s, c));
    CheckpointsLength(sha, s, c - 1);
    if k < c - 1 { CheckpointHeld(p, at, sha, s, c - 1, k); }
  }

  /** A checkpoint as the reader sees it. */
  lemma CheckpointRead(p: Bytes, at: nat, sha: HashFunction, s: State, k: nat)
    requires RunOk(s, CHECKPOINT_INTERVAL * k) && CHECKPOINT_INTERVAL * k < FILE_LIMIT
    requires Holds(p, at, Checkpoint(sha, s, k))
    ensures at + 16 + SaveSize(s) <= |p| && Load64(p, at) == CHECKPOINT_INTERVAL * k && Load64(p, at + 8) == SaveSize(s)
    ensures p[at + 16..at + 16 + SaveSize(s)] == NthSave(sha, s, CHECKPOINT_INTERVAL * k)
  {
    hide NthSave, SaveSize, Store64, Load64, Savable;
    var save := NthSave(sha, s, CHECKPOINT_INTERVAL * k);
    HoldsSplit(p, at, Store64(CHECKPOINT_INTERVAL * k) + Store64(|save|), save);
    HoldsSplit(p, at, Store64(CHECKPOINT_INTERVAL * k), Store64(|save|));
    LoadStored64(p, at, CHECKPOINT_INTERVAL * k);
    LoadStored64(p, at + 8, |save|);
  }

  /** The save of a later state loads like the one of the first. */
  lemma NthLoads(sha: HashFunction, limits: Limits, s: State, k: nat)
    requires Authentic(sha, s) && RunOk(s, k) && SaveSize(s) <= limits.maxFileBytes && FitsLive(limits, s.config.dims)
    requires s.tick + OPERATIONAL_TICKS * (k + 1) <= LAST_TICK
    ensures s.WellFormed() && NamesFit(s.entities) && Loads(sha, limits, NthSave(sha, s, k), Nth(sha, s, k))
  {
    hide Authentic, SaveSize, SaveBytes, Savable, FitsLive, Loads, NamesFit, State.WellFormed, Nth;
    Rights(sha, s);
    NthIsSavable(sha, s, k);
    NthIsAuthentic(sha, s, k);
    NthChangesTwoFields(sha, s, k);
    SaveThenLoad(sha, limits, Nth(sha, s, k));
  }

  /** The checkpoint section of a run passes the checkpoint loop. */
  lemma {:induction false} CheckpointsPass(sha: HashFunction, limits: Limits, s: State, n: nat, p: Bytes, k: nat)
    requires Authentic(sha, s) && RunOk(s, n) && s.tick == 0 && SaveSize(s) <= limits.maxFileBytes && FitsLive(limits, s.config.dims)
    requires s.WellFormed() && NamesFit(s.entities)
    requires OPERATIONAL_TICKS * (n + 1) <= LAST_TICK && n < FILE_LIMIT && k <= n / CHECKPOINT_INTERVAL
    requires Holds(p, 4, CheckpointsBytes(sha, s, n / CHECKPOINT_INTERVAL))
    requires |p| == 4 + CheckpointsSize(n / CHECKPOINT_INTERVAL, SaveSize(s))
    ensures CheckpointsFrom(sha, limits, p, 4 + CheckpointsSize(k, SaveSize(s)), k, n / CHECKPOINT_INTERVAL, Records(sha, s, n))
    decreases n / CHECKPOINT_INTERVAL - k
  {
    hide Authentic, Holds, Checkpoint, SaveSize, CheckpointsSize, Savable, FitsLive, Loads, NamesFit, State.WellFormed,
      Nth, NthSave, CheckpointsBytes, Load64, Records;
    var c := n / CHECKPOINT_INTERVAL;
    if k < c {
      CheckpointsPass(sha, limits, s, n, p, k + 1);
      var at := 4 + CheckpointsSize(k, SaveSize(s));
      CheckpointHeld(p, 4, sha, s, c, k);
      CheckpointRead(p, at, sha, s, k + 1);
      CheckpointsSizeStep(k, SaveSize(s));
      var steps := CHECKPOINT_INTERVAL * (k + 1);
      NthLoads(sha, limits, s, steps);
      RecordAt(sha, s, n, steps - 1);
      assert CheckpointLoads(sha, limits, NthSave(sha, s, steps), k, Records(sha, s, n));
    }
  }

  // ----- the file

  lemma CountsHold(n: u64, c: u32, m: u32)
    requires c == n / CHECKPOINT_INTERVAL
    ensures ReplayManifestOk(Counts(n, c, m), 5, n, m)
  {
    var p := Counts(n, c, m);
    assert Holds(p, 0, p);
    hide Store16, Store32, Store64, Load16, Load32, Load64;
    Apart(p, 0);
  }

  lemma ReplayFramesInOrder(sha: HashFunction, s: State, n: nat, audits: seq<Audit>)
    requires Writable(sha, s, n, audits)
    ensures var fs := ReplayFrames(sha, s, n, audits, 5);
            Ascending(fs) && Known(fs, REPLAY_LAST) && Complete(fs, REPLAY_LAST)
  {
    hide Writable, ReplayFrame;
    var fs := ReplayFrames(sha, s, n, audits, 5);
    forall tag: u16 | 1 <= tag <= REPLAY_LAST ensures HasCritical(fs, tag) {
      assert fs[tag - 1].tag == tag && fs[tag - 1].critical;
    }
  }

  lemma ReplayTable(sha: HashFunction, s: State, n: nat, audits: seq<Audit>, tag: nat)
    requires Writable(sha, s, n, audits) && 1 <= tag <= 5
    ensures Table(ReplayFrames(sha, s, n, audits, 5), 5)[tag] == Some(ReplayFrame(sha, s, n, audits, tag))
    ensures ReplayFrame(sha, s, n, audits, tag).payload == ReplayPayload(sha, s, n, audits, tag)
  {
    hide Writable, Find, ReplayPayload;
    ReplayFramesInOrder(sha, s, n, audits);
    var fs := ReplayFrames(sha, s, n, audits, 5);
    FindIs(fs, tag);
    assert fs[tag - 1] == ReplayFrame(sha, s, n, audits, tag);
  }

  lemma BuiltFile(sha: HashFunction, s: State, n: nat, audits: seq<Audit>)
    requires Writable(sha, s, n, audits)
    ensures ReplayFile(sha, ReplayBytes(sha, s, n, audits), ReplayFrames(sha, s, n, audits, 5))
    ensures |ReplayFrames(sha, s, n, audits, 5)| == 5
  {
    ReplaySizeExact(sha, s, n, audits);
    WritableSize(sha, s, n, audits);
    hide BodyBytes, ReplayFrames, ReplayFooter, ReplaySize, Writable, SaveSize;
    ReplayFramesInOrder(sha, s, n, audits);
    var bytes, body := ReplayBytes(sha, s, n, audits), ReplayBody(sha, s, n, audits);
    assert bytes[..|bytes| - DIGEST] == body && bytes[|bytes| - DIGEST..] == ReplayFooter(sha, body);
    assert bytes[..8] == ReplayMagic();
    assert BodyOf(bytes) == BodyBytes(sha, ReplayFrames(sha, s, n, audits, 5));
  }

  lemma WritableSize(sha: HashFunction, s: State, n: nat, audits: seq<Audit>)
    requires Writable(sha, s, n, audits)
    ensures SMALLEST_FILE <= ReplaySize(SaveSize(s), n, |audits|) < FILE_LIMIT
  {
    hide SaveSize, CheckpointsSize;
  }

  /** The sections of a built file are a log's. */
  lemma BuiltSections(sha: HashFunction, limits: Limits, s: State, n: nat, audits: seq<Audit>)
    requires Authentic(sha, s) && s.WellFormed() && NamesFit(s.entities) && s.tick == 0 && IsLog(sha, s, n, audits)
    requires Writable(sha, s, n, audits) && OPERATIONAL_TICKS * (n + 1) <= LAST_TICK
    requires SaveSize(s) <= limits.maxFileBytes && FitsLive(limits, s.config.dims)
    ensures LogSections(sha, limits, Table(ReplayFrames(sha, s, n, audits, 5), 5), 5, Log(s, n, audits))
  {
    hide Authentic, NamesFit, State.WellFormed, IsLog, SaveSize, SaveBytes, FitsLive, Loads, Table, ReplayFrames,
      ReplayFrame, Counts, RecordsPayload, AuditsPayload, CheckpointsBytes, CheckpointsSize, CheckpointsFrom, Records,
      MessagesFit, Savable, ReplayManifestOk, Store32, Load32, ReplaySize;
    var t, c := Table(ReplayFrames(sha, s, n, audits, 5), 5), n / CHECKPOINT_INTERVAL;
    forall tag | 1 <= tag <= 5 ensures t[tag].Some? && t[tag].value.payload == ReplayPayload(sha, s, n, audits, tag) {
      ReplayTable(sha, s, n, audits, tag);
    }
    assert Section(t, 1) == Counts(n, c, |audits|) && Section(t, 2) == SaveBytes(sha, s);
    assert Section(t, 3) == RecordsPayload(Records(sha, s, n)) && Section(t, 4) == AuditsPayload(audits);
    var p := CheckpointsPayload(sha, s, c);
    assert Section(t, 5) == p;
    CountsHold(n, c, |audits|);
    ZeroFits(s);
    SaveThenLoad(sha, limits, s);
    CheckpointsLength(sha, s, c);
    assert Holds(p, 0, p);
    HoldsSplit(p, 0, Store32(c), CheckpointsBytes(sha, s, c));
    LoadStored32(p, 0, c);
    CheckpointsSizeStep(0, SaveSize(s));
    CheckpointsPass(sha, limits, s, n, p, 0);
  }

  lemma ZeroFits(s: State)
    requires s.tick == 0
    ensures TickFits(s.tick)
  {
  }

  /** For every attempt list the builder accepts, the file it writes opens as the log of
      exactly those attempts. */
  lemma BuildThenOpen(sha: HashFunction, limits: Limits, s: State, ds: seq<Decision>)
    requires Authentic(sha, s) && s.WellFormed() && NamesFit(s.entities) && |ds| < FILE_LIMIT && Buildable(sha, limits, s, ds)
    ensures var n, audits := Accepted(sha, s, ds), Audits(sha, s, ds);
            && Writable(sha, s, n, audits)
            && Opens(sha, limits, ReplayBytes(sha, s, n, audits), Log(s, n, audits))
    ensures forall i: nat :: i < |ds| ==> AttemptLogged(sha, s, ds, i)
  {
    hide Authentic, NamesFit, State.WellFormed, IsLog, SaveSize, FitsLive, Accepted, Audits, Table, ReplayFrames,
      ReplayBytes, LogSections, ReplayFile, Writable, ReplaySize, Savable, AttemptLogged;
    forall i: nat | i < |ds| ensures AttemptLogged(sha, s, ds, i) {
      EveryAttemptLogged(sha, s, ds, i);
    }
    var n, audits := Accepted(sha, s, ds), Audits(sha, s, ds);
    BuildableIsWritable(sha, limits, s, ds);
    SizeCounts(SaveSize(s), n, |audits|);
    RunIsLog(sha, s, ds);
    ReplaySizeExact(sha, s, n, audits);
    BuiltFile(sha, s, n, audits);
    BuiltSections(sha, limits, s, n, audits);
  }

  /** An opened file is the log of an attempt list: its records are the accepted attempts, its
      audits the refused ones in order, its checkpoints one per 1024 accepted. */
  lemma OpenedIsRun(sha: HashFunction, limits: Limits, bytes: Bytes, log: Log)
    requires Opens(sha, limits, bytes, log)
    ensures log.world.WellFormed() && NamesFit(log.world.entities) && Authentic(sha, log.world) && log.world.tick == 0
    ensures OPERATIONAL_TICKS * log.accepted <= LAST_TICK && log.accepted + |log.audits| < FILE_LIMIT
    ensures var ds := Attempts(sha, log.world, log.accepted, log.audits);
            && |ds| == log.accepted + |log.audits|
            && Accepted(sha, log.world, ds) == log.accepted && Audits(sha, log.world, ds) == log.audits
  {
    hide Authentic, NamesFit, State.WellFormed, IsLog, Accepted, Audits, Attempts, Table, ReplayFile, Loads,
      CheckpointsFrom, Records, RecordsPayload, AuditsPayload, ReplayManifestOk;
    var fs :| ReplayFile(sha, bytes, fs) && LogSections(sha, limits, Table(fs, 5), |fs|, log);
    LoadedIsAuthentic(sha, limits, Section(Table(fs, 5), 2), log.world);
    LogBound(sha, log.world, log.accepted, log.audits);
    LogIsRun(sha, log.world, log.accepted, log.audits);
  }
}
