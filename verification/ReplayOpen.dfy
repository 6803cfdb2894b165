/** Opening a replay: the exact set of files accepted, and the log each of them holds. */
module ReplayOpen {
  import opened Grid
  import opened World
  import opened Invariants
  import opened Codec
  import opened Hashing
  import opened Decisions
  import opened Step
  import opened Frames
  import opened Wire
  import opened SaveFormat
  import opened SaveWriter
  import opened SaveLoad
  import opened SaveRoundTrip
  import opened ReplayLog
  import opened ReplayWire
  import opened ReplayFormat
  import opened ReplayRead
  import opened ReplayMerge

  type ReplaySections = s: seq<Option<Frame>> | |s| == 6 witness seq(6, _ => None)

  predicate AllSections(t: ReplaySections) { forall tag :: 1 <= tag <= 5 ==> t[tag].Some? }

  function Section(t: ReplaySections, tag: nat): Bytes
    requires AllSections(t) && 1 <= tag <= 5
  {
    t[tag].value.payload
  }

  // ----- checkpoints

  /** The save of checkpoint k loads as a world at its tick with the digest the records give. */
  ghost predicate CheckpointLoads(sha: HashFunction, limits: Limits, save: Bytes, k: nat, records: seq<Record>) {
    && CHECKPOINT_INTERVAL * (k + 1) <= |records|
    && exists st ::
         && Loads(sha, limits, save, st) && st.tick == CHECKPOINT_INTERVAL * (k + 1) * OPERATIONAL_TICKS
         && st.stateHash == records[CHECKPOINT_INTERVAL * (k + 1) - 1].post
  }

  /** From a position on, the section is exactly the checkpoints k to c - 1. */
  ghost predicate CheckpointsFrom(sha: HashFunction, limits: Limits, p: Bytes, at: nat, k: nat, c: nat,
                                  records: seq<Record>)
    decreases c - k
  {
    if k >= c then at == |p|
    else
      && at + 16 <= |p| && Load64(p, at) == CHECKPOINT_INTERVAL * (k + 1)
      && at + 16 + Load64(p, at + 8) <= |p|
      && CheckpointLoads(sha, limits, p[at + 16..at + 16 + Load64(p, at + 8)], k, records)
      && CheckpointsFrom(sha, limits, p, at + 16 + Load64(p, at + 8), k + 1, c, records)
  }

  /** The checkpoint loop of fd_replay_open. */
  method CheckCheckpoints(p: Bytes, c: nat, records: seq<Record>, limits: Limits, sha: HashFunction) returns (code: u32)
    requires 4 <= |p| < FILE_LIMIT && CHECKPOINT_INTERVAL * c <= |records|
    ensures code == OK <==> CheckpointsFrom(sha, limits, p, 4, 0, c, records)
  {
    hide Load64, Loads;
    var position: nat := 4;
    var index: nat := 0;
    while index < c
      invariant index <= c && position <= |p|
      invariant CheckpointsFrom(sha, limits, p, 4, 0, c, records) <==> CheckpointsFrom(sha, limits, p, position, index, c, records)
    {
      if |p| - position < 16 {
        return FORMAT;
      }
      var offset, size := Load64(p, position), Load64(p, position + 8);
      if offset != CHECKPOINT_INTERVAL * (index + 1) || size > |p| - position - 16 {
        return FORMAT;
      }
      var save := p[position + 16..position + 16 + size];
      var world;
      code, world := WorldLoad(save, limits, sha);
      if world == null {
        return;
      }
      if world.tick != offset * OPERATIONAL_TICKS || world.stateHash != records[offset - 1].post {
        return CHECKSUM;
      }
      assert CheckpointLoads(sha, limits, save, index, records);
      position := position + 16 + size;
      index := index + 1;
    }
    if position != |p| {
      return FORMAT;
    }
    code := OK;
  }

  // ----- what an accepted file is

  /** sizeof(fd_replay_record_internal); the record table never overflows its size. */
  const RECORD_STRUCT := 256

  /** A log: the tick-zero world, the number of accepted steps and the audits. */
  datatype Log = Log(world: State, accepted: nat, audits: seq<Audit>)

  /** The manifest names this format and counts sections, records, checkpoints and audits. */
  predicate ReplayManifestOk(p: Bytes, count: nat, n: nat, m: nat) {
    && |p| >= 28 && Load16(p, 0) == 1 && Load16(p, 4) == 1 && Load16(p, 6) == 0 && Load32(p, 8) == count
    && Load64(p, 12) == n && Load32(p, 20) == n / CHECKPOINT_INTERVAL && Load32(p, 24) == m
  }

  /** The manifest in full: format version 1.0, the file's own minor version apart, and the
      four counts, one checkpoint to 1024 records. */
  lemma CountsAreWritten(p: Bytes, count: u32, n: u64, m: u32)
    requires |p| >= 28 && n / 1024 < 0x1_0000_0000
    ensures ReplayManifestOk(p, count, n, m) <==>
              Holds(p, 0, Store16(1) + p[2..4] + Store16(1) + Store16(0) + Store32(count) + Store64(n) + Store32(n / 1024)
                          + Store32(m))
  {
    hide Store16, Store32, Store64, Load16, Load32, Load64;
    Apart(p, 0);
    Together(p, 0);
    assert Holds(p, 2, p[2..4]);
  }

  ghost predicate LogSections(sha: HashFunction, limits: Limits, t: ReplaySections, count: nat, log: Log) {
    && AllSections(t)
    && var n, m := log.accepted, |log.audits|;
       && n + m < FILE_LIMIT && m < 0x1_0000_0000 && MessagesFit(log.audits)
       && ReplayManifestOk(Section(t, 1), count, n, m)
       && Loads(sha, limits, Section(t, 2), log.world) && log.world.tick == 0
       && log.world.WellFormed() && NamesFit(log.world.entities)
       && IsLog(sha, log.world, n, log.audits)
       && Section(t, 3) == RecordsPayload(Records(sha, log.world, n))
       && Section(t, 4) == AuditsPayload(log.audits)
       && |Section(t, 5)| >= 4 && Load32(Section(t, 5), 0) == n / CHECKPOINT_INTERVAL
       && CheckpointsFrom(sha, limits, Section(t, 5), 4, 0, n / CHECKPOINT_INTERVAL, Records(sha, log.world, n))
  }

  ghost predicate ReplayFile(sha: HashFunction, bytes: Bytes, fs: seq<Frame>) {
    && SMALLEST_FILE <= |bytes| < FILE_LIMIT
    && bytes[..8] == ReplayMagic()
    && bytes[|bytes| - DIGEST..] == ReplayFooter(sha, bytes[..|bytes| - DIGEST])
    && ValidBody(sha, bytes, REPLAY_LAST, fs)
  }

  /** bytes is a replay of this log that a context with these limits opens. */
  ghost predicate Opens(sha: HashFunction, limits: Limits, bytes: Bytes, log: Log) {
    && |bytes| <= limits.maxFileBytes
    && exists fs :: ReplayFile(sha, bytes, fs) && LogSections(sha, limits, Table(fs, 5), |fs|, log)
  }

  // ----- the opened replay

  class Replay {
    const tickZeroSave: Bytes
    const tickZeroHash: Digest
    const records: seq<Record>
    const audits: seq<Audit>
    const checkpointCount: nat
    var cursor: nat

    constructor (tickZeroSave: Bytes, tickZeroHash: Digest, records: seq<Record>, audits: seq<Audit>, checkpointCount: nat)
      ensures this.tickZeroSave == tickZeroSave && this.tickZeroHash == tickZeroHash && this.records == records
      ensures this.audits == audits && this.checkpointCount == checkpointCount && cursor == 0
    {
      this.tickZeroSave, this.tickZeroHash, this.records, this.audits := tickZeroSave, tickZeroHash, records, audits;
      this.checkpointCount, this.cursor := checkpointCount, 0;
    }

    /** The handle presents this log. */
    ghost predicate Presents(sha: HashFunction, limits: Limits, log: Log)
      reads this
    {
      && log.world.WellFormed() && NamesFit(log.world.entities) && log.world.tick == 0
      && OPERATIONAL_TICKS * log.accepted <= LAST_TICK
      && Loads(sha, limits, tickZeroSave, log.world) && tickZeroHash == log.world.stateHash
      && records == Records(sha, log.world, log.accepted) && audits == log.audits
      && checkpointCount == log.accepted / CHECKPOINT_INTERVAL && cursor <= log.accepted
    }
  }

  // ----- opening

  /** What the sections of a log show to the reader. */
  lemma LogShows(sha: HashFunction, limits: Limits, t: ReplaySections, count: nat, log: Log)
    requires LogSections(sha, limits, t, count, log)
    ensures var n, m := log.accepted, |log.audits|;
            && ReplayManifestOk(Section(t, 1), count, n, m) && n + m < FILE_LIMIT
            && m < 0x1_0000_0000 && MessagesFit(log.audits) && Section(t, 4) == AuditsPayload(log.audits)
            && Loads(sha, limits, Section(t, 2), log.world) && log.world.tick == 0
            && log.world.WellFormed() && NamesFit(log.world.entities) && IsLog(sha, log.world, n, log.audits)
            && Section(t, 3) == RecordsPayload(Records(sha, log.world, n))
            && |Section(t, 5)| >= 4 && Load32(Section(t, 5), 0) == n / CHECKPOINT_INTERVAL
            && CheckpointsFrom(sha, limits, Section(t, 5), 4, 0, n / CHECKPOINT_INTERVAL, Records(sha, log.world, n))
  {
    hide ReplayManifestOk, Loads, NamesFit, State.WellFormed, IsLog, RecordsPayload, AuditsPayload, CheckpointsFrom,
      Records, Load32, Load64, MessagesFit;
  }

  lemma LogBound(sha: HashFunction, s: State, n: nat, audits: seq<Audit>)
    requires s.WellFormed() && NamesFit(s.entities) && IsLog(sha, s, n, audits)
    ensures s.tick + OPERATIONAL_TICKS * n <= LAST_TICK
  {
    hide NamesFit, State.WellFormed, AuditFits;
  }

  /** The audits read are the audits of any log the section encodes. */
  lemma AuditsAreRead(p: Bytes, n: nat, m: nat, audits: seq<Audit>, stored: seq<Audit>)
    requires |p| == AuditPlace(m) && |audits| == m == |stored| < 0x1_0000_0000
    requires MessagesFit(stored) && p == AuditsPayload(stored)
    requires forall k: nat :: k < m ==> AuditLoaded(p, n, m, audits, k)
    ensures audits == stored
  {
    hide Load32, Store32, ReadAudit, AuditsBytes, AuditChecked, CanonicalAudit, Zeroed;
    assert Holds(p, 0, p);
    HoldsSplit(p, 0, Store32(m), AuditsBytes(stored));
    forall k: nat | k < m ensures audits[k] == stored[k] {
      assert AuditLoaded(p, n, m, audits, k);
      AuditsStored(p, 4, stored, k);
    }
  }

  /** The decoded streams, as the merge wants them. */
  lemma StreamsDecoded(p3: Bytes, p4: Bytes, s: State, records: seq<Record>, audits: seq<Audit>)
    requires s.tick == 0 && |records| + |audits| < FILE_LIMIT
    requires |p3| == 8 + RECORD_SIZE * |records| < FILE_LIMIT && |p4| == AuditPlace(|audits|)
    requires forall k: nat :: k < |records| ==> records[k] == RecordIn(p3, k) && RecordChecked(p3, s.region, s.stateHash, k)
    requires forall k: nat :: k < |audits| ==> AuditLoaded(p4, |records|, |audits|, audits, k)
    ensures Decoded(s, records, audits)
  {
    hide CanonicalRecord, CanonicalAudit, AuditChecked, ReadAudit;
    forall k: nat | k < |records|
      ensures CanonicalRecord(records[k], s.region, k) && Staged(records[k].decision) == records[k].decision
    {
      assert RecordChecked(p3, s.region, s.stateHash, k);
      RecordRead(p3, 8 + RECORD_SIZE * k);
    }
    forall k: nat | k < |audits| ensures CanonicalAudit(audits[k], k, PreviousAttempt(audits, k), |records|, |audits|) {
      assert AuditLoaded(p4, |records|, |audits|, audits, k);
    }
  }

  /** The streams as read are the payloads of a log once the merge accepts them. */
  lemma RecordsAreRead(p: Bytes, records: seq<Record>)
    requires |records| < FILE_LIMIT && |p| == 8 + RECORD_SIZE * |records| && Load64(p, 0) == |records|
    requires forall k: nat :: k < |records| ==> records[k] == RecordIn(p, k)
    ensures p == RecordsPayload(records)
  {
    hide ReadRecord, RecordsBytes, Load64, Store64;
    RecordsRead(p, 8, records);
    StoreLoaded64(p, 0);
    HoldsSplit(p, 0, Store64(|records|), RecordsBytes(records));
    assert p[0..|p|] == p;
  }

  lemma AuditsPayloadRead(p: Bytes, audits: seq<Audit>)
    requires |audits| < 0x1_0000_0000 && MessagesFit(audits) && |p| == AuditPlace(|audits|) && Load32(p, 0) == |audits|
    requires Holds(p, 4, AuditsBytes(audits))
    ensures p == AuditsPayload(audits)
  {
    hide AuditsBytes, Load32, Store32, MessagesFit;
    StoreLoaded32(p, 0);
    HoldsSplit(p, 0, Store32(|audits|), AuditsBytes(audits));
    assert p[0..|p|] == p;
  }

  /** The counts of the manifest agree with the lengths of the streams. */
  predicate CountsAgree(t: ReplaySections, n: nat, c: nat, m: nat)
    requires AllSections(t)
  {
    && 8 + RECORD_SIZE * n < FILE_LIMIT && n + m < FILE_LIMIT
    && |Section(t, 3)| == 8 + RECORD_SIZE * n && Load64(Section(t, 3), 0) == n
    && |Section(t, 4)| == 4 + AUDIT_SIZE * m && Load32(Section(t, 4), 0) == m
    && |Section(t, 5)| >= 4 && Load32(Section(t, 5), 0) == c
    && n / CHECKPOINT_INTERVAL < 0x1_0000_0000 && c == n / CHECKPOINT_INTERVAL
  }

  /** The streams and checkpoints read behind a loaded tick-zero world. */
  method OpenStreams(t: ReplaySections, n: nat, m: nat, limits: Limits, sha: HashFunction, ghost s: State,
                     region: Region, hash: Digest)
    returns (code: u32, records: seq<Record>, audits: seq<Audit>)
    requires AllSections(t) && CountsAgree(t, n, n / CHECKPOINT_INTERVAL, m) && |Section(t, 2)| < FILE_LIMIT && |Section(t, 5)| < FILE_LIMIT
    requires Loads(sha, limits, Section(t, 2), s) && s.WellFormed() && NamesFit(s.entities) && s.tick == 0
    requires region == s.region && hash == s.stateHash && m < 0x1_0000_0000
    ensures code == OK ==>
              && |records| == n && |audits| == m && MessagesFit(audits) && IsLog(sha, s, n, audits) && records == Records(sha, s, n)
              && Section(t, 3) == RecordsPayload(Records(sha, s, n)) && Section(t, 4) == AuditsPayload(audits)
              && CheckpointsFrom(sha, limits, Section(t, 5), 4, 0, n / CHECKPOINT_INTERVAL, records)
    ensures forall count: nat, log :: LogSections(sha, limits, t, count, log) && log.world == s && log.accepted == n && |log.audits| == m
              ==> code == OK && audits == log.audits
  {
    hide Loads, NamesFit, State.WellFormed, IsLog, RecordsPayload, AuditsPayload, CheckpointsFrom, Records, RecordIn,
      RecordChecked, AuditChecked, AuditLoaded, Load32, Load64, MessagesFit, LogSections, ReplayManifestOk,
      RecordsBytes, AuditsBytes, Holds, Decoded, Authentic, Game.Value, Game.Valid;
    LoadedIsAuthentic(sha, limits, Section(t, 2), s);
    forall count: nat, log | LogSections(sha, limits, t, count, log) && log.world == s && log.accepted == n && |log.audits| == m
      ensures MessagesFit(log.audits) && Section(t, 4) == AuditsPayload(log.audits) && IsLog(sha, s, n, log.audits)
      ensures OPERATIONAL_TICKS * n <= LAST_TICK
      ensures CheckpointsFrom(sha, limits, Section(t, 5), 4, 0, n / CHECKPOINT_INTERVAL, Records(sha, s, n))
      ensures forall k: nat :: k < n ==> RecordIn(Section(t, 3), k) == Records(sha, s, n)[k] && RecordChecked(Section(t, 3), region, hash, k)
      ensures forall k: nat :: k < m ==> AuditChecked(Section(t, 4), n, m, k)
    {
      LogShows(sha, limits, t, count, log);
      LogBound(sha, s, n, log.audits);
      RecordsPass(sha, s, n, Section(t, 3));
      AuditsPass(sha, s, n, log.audits, Section(t, 4));
    }
    records, audits := [], [];
    code, records := LoadRecords(Section(t, 3), n, region, hash);
    if code != OK {
      return;
    }
    code, audits := LoadAudits(Section(t, 4), n, m);
    if code != OK {
      return;
    }
    StreamsDecoded(Section(t, 3), Section(t, 4), s, records, audits);
    var world;
    code, world := WorldLoad(Section(t, 2), limits, sha);
    if world == null {
      assert false;
    } else {
      var good := Merge(world, records, audits, sha, s);
      forall count: nat, log | LogSections(sha, limits, t, count, log) && log.world == s && log.accepted == n && |log.audits| == m
        ensures audits == log.audits && records == Records(sha, s, n)
      {
        AuditsAreRead(Section(t, 4), n, m, audits, log.audits);
      }
      if !good {
        code := FORMAT;
        return;
      }
      LogBound(sha, s, n, audits);
      RecordsAreRead(Section(t, 3), records);
      AuditsPayloadRead(Section(t, 4), audits);
      code := CheckCheckpoints(Section(t, 5), n / CHECKPOINT_INTERVAL, records, limits, sha);
    }
  }

  lemma {:induction false} FindFits(fs: seq<Frame>, tag: u16)
    requires AllFit(fs)
    ensures Find(fs, tag).Some? ==> Find(fs, tag).value.Fits()
  {
    if fs != [] { FindFits(fs[..|fs| - 1], tag); }
  }

  lemma SectionsPresent(fs: seq<Frame>)
    requires Ascending(fs) && Complete(fs, REPLAY_LAST) && AllFit(fs)
    ensures AllSections(Table(fs, 5))
    ensures forall tag :: 1 <= tag <= 5 ==> |Section(Table(fs, 5), tag)| < FILE_LIMIT
  {
    hide HasCritical, Ascending, Find;
    forall tag | 1 <= tag <= 5 ensures Table(fs, 5)[tag].Some? && Table(fs, 5)[tag].value.Fits() {
      assert HasCritical(fs, tag);
      FindIs(fs, tag);
      FindFits(fs, tag);
    }
  }

  /** fd_replay_open behind its section parser. */
  method OpenSections(t: ReplaySections, count: nat, limits: Limits, sha: HashFunction)
    returns (code: u32, replay: Replay?, ghost log: Log)
    requires AllSections(t) && forall tag :: 1 <= tag <= 5 ==> |Section(t, tag)| < FILE_LIMIT
    ensures code == OK <==> replay != null
    ensures replay != null ==>
              && fresh(replay) && replay.cursor == 0 && LogSections(sha, limits, t, count, log)
              && replay.Presents(sha, limits, log)
    ensures forall l :: LogSections(sha, limits, t, count, l) ==> replay != null && log == l
  {
    hide Loads, NamesFit, State.WellFormed, IsLog, RecordsPayload, AuditsPayload, CheckpointsFrom, Records,
      Load32, Load64, Load16, MessagesFit, LogSections, RecordsBytes, AuditsBytes, Authentic, Game.Valid,
      WorldOk, StateHash;
    forall l | LogSections(sha, limits, t, count, l)
      ensures ReplayManifestOk(Section(t, 1), count, l.accepted, |l.audits|)
      ensures CountsAgree(t, l.accepted, l.accepted / CHECKPOINT_INTERVAL, |l.audits|)
      ensures Loads(sha, limits, Section(t, 2), l.world) && l.world.tick == 0
    {
      LogShows(sha, limits, t, count, l);
      CountsShow(sha, limits, t, count, l);
    }
    replay := null;
    log := Log(AnyState(), 0, []);
    var p := Section(t, 1);
    if |p| < 28 || Load16(p, 0) != 1 || Load16(p, 4) != 1 || Load16(p, 6) > 0 || Load32(p, 8) != count {
      return VERSION, null, log;
    }
    var n, c, m := Load64(p, 12), Load32(p, 20), Load32(p, 24);
    if !CountsAgree(t, n, c, m) {
      return FORMAT, null, log;
    }
    var world;
    code, world := WorldLoad(Section(t, 2), limits, sha);
    if world == null {
      return;
    }
    if world.tick != 0 {
      return STATE, null, log;
    }
    if RECORD_STRUCT * n >= FILE_LIMIT {
      assert false;
    }
    ghost var s := world.Value();
    LoadedIsAuthentic(sha, limits, Section(t, 2), s);
    Rights(sha, s);
    var records, audits;
    code, records, audits := OpenStreams(t, n, m, limits, sha, s, world.region, world.stateHash);
    if code != OK {
      return;
    }
    replay := new Replay(Section(t, 2), world.stateHash, records, audits, c);
    log := Log(s, n, audits);
    LogBound(sha, s, n, audits);
    assert LogSections(sha, limits, t, count, log) by { LogIs(sha, limits, t, count, log, records); }
  }

  function AnyState(): State {
    State(Config(Dims(1, 1), 0, 0, 0, 0, 0, 0, 0), [], [], NoHash(), NoHash(), 0, [], [], Region(0, 0, 0, 0, 0, 0, 0, 0, 0, 0, 0),
          0, 0, 0, NoHash())
  }

  lemma CountsShow(sha: HashFunction, limits: Limits, t: ReplaySections, count: nat, log: Log)
    requires LogSections(sha, limits, t, count, log) && forall tag :: 1 <= tag <= 5 ==> |Section(t, tag)| < FILE_LIMIT
    ensures CountsAgree(t, log.accepted, log.accepted / CHECKPOINT_INTERVAL, |log.audits|)
  {
    hide Loads, NamesFit, State.WellFormed, IsLog, RecordsPayload, AuditsPayload, CheckpointsFrom, Records, Load16,
      Load32, Load64, MessagesFit, RecordChecked, AuditChecked;
    LogShows(sha, limits, t, count, log);
    LoadedIsAuthentic(sha, limits, Section(t, 2), log.world);
    LogBound(sha, log.world, log.accepted, log.audits);
    RecordsPass(sha, log.world, log.accepted, Section(t, 3));
    AuditsPass(sha, log.world, log.accepted, log.audits, Section(t, 4));
  }

  lemma LogIs(sha: HashFunction, limits: Limits, t: ReplaySections, count: nat, log: Log, records: seq<Record>)
    requires AllSections(t)
    requires var n, m := log.accepted, |log.audits|;
             && n + m < FILE_LIMIT && m < 0x1_0000_0000 && MessagesFit(log.audits)
             && ReplayManifestOk(Section(t, 1), count, n, m)
             && Loads(sha, limits, Section(t, 2), log.world) && log.world.tick == 0
             && log.world.WellFormed() && NamesFit(log.world.entities)
             && IsLog(sha, log.world, n, log.audits) && records == Records(sha, log.world, n)
             && Section(t, 3) == RecordsPayload(records)
             && Section(t, 4) == AuditsPayload(log.audits)
             && |Section(t, 5)| >= 4 && Load32(Section(t, 5), 0) == n / CHECKPOINT_INTERVAL
             && CheckpointsFrom(sha, limits, Section(t, 5), 4, 0, n / CHECKPOINT_INTERVAL, records)
    ensures LogSections(sha, limits, t, count, log)
  {
    hide Loads, NamesFit, State.WellFormed, IsLog, RecordsPayload, AuditsPayload, CheckpointsFrom, Records, Load16,
      Load32, Load64, MessagesFit, ReplayManifestOk;
  }

  lemma OneReplaySplit(sha: HashFunction, bytes: Bytes, fs: seq<Frame>)
    requires |bytes| >= 8 + DIGEST && ValidBody(sha, bytes, REPLAY_LAST, fs)
    ensures AllSections(Table(fs, 5)) && forall tag :: 1 <= tag <= 5 ==> |Section(Table(fs, 5), tag)| < FILE_LIMIT
    ensures forall gs :: ReplayFile(sha, bytes, gs) ==> gs == fs
  {
    hide Complete, BodyBytes, Table;
    SectionsPresent(fs);
    WholeBody(sha, bytes, REPLAY_LAST, fs);
  }

  /** fd_replay_open: accepts exactly the files that hold the log of a run, and gives back
      that log. */
  method Open(bytes: Bytes, limits: Limits, sha: HashFunction) returns (code: u32, replay: Replay?, ghost log: Log)
    requires |bytes| < FILE_LIMIT
    ensures code == OK <==> replay != null
    ensures replay != null ==>
              fresh(replay) && replay.cursor == 0 && Opens(sha, limits, bytes, log) && replay.Presents(sha, limits, log)
    ensures forall l :: Opens(sha, limits, bytes, l) ==> replay != null && log == l
  {
    hide LogSections, ValidBody, ReplayFooter, Table, Replay.Presents;
    replay := null;
    log := Log(AnyState(), 0, []);
    if |bytes| > limits.maxFileBytes {
      return CAPACITY, null, log;
    }
    if |bytes| < SMALLEST_FILE || bytes[..8] != ReplayMagic() {
      return if |bytes| >= 8 && bytes[..7] == ReplayMagic()[..7] then VERSION else FORMAT, null, log;
    }
    if ReplayFooter(sha, bytes[..|bytes| - DIGEST]) != bytes[|bytes| - DIGEST..] {
      return CHECKSUM, null, log;
    }
    var sections, count;
    ghost var fs;
    code, sections, count, fs := ParseReplay(bytes, sha);
    if code != OK {
      return;
    }
    OneReplaySplit(sha, bytes, fs);
    code, replay, log := OpenSections(sections, count, limits, sha);
    if replay != null {
      assert ReplayFile(sha, bytes, fs) && LogSections(sha, limits, Table(fs, 5), |fs|, log);
    }
  }
}
