/** Playing an opened replay back: batches of recorded decisions, committed as two fields. */
module ReplayAdvance {
  import opened Grid
  import opened World
  import opened Invariants
  import opened Hashing
  import opened Decisions
  import opened Step
  import opened Frames
  import opened SaveFormat
  import opened SaveWriter
  import opened SaveLoad
  import opened SaveRoundTrip
  import opened ReplayLog
  import opened ReplayFormat
  import opened ReplayBuild
  import opened ReplayRead
  import opened ReplayMerge
  import opened ReplayOpen

  /** Where the log says the world must be before the next decision. */
  ghost predicate AtCursor(sha: HashFunction, log: Log, cursor: nat, s: State)
    requires log.world.WellFormed() && NamesFit(log.world.entities) && log.world.tick == 0
    requires OPERATIONAL_TICKS * log.accepted <= LAST_TICK && cursor <= log.accepted
  {
    s.tick == OPERATIONAL_TICKS * cursor && s.stateHash == Nth(sha, log.world, cursor).stateHash
  }

  /** The tick and digest expected at the cursor are those of the cursor's state. */
  lemma CursorState(sha: HashFunction, limits: Limits, replay: Replay, log: Log)
    requires replay.Presents(sha, limits, log)
    ensures var n, c := log.accepted, replay.cursor;
            && |replay.records| == n
            && (c < n ==> replay.records[c].tickBefore == OPERATIONAL_TICKS * c
                          && replay.records[c].pre == Nth(sha, log.world, c).stateHash)
            && (c == n && n > 0 ==> replay.records[n - 1].tickAfter == OPERATIONAL_TICKS * n
                                    && replay.records[n - 1].post == Nth(sha, log.world, n).stateHash)
            && (n == 0 ==> replay.tickZeroHash == Nth(sha, log.world, 0).stateHash)
  {
    hide Loads, NamesFit, State.WellFormed, Records, Nth, Stepped, PassDecision;
    var n, c, s := log.accepted, replay.cursor, log.world;
    NthZero(sha, s);
    if c < n {
      RecordAt(sha, s, n, c);
      RecordEdges(sha, Nth(sha, s, c));
    }
    if n > 0 {
      RecordAt(sha, s, n, n - 1);
      RecordEdges(sha, Nth(sha, s, n - 1));
    }
  }

  /** The world from which a replay is played: fd_replay_create_world. */
  method CreateWorld(replay: Replay, limits: Limits, sha: HashFunction, ghost log: Log) returns (code: u32, w: Game?)
    requires replay.Presents(sha, limits, log) && |replay.tickZeroSave| < FILE_LIMIT
    ensures code == OK && w != null && fresh(w) && fresh(w.tiles) && w.Valid() && w.Value() == log.world
  {
    hide Loads, NamesFit, State.WellFormed, Records;
    code, w := WorldLoad(replay.tickZeroSave, limits, sha);
  }

  // ----- one batch

  datatype Status = NoStatus | Status(cursor: nat, total: nat, advanced: nat, complete: bool, stateHash: Digest)

  /** The world is the cursor's state itself. */
  ghost predicate OnLog(sha: HashFunction, log: Log, cursor: nat, s: State)
    requires log.world.WellFormed() && NamesFit(log.world.entities) && log.world.tick == 0
    requires OPERATIONAL_TICKS * log.accepted <= LAST_TICK && cursor <= log.accepted
  {
    s == Nth(sha, log.world, cursor)
  }

  /** The expected pre-state test of fd_replay_advance. */
  method MatchesCursor(replay: Replay, world: Game, ghost sha: HashFunction, ghost limits: Limits, ghost log: Log)
    returns (good: bool)
    requires replay.Presents(sha, limits, log)
    ensures good <==> AtCursor(sha, log, replay.cursor, world.Value())
  {
    hide Loads, NamesFit, State.WellFormed, Records, Nth;
    CursorState(sha, limits, replay, log);
    var expectedTick, expectedHash := 0, replay.tickZeroHash;
    if replay.cursor < |replay.records| {
      expectedTick, expectedHash := replay.records[replay.cursor].tickBefore, replay.records[replay.cursor].pre;
    } else if |replay.records| > 0 {
      expectedTick := replay.records[|replay.records| - 1].tickAfter;
      expectedHash := replay.records[|replay.records| - 1].post;
    }
    good := world.tick == expectedTick && world.stateHash == expectedHash;
  }

  /** The worlds of a log can be cloned, and so can any world that matches it. */
  lemma CursorWorldClones(sha: HashFunction, limits: Limits, save: Bytes, log: Log, cursor: nat)
    requires Loads(sha, limits, save, log.world) && log.world.tick == 0
    requires log.world.WellFormed() && NamesFit(log.world.entities)
    requires OPERATIONAL_TICKS * log.accepted <= LAST_TICK && cursor < log.accepted
    ensures Cloneable(limits, Nth(sha, log.world, cursor))
  {
    hide Loads, NamesFit, State.WellFormed, Nth, Savable, SaveSize, FitsLive, Authentic;
    LoadedFits(sha, limits, save, log.world);
    NthIsSavable(sha, log.world, cursor);
    NthChangesTwoFields(sha, log.world, cursor);
  }

  /** Whether the next record is the step the candidate just took. */
  predicate Confirms(record: Record, hash: Digest, event: Digest) { hash == record.post && event == record.event }

  /** The records from the cursor on are those of s and its successors. */
  ghost predicate OwnRecords(sha: HashFunction, s: State, records: seq<Record>, cursor: nat, count: nat)
    requires s.WellFormed() && NamesFit(s.entities) && s.tick + OPERATIONAL_TICKS * count <= LAST_TICK
    requires cursor + count <= |records|
  {
    forall k: nat :: k < count ==> TickFits(Nth(sha, s, k).tick) && records[cursor + k] == RecordOf(sha, Nth(sha, s, k))
  }

  /** The replaying loop, on a clone: on success the clone has taken count steps and each gave
      the recorded digest. */
  method PlayBatch(candidate: Game, records: seq<Record>, cursor: nat, count: nat, sha: HashFunction, ghost s: State)
    returns (code: u32)
    requires cursor + count <= |records| && candidate.Valid() && candidate.Value() == s
    requires Authentic(sha, s) && s.WellFormed() && NamesFit(s.entities) && s.tick + OPERATIONAL_TICKS * count <= LAST_TICK
    modifies candidate`tick, candidate`stateHash
    ensures candidate.Valid()
    ensures code == OK ==> candidate.Value() == Nth(sha, s, count)
    ensures code == OK && count > 0 ==> candidate.stateHash == records[cursor + count - 1].post
    ensures OwnRecords(sha, s, records, cursor, count) ==> code == OK
  {
    hide Authentic, NamesFit, State.WellFormed, Nth, Game.Value, Game.Valid, Verdict, RecordOf, TickFits,
      StagedProperly;
    NthZero(sha, s);
    var index: nat := 0;
    while index < count
      invariant index <= count && candidate.Valid() && candidate.Value() == Nth(sha, s, index)
      invariant index > 0 ==> candidate.stateHash == records[cursor + index - 1].post
    {
      var record := records[cursor + index];
      ghost var at := Nth(sha, s, index);
      if TickFits(at.tick) && record == RecordOf(sha, at) { OwnRecordConfirms(sha, s, index); }
      var diag, step := TryAttempt(candidate, record.decision, sha, s, index);
      if diag.code != OK {
        return diag.code;
      }
      ProperStep(sha, step);
      StepEvent(sha, at, step);
      HashOfNth(candidate, sha, s, index + 1);
      if !Confirms(record, candidate.stateHash, step.stagedEventHash) {
        return CHECKSUM;
      }
      index := index + 1;
    }
    code := OK;
  }

  lemma HashOfNth(w: Game, sha: HashFunction, s: State, n: nat)
    requires s.WellFormed() && NamesFit(s.entities) && s.tick + OPERATIONAL_TICKS * n <= LAST_TICK
    requires w.Value() == Nth(sha, s, n)
    ensures w.stateHash == Nth(sha, s, n).stateHash && w.tick == Nth(sha, s, n).tick
  {
  }

  /** The record of a state is accepted there and confirmed by the step. */
  lemma OwnRecordConfirms(sha: HashFunction, s: State, n: nat)
    requires s.WellFormed() && NamesFit(s.entities) && s.tick + OPERATIONAL_TICKS * (n + 1) <= LAST_TICK
    requires TickFits(Nth(sha, s, n).tick)
    ensures var r := RecordOf(sha, Nth(sha, s, n));
            Verdict(Nth(sha, s, n), r.decision).code == OK && Confirms(r, Nth(sha, s, n + 1).stateHash, sha([]))
  {
    hide NamesFit, State.WellFormed, Nth, Verdict, Stepped, PassDecision;
    PassIsAccepted(Nth(sha, s, n));
    NthStep(sha, s, n);
  }

  /** The records from the cursor on are the records of the states from the cursor on. */
  lemma RecordsFromCursor(sha: HashFunction, log: Log, records: seq<Record>, cursor: nat, count: nat)
    requires log.world.WellFormed() && NamesFit(log.world.entities) && log.world.tick == 0
    requires OPERATIONAL_TICKS * log.accepted <= LAST_TICK && cursor + count <= log.accepted
    requires records == Records(sha, log.world, log.accepted)
    ensures OwnRecords(sha, Nth(sha, log.world, cursor), records, cursor, count)
  {
    hide NamesFit, State.WellFormed, Nth, RecordOf, Records;
    forall k: nat | k < count
      ensures TickFits(Nth(sha, Nth(sha, log.world, cursor), k).tick)
      ensures records[cursor + k] == RecordOf(sha, Nth(sha, Nth(sha, log.world, cursor), k))
    {
      NthAdds(sha, log.world, cursor, k);
      RecordAt(sha, log.world, log.accepted, cursor + k);
    }
  }

  lemma PostIsCursorHash(sha: HashFunction, log: Log, records: seq<Record>, cursor: nat)
    requires log.world.WellFormed() && NamesFit(log.world.entities) && log.world.tick == 0
    requires OPERATIONAL_TICKS * log.accepted <= LAST_TICK && 0 < cursor <= log.accepted
    requires records == Records(sha, log.world, log.accepted)
    ensures records[cursor - 1].post == Nth(sha, log.world, cursor).stateHash
  {
    hide NamesFit, State.WellFormed, Nth, RecordOf, Records;
    RecordAt(sha, log.world, log.accepted, cursor - 1);
  }

  /** Plays count records on a clone and, once all of them check out, copies the clone's clock
      and digest: the same as stepping the world in place. */
  method CommitBatch(world: Game, records: seq<Record>, cursor: nat, count: nat, limits: Limits, sha: HashFunction,
                     ghost s: State)
    returns (code: u32)
    requires 0 < count && cursor + count <= |records| && world.Valid() && world.Value() == s
    requires Authentic(sha, s) && s.WellFormed() && NamesFit(s.entities) && s.tick + OPERATIONAL_TICKS * count <= LAST_TICK
    modifies world`tick, world`stateHash
    ensures world.Valid() && (code != OK ==> world.Value() == s)
    ensures code == OK ==> world.Value() == Nth(sha, s, count) && world.stateHash == records[cursor + count - 1].post
    ensures Cloneable(limits, s) && OwnRecords(sha, s, records, cursor, count) ==> code == OK
  {
    hide Authentic, NamesFit, State.WellFormed, Nth, RecordOf, TickFits, Savable, SaveSize, FitsLive;
    var candidate;
    code, candidate := CloneViaSave(world, limits, sha);
    if candidate != null {
      code := PlayBatch(candidate, records, cursor, count, sha, s);
      if code == OK {
        HashOfNth(candidate, sha, s, count);
        NthChangesTwoFields(sha, s, count);
        world.tick, world.stateHash := candidate.tick, candidate.stateHash;
      }
    }
  }

  /** The batch, cut to what is left of the log, has moved cursor and world from one recorded
      state to another. */
  ghost predicate Advanced(sha: HashFunction, log: Log, before: nat, s: State, decisions: u64, after: nat, t: State,
                           status: Status)
    requires log.world.WellFormed() && NamesFit(log.world.entities) && log.world.tick == 0
    requires OPERATIONAL_TICKS * log.accepted <= LAST_TICK
  {
    && before <= log.accepted && s.WellFormed() && NamesFit(s.entities)
    && var count: nat := Lesser(decisions, log.accepted - before);
       && after == before + count && s.tick + OPERATIONAL_TICKS * count <= LAST_TICK
       && t == Nth(sha, s, count)
       && AtCursor(sha, log, before, s) && AtCursor(sha, log, after, t)
       && status == Status(after, log.accepted, count, after == log.accepted, t.stateHash)
  }

  /** fd_replay_advance: on success the world has taken exactly the recorded steps in place,
      although only its clock and digest are written; on failure neither world nor cursor has
      moved; and a world on the log never fails. */
  method Advance(replay: Replay, world: Game, decisions: u64, limits: Limits, sha: HashFunction, ghost log: Log)
    returns (code: u32, status: Status)
    requires replay.Presents(sha, limits, log) && world.Valid() && Authentic(sha, world.Value())
    modifies replay`cursor, world`tick, world`stateHash
    ensures replay.Presents(sha, limits, log) && world.Valid()
    ensures code != OK ==> replay.cursor == old(replay.cursor) && world.Value() == old(world.Value())
    ensures code == OK ==>
              Advanced(sha, log, old(replay.cursor), old(world.Value()), decisions, replay.cursor, world.Value(), status)
    ensures OnLog(sha, log, old(replay.cursor), old(world.Value())) ==>
              code == OK && OnLog(sha, log, replay.cursor, world.Value())
  {
    hide Loads, Authentic, NamesFit, State.WellFormed, Records, Nth, RecordOf, Cloneable, TickFits, Game.Valid, Stepped,
      OwnRecords, Savable, SaveSize, FitsLive, StateHash, WorldOk, SizesOk, Dims.Count;
    ghost var s := world.Value();
    var cursor := replay.cursor;
    Rights(sha, s);
    status := NoStatus;
    var good := MatchesCursor(replay, world, sha, limits, log);
    if !good {
      return CHECKSUM, status;
    }
    var count := Lesser(decisions, |replay.records| - replay.cursor);
    NthZero(sha, s);
    if count > 0 {
      CursorWorldClones(sha, limits, replay.tickZeroSave, log, cursor);
      RecordsFromCursor(sha, log, replay.records, cursor, count);
      PostIsCursorHash(sha, log, replay.records, cursor + count);
      code := CommitBatch(world, replay.records, cursor, count, limits, sha, s);
      if code != OK {
        return;
      }
    }
    NthAdds(sha, log.world, cursor, count);
    replay.cursor := replay.cursor + count;
    status := Status(replay.cursor, |replay.records|, count, replay.cursor == |replay.records|, world.stateHash);
    code := OK;
  }

  // ----- whole schedules

  function Total(batches: seq<u64>): nat { if batches == [] then 0 else Total(batches[..|batches| - 1]) + batches[|batches| - 1] }

  /** Two batches move the cursor as their sum does. */
  lemma CursorsAdd(cursor: nat, n: nat, a: nat, b: nat)
    requires cursor <= n
    ensures cursor + Lesser(a, n - cursor) + Lesser(b, n - (cursor + Lesser(a, n - cursor))) == cursor + Lesser(a + b, n - cursor)
  {
  }

  /** Advancing by a and then by b, each cut to what is left, leaves cursor and world where
      advancing by a + b does. */
  lemma BatchesAdd(sha: HashFunction, s: State, cursor: nat, n: nat, a: nat, b: nat, first: nat, second: nat)
    requires s.WellFormed() && NamesFit(s.entities) && cursor <= n && s.tick + OPERATIONAL_TICKS * (n - cursor) <= LAST_TICK
    requires first == Lesser(a, n - cursor) && second == Lesser(b, n - (cursor + first))
    ensures first + second == Lesser(a + b, n - cursor)
    ensures Nth(sha, Nth(sha, s, first), second) == Nth(sha, s, first + second)
  {
    hide Nth, Stepped, NamesFit, State.WellFormed;
    CursorsAdd(cursor, n, a, b);
    NthAdds(sha, s, first, second);
  }

  /** Every schedule of batch sizes plays: none of its calls fails, and only their total
      decides where it ends. */
  method Play(replay: Replay, world: Game, batches: seq<u64>, limits: Limits, sha: HashFunction, ghost log: Log)
    requires replay.Presents(sha, limits, log) && world.Valid() && Authentic(sha, log.world)
    requires OnLog(sha, log, replay.cursor, world.Value())
    modifies replay`cursor, world`tick, world`stateHash
    ensures replay.Presents(sha, limits, log) && world.Valid() && OnLog(sha, log, replay.cursor, world.Value())
    ensures replay.cursor == old(replay.cursor) + Lesser(Total(batches), log.accepted - old(replay.cursor))
  {
    hide Loads, Authentic, NamesFit, State.WellFormed, Records, Nth, Game.Value, Game.Valid, AtCursor;
    ghost var start := replay.cursor;
    var index: nat := 0;
    while index < |batches|
      invariant index <= |batches| && replay.Presents(sha, limits, log) && world.Valid()
      invariant OnLog(sha, log, replay.cursor, world.Value())
      invariant replay.cursor == start + Lesser(Total(batches[..index]), log.accepted - start)
    {
      NthIsAuthentic(sha, log.world, replay.cursor);
      CursorsAdd(start, log.accepted, Total(batches[..index]), batches[index]);
      assert batches[..index + 1][..index] == batches[..index];
      var code, status := Advance(replay, world, batches[index], limits, sha, log);
      if code != OK {
        assert false;
      }
      index := index + 1;
    }
    assert batches[..index] == batches;
  }
}
