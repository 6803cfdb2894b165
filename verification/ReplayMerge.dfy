/** The merge of the two streams: attempts are replayed in index order, audits where an audit
    claims the index and records everywhere else. */
module ReplayMerge {
  import opened Grid
  import opened World
  import opened Invariants
  import opened Hashing
  import opened Decisions
  import opened Step
  import opened Frames
  import opened SaveFormat
  import opened ReplayLog
  import opened ReplayWire
  import opened ReplayBuild
  import opened ReplayRead

  /** What the two decoding loops have established about the streams. */
  ghost predicate Decoded(s: State, records: seq<Record>, audits: seq<Audit>) {
    && s.tick == 0 && OPERATIONAL_TICKS * |records| <= LAST_TICK && |records| + |audits| < FILE_LIMIT
    && (forall k: nat :: k < |records| ==>
          CanonicalRecord(records[k], s.region, k) && Staged(records[k].decision) == records[k].decision)
    && (forall k: nat :: k < |audits| ==>
          CanonicalAudit(audits[k], k, PreviousAttempt(audits, k), |records|, |audits|))
  }

  /** The comparison of one audit with the diagnostic of the replayed attempt. */
  predicate Matches(a: Audit, diag: Diagnostic) {
    diag.code == a.code && diag.field == a.field && diag.item == a.item && MessageBytes(diag.message) == a.message
  }

  lemma MatchingAudit(at: State, a: Audit)
    requires a.tick == at.tick && Auditable(a.code)
    ensures Matches(a, Verdict(at, a.decision)) <==>
              a == AuditOf(at, a.attempt, a.decision) && Verdict(at, a.decision).code != OK
  {
    hide Verdict, MessageBytes;
  }

  /** The progress of the merge: a accepted and b audited attempts replayed. */
  ghost predicate Merged(sha: HashFunction, s: State, records: seq<Record>, audits: seq<Audit>, a: nat, b: nat)
    requires s.WellFormed() && NamesFit(s.entities)
  {
    && Decoded(s, records, audits) && a <= |records| && b <= |audits|
    && (forall j: nat :: j < a ==> TickFits(Nth(sha, s, j).tick) && records[j] == RecordOf(sha, Nth(sha, s, j)))
    && (forall j: nat :: j < b ==> AuditFits(sha, s, |records|, audits, j))
    && (b > 0 ==> audits[b - 1].attempt < a + b)
    && (b < |audits| ==> audits[b].attempt >= a + b)
  }

  /** What the decoding checks say about one audit. */
  lemma DecodedAudit(s: State, records: seq<Record>, audits: seq<Audit>, b: nat)
    requires Decoded(s, records, audits) && b < |audits|
    ensures b <= audits[b].attempt < |records| + |audits| && audits[b].attempt - b <= |records|
    ensures audits[b].tick == OPERATIONAL_TICKS * (audits[b].attempt - b) && Auditable(audits[b].code)
    ensures b > 0 ==> audits[b - 1].attempt < audits[b].attempt
  {
    hide PrintableText, Auditable, CanonicalRecord;
    assert CanonicalAudit(audits[b], b, PreviousAttempt(audits, b), |records|, |audits|);
  }

  lemma AuditMerged(sha: HashFunction, s: State, records: seq<Record>, audits: seq<Audit>, a: nat, b: nat)
    requires s.WellFormed() && NamesFit(s.entities) && Merged(sha, s, records, audits, a, b)
    requires b < |audits| && audits[b].attempt == a + b
    ensures audits[b].tick == Nth(sha, s, a).tick && Auditable(audits[b].code)
    ensures Matches(audits[b], Verdict(Nth(sha, s, a), audits[b].decision)) ==> Merged(sha, s, records, audits, a, b + 1)
  {
    hide NamesFit, State.WellFormed, Verdict, Nth, AuditOf, RecordOf, Auditable, Matches, Decoded, AuditFits;
    TicksDecoded(s, records, audits);
    DecodedAudit(s, records, audits, b);
    MatchingAudit(Nth(sha, s, a), audits[b]);
    if b + 1 < |audits| {
      DecodedAudit(s, records, audits, b + 1);
    }
    if Matches(audits[b], Verdict(Nth(sha, s, a), audits[b].decision)) {
      MatchingFits(sha, s, |records|, audits, b, a);
    }
  }

  lemma TicksDecoded(s: State, records: seq<Record>, audits: seq<Audit>)
    requires Decoded(s, records, audits)
    ensures s.tick == 0 && OPERATIONAL_TICKS * |records| <= LAST_TICK
  {
  }

  lemma MatchingFits(sha: HashFunction, s: State, n: nat, audits: seq<Audit>, b: nat, a: nat)
    requires s.WellFormed() && NamesFit(s.entities) && s.tick + OPERATIONAL_TICKS * n <= LAST_TICK
    requires b < |audits| && audits[b].attempt == a + b < n + |audits| && a <= n
    requires b > 0 ==> audits[b - 1].attempt < audits[b].attempt
    requires audits[b] == AuditOf(Nth(sha, s, a), audits[b].attempt, audits[b].decision)
    requires Verdict(Nth(sha, s, a), audits[b].decision).code != OK
    ensures AuditFits(sha, s, n, audits, b)
  {
    hide NamesFit, State.WellFormed, Verdict, Nth, AuditOf;
  }

  /** In a log, the next audit matches. */
  lemma AuditExpected(sha: HashFunction, s: State, records: seq<Record>, audits: seq<Audit>, a: nat, b: nat)
    requires s.WellFormed() && NamesFit(s.entities) && s.tick + OPERATIONAL_TICKS * a <= LAST_TICK
    requires b < |audits| && audits[b].attempt == a + b && IsLog(sha, s, |records|, audits)
    requires audits[b].tick == Nth(sha, s, a).tick && Auditable(audits[b].code)
    ensures Matches(audits[b], Verdict(Nth(sha, s, a), audits[b].decision))
  {
    hide NamesFit, State.WellFormed, Verdict, Nth, AuditOf, Auditable, Matches;
    MatchingAudit(Nth(sha, s, a), audits[b]);
    assert AuditFits(sha, s, |records|, audits, b);
  }

  /** No index is left over: with all records used up, the next audit is due. */
  lemma AuditDue(sha: HashFunction, s: State, records: seq<Record>, audits: seq<Audit>, b: nat)
    requires s.WellFormed() && NamesFit(s.entities) && Merged(sha, s, records, audits, |records|, b) && b < |audits|
    ensures audits[b].attempt == |records| + b
  {
    hide NamesFit, State.WellFormed, Verdict, Nth, AuditOf, RecordOf, CanonicalRecord, AuditFits;
    assert CanonicalAudit(audits[b], b, PreviousAttempt(audits, b), |records|, |audits|);
  }

  /** The record the merge expects next, as a condition on its outcome. */
  lemma RecordMerged(sha: HashFunction, s: State, records: seq<Record>, audits: seq<Audit>, a: nat, b: nat)
    requires s.WellFormed() && NamesFit(s.entities) && Merged(sha, s, records, audits, a, b) && a < |records|
    requires !(b < |audits| && audits[b].attempt == a + b)
    requires records[a].tickBefore == Nth(sha, s, a).tick && records[a].pre == Nth(sha, s, a).stateHash
    ensures TickFits(Nth(sha, s, a).tick) && Verdict(Nth(sha, s, a), records[a].decision).code == OK
    ensures s.tick + OPERATIONAL_TICKS * (a + 1) <= LAST_TICK
    ensures (records[a].tickAfter == Nth(sha, s, a + 1).tick && records[a].post == Nth(sha, s, a + 1).stateHash
             && records[a].event == sha([])) ==> Merged(sha, s, records, audits, a + 1, b)
  {
    hide NamesFit, State.WellFormed, Verdict, Nth, AuditOf, RecordOf, Stepped, AuditFits, CanonicalAudit, PassDecision;
    var at := Nth(sha, s, a);
    SameRegion(sha, s, a);
    CanonicalIsRecordOf(sha, at, records[a], a);
    PassIsAccepted(at);
    NthStep(sha, s, a);
  }

  /** A record stream that is the run's agrees with the next record. */
  lemma RecordExpected(sha: HashFunction, s: State, records: seq<Record>, a: nat)
    requires s.WellFormed() && NamesFit(s.entities) && s.tick + OPERATIONAL_TICKS * |records| <= LAST_TICK && a < |records|
    requires records == Records(sha, s, |records|)
    ensures records[a].tickBefore == Nth(sha, s, a).tick && records[a].pre == Nth(sha, s, a).stateHash
    ensures records[a].tickAfter == Nth(sha, s, a + 1).tick && records[a].post == Nth(sha, s, a + 1).stateHash
    ensures records[a].event == sha([])
  {
    hide NamesFit, State.WellFormed, Nth, Stepped, Records, PassDecision;
    RecordAt(sha, s, |records|, a);
  }

  lemma MergeDone(sha: HashFunction, s: State, records: seq<Record>, audits: seq<Audit>)
    requires s.WellFormed() && NamesFit(s.entities) && Merged(sha, s, records, audits, |records|, |audits|)
    ensures IsLog(sha, s, |records|, audits) && records == Records(sha, s, |records|)
  {
    hide NamesFit, State.WellFormed, Nth, Records, RecordOf, AuditFits, CanonicalAudit, CanonicalRecord;
    forall k: nat | k < |records| ensures records[k] == Records(sha, s, |records|)[k] {
      RecordAt(sha, s, |records|, k);
    }
  }

  lemma MergeStart(sha: HashFunction, s: State, records: seq<Record>, audits: seq<Audit>)
    requires s.WellFormed() && NamesFit(s.entities) && Decoded(s, records, audits)
    ensures Merged(sha, s, records, audits, 0, 0) && Nth(sha, s, 0) == s
  {
    hide NamesFit, State.WellFormed, Verdict, AuditFits, CanonicalRecord;
    NthZero(sha, s);
  }

  lemma StepEvent(sha: HashFunction, at: State, step: StepOutput)
    requires at.WellFormed() && NamesFit(at.entities) && TickFits(at.tick)
    requires step.StepResult? && RecordFrom(step) == RecordOf(sha, at)
    ensures step.stagedEventHash == sha([])
  {
    hide NamesFit, Stepped, PassDecision;
  }

  /** One audited attempt: replayed, it must fail exactly as recorded and change nothing. */
  method ReplayAudit(world: Game, audit: Audit, sha: HashFunction, ghost s: State, ghost a: nat) returns (good: bool)
    requires Authentic(sha, s) && s.WellFormed() && NamesFit(s.entities) && s.tick + OPERATIONAL_TICKS * a <= LAST_TICK
    requires world.Valid() && world.Value() == Nth(sha, s, a) && Auditable(audit.code)
    modifies world`tick, world`stateHash
    ensures world.Valid() && (good <==> Matches(audit, Verdict(Nth(sha, s, a), audit.decision)))
    ensures good ==> world.Value() == Nth(sha, s, a)
  {
    hide Authentic, Nth, Verdict, NamesFit, State.WellFormed, MessageBytes, StagedProperly, RecordFrom, RecordOf;
    var preTick, preHash := world.tick, world.stateHash;
    var diag, step := TryAttempt(world, audit.decision, sha, s, a);
    good := Matches(audit, diag) && world.tick == preTick && world.stateHash == preHash;
  }

  /** One accepted attempt: the state before it, the step and the state after it must be as
      recorded. */
  method ReplayRecord(world: Game, record: Record, sha: HashFunction, ghost s: State, ghost a: nat) returns (good: bool)
    requires Authentic(sha, s) && s.WellFormed() && NamesFit(s.entities) && s.tick + OPERATIONAL_TICKS * (a + 1) <= LAST_TICK
    requires world.Valid() && world.Value() == Nth(sha, s, a)
    requires record.tickBefore == Nth(sha, s, a).tick && record.pre == Nth(sha, s, a).stateHash ==>
               Verdict(Nth(sha, s, a), record.decision).code == OK
    modifies world`tick, world`stateHash
    ensures world.Valid()
    ensures good <==>
              && record.tickBefore == Nth(sha, s, a).tick && record.pre == Nth(sha, s, a).stateHash
              && record.tickAfter == Nth(sha, s, a + 1).tick && record.post == Nth(sha, s, a + 1).stateHash
              && record.event == sha([])
    ensures good ==> world.Value() == Nth(sha, s, a + 1)
  {
    hide Authentic, Nth, Verdict, NamesFit, State.WellFormed, StagedProperly, RecordOf;
    if record.tickBefore != world.tick || record.pre != world.stateHash {
      return false;
    }
    ghost var at := Nth(sha, s, a);
    var diag, step := TryAttempt(world, record.decision, sha, s, a);
    if diag.code != OK {
      assert false;
    } else {
      ProperStep(sha, step);
      StepEvent(sha, at, step);
      good := record.tickAfter == world.tick && record.post == world.stateHash && record.event == step.stagedEventHash;
    }
  }

  lemma ProperStep(sha: HashFunction, step: StepOutput)
    requires StagedProperly(sha, step)
    ensures step.StepResult?
  {
  }

  /** The merge loop of fd_replay_open: succeeds exactly when the streams are the log of a run
      of the world.  Running out of records and leaving some over are impossible. */
  method Merge(world: Game, records: seq<Record>, audits: seq<Audit>, sha: HashFunction,
               ghost s: State) returns (good: bool)
    requires Authentic(sha, s) && s.WellFormed() && NamesFit(s.entities) && Decoded(s, records, audits)
    requires world.Valid() && world.Value() == s
    modifies world`tick, world`stateHash
    ensures good <==> IsLog(sha, s, |records|, audits) && records == Records(sha, s, |records|)
  {
    hide Authentic, NamesFit, State.WellFormed, Nth, Verdict, Merged, IsLog, Records, RecordOf, Matches, Game.Value,
      Game.Valid, CanonicalRecord, CanonicalAudit;
    var accepted: nat, audited: nat := 0, 0;
    MergeStart(sha, s, records, audits);
    var attempt: nat := 0;
    while attempt < |records| + |audits|
      invariant attempt == accepted + audited && accepted <= |records| && audited <= |audits|
      invariant world.Valid() && world.Value() == Nth(sha, s, accepted) && Merged(sha, s, records, audits, accepted, audited)
    {
      if audited < |audits| && audits[audited].attempt == attempt {
        AuditMerged(sha, s, records, audits, accepted, audited);
        if IsLog(sha, s, |records|, audits) { AuditExpected(sha, s, records, audits, accepted, audited); }
        good := ReplayAudit(world, audits[audited], sha, s, accepted);
        if !good {
          return;
        }
        audited := audited + 1;
      } else if accepted >= |records| {
        AuditDue(sha, s, records, audits, audited);
        assert false;
      } else {
        if records == Records(sha, s, |records|) { RecordExpected(sha, s, records, accepted); }
        if records[accepted].tickBefore == Nth(sha, s, accepted).tick && records[accepted].pre == Nth(sha, s, accepted).stateHash {
          RecordMerged(sha, s, records, audits, accepted, audited);
        }
        good := ReplayRecord(world, records[accepted], sha, s, accepted);
        if !good {
          return;
        }
        accepted := accepted + 1;
      }
      attempt := attempt + 1;
    }
    if accepted != |records| || audited != |audits| {
      assert false;
    }
    MergeDone(sha, s, records, audits);
    good := true;
  }
}
