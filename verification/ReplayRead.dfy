/** Reading the two streams of a replay back and merging them by attempt index over a
    re-simulated world. */
module ReplayRead {
  import opened Grid
  import opened World
  import opened Invariants
  import opened Codec
  import opened Hashing
  import opened Decisions
  import opened Step
  import opened Frames
  import opened Wire
  import opened SaveFormat
  import opened ReplayLog
  import opened ReplayWire
  import opened ReplayFormat
  import opened ReplayBuild

  // ----- records

  /** The record at position k of the record section. */
  function RecordIn(p: Bytes, k: nat): Record
    requires 8 + RECORD_SIZE * (k + 1) <= |p|
  {
    ReadRecord(p, 8 + RECORD_SIZE * k)
  }

  /** fd_decode_replay_record's canonical form and the two all-PASS seats. */
  predicate CanonicalRecord(r: Record, region: Region, index: nat) {
    && r.decision.seatCount == SEAT_COUNT && r.decision.reserved == 0
    && r.decision.tick == r.tickBefore && r.rngDomains == 0 && r.decision.hash == r.pre
    && TickFits(r.tickBefore) && r.tickBefore % OPERATIONAL_TICKS == 0
    && r.tickAfter == r.tickBefore + OPERATIONAL_TICKS
    && (index > 0 ==> r.tickBefore >= OPERATIONAL_TICKS)
    && r.decision.seat0.actor == region.foreign0 && r.decision.seat1.actor == region.foreign1
    && r.decision.seat0.action.category == PASS && r.decision.seat1.action.category == PASS
    && r.decision.seat0.action.count == 0 && r.decision.seat1.action.count == 0
    && NoParameters(r.decision.seat0.action) && NoParameters(r.decision.seat1.action)
  }

  predicate NoParameters(a: Action) { a.p0 == 0 && a.p1 == 0 && a.p2 == 0 && a.p3 == 0 }

  /** The chain condition at one position. */
  predicate RecordChecked(p: Bytes, region: Region, hash: Digest, k: nat)
    requires 8 + RECORD_SIZE * (k + 1) <= |p|
  {
    && CanonicalRecord(RecordIn(p, k), region, k)
    && (if k == 0 then RecordIn(p, k).tickBefore == 0 && RecordIn(p, k).pre == hash
        else RecordIn(p, k).tickBefore == RecordIn(p, k - 1).tickAfter && RecordIn(p, k).pre == RecordIn(p, k - 1).post)
  }

  /** The decoding loop over the record section. */
  method LoadRecords(p: Bytes, n: nat, region: Region, hash: Digest) returns (code: u32, records: seq<Record>)
    requires |p| == 8 + RECORD_SIZE * n
    ensures code == OK <==> forall k: nat :: k < n ==> RecordChecked(p, region, hash, k)
    ensures code == OK ==> |records| == n && forall k: nat :: k < n ==> records[k] == RecordIn(p, k)
  {
    hide ReadRecord, CanonicalRecord;
    records := [];
    var index: nat := 0;
    while index < n
      invariant index <= n && |records| == index
      invariant forall k: nat :: k < index ==> records[k] == RecordIn(p, k) && RecordChecked(p, region, hash, k)
    {
      var record := RecordIn(p, index);
      if !CanonicalRecord(record, region, index)
         || (index == 0 && (record.tickBefore != 0 || record.pre != hash))
         || (index > 0 && (record.tickBefore != records[index - 1].tickAfter || record.pre != records[index - 1].post)) {
        assert !RecordChecked(p, region, hash, index);
        return FORMAT, records;
      }
      records := records + [record];
      index := index + 1;
    }
    code := OK;
  }

  /** A canonical record at the state it starts from is that state's record as soon as its
      outcome is the step's. */
  lemma CanonicalIsRecordOf(sha: HashFunction, s: State, r: Record, index: nat)
    requires s.WellFormed() && NamesFit(s.entities) && CanonicalRecord(r, s.region, index) && Staged(r.decision) == r.decision
    requires r.tickBefore == s.tick && r.pre == s.stateHash
    ensures TickFits(s.tick) && r.decision == PassDecision(s.region, s.tick, s.stateHash)
    ensures r.post == Stepped(sha, s).stateHash && r.event == sha([]) ==> r == RecordOf(sha, s)
  {
    hide StateHash, NamesFit, Stepped;
  }

  lemma RecordOfIsCanonical(sha: HashFunction, s: State, index: nat)
    requires s.WellFormed() && NamesFit(s.entities) && TickFits(s.tick) && s.tick == OPERATIONAL_TICKS * index
    ensures CanonicalRecord(RecordOf(sha, s), s.region, index)
    ensures Staged(RecordOf(sha, s).decision) == RecordOf(sha, s).decision
  {
    hide StateHash, NamesFit, Stepped;
  }

  /** The record section of a run passes the decoding loop. */
  lemma RecordsPass(sha: HashFunction, s: State, n: nat, p: Bytes)
    requires s.WellFormed() && NamesFit(s.entities) && s.tick == 0 && OPERATIONAL_TICKS * n <= LAST_TICK && n < FILE_LIMIT
    requires p == RecordsPayload(Records(sha, s, n))
    ensures |p| == 8 + RECORD_SIZE * n && Load64(p, 0) == n
    ensures forall k: nat :: k < n ==> RecordIn(p, k) == Records(sha, s, n)[k] && RecordChecked(p, s.region, s.stateHash, k)
  {
    hide RecordOf, Nth, Records, RecordsBytes, CanonicalRecord, ReadRecord, Load64, Store64, NamesFit, State.WellFormed,
      Stepped;
    assert Holds(p, 0, p);
    HoldsSplit(p, 0, Store64(n), RecordsBytes(Records(sha, s, n)));
    LoadStored64(p, 0, n);
    NthZero(sha, s);
    forall k: nat | k < n
      ensures RecordIn(p, k) == Records(sha, s, n)[k] == RecordOf(sha, Nth(sha, s, k))
      ensures Records(sha, s, n)[k].post == Nth(sha, s, k + 1).stateHash
      ensures CanonicalRecord(RecordIn(p, k), s.region, k)
    {
      RecordAt(sha, s, n, k);
      SameRegion(sha, s, k);
      RecordOfIsCanonical(sha, Nth(sha, s, k), k);
      RecordsStored(p, 8, Records(sha, s, n), k);
    }
    forall k: nat | k < n ensures RecordChecked(p, s.region, s.stateHash, k) {
      RecordEdges(sha, Nth(sha, s, k));
      if k > 0 { RecordEdges(sha, Nth(sha, s, k - 1)); }
    }
  }

  lemma RecordEdges(sha: HashFunction, s: State)
    requires s.WellFormed() && NamesFit(s.entities) && TickFits(s.tick)
    ensures RecordOf(sha, s).tickBefore == s.tick && RecordOf(sha, s).tickAfter == s.tick + OPERATIONAL_TICKS
    ensures RecordOf(sha, s).pre == s.stateHash
  {
  }

  lemma SameRegion(sha: HashFunction, s: State, n: nat)
    requires s.WellFormed() && NamesFit(s.entities) && s.tick + OPERATIONAL_TICKS * n <= LAST_TICK
    ensures Nth(sha, s, n).region == s.region
  {
    NthChangesTwoFields(sha, s, n);
  }

  // ----- audits

  function AuditPlace(k: nat): nat { 4 + AUDIT_SIZE * k }

  predicate PrintableText(b: Bytes) { forall i :: 0 <= i < |b| ==> 0x20 <= b[i] <= 0x7E }

  /** fd_decode_audit's canonical form, with the order and chronology checks behind it. */
  predicate CanonicalAudit(a: Audit, k: nat, previous: nat, n: nat, m: nat) {
    && a.attempt < n + m && (k > 0 ==> a.attempt > previous) && a.tick % OPERATIONAL_TICKS == 0
    && Auditable(a.code) && a.field <= FIELD_LAST && |a.message| < MESSAGE_BYTES && PrintableText(a.message)
    && k <= a.attempt && a.attempt - k <= n && a.attempt - k <= LAST_TICK / OPERATIONAL_TICKS
    && a.tick == OPERATIONAL_TICKS * (a.attempt - k)
  }

  predicate AuditChecked(p: Bytes, n: nat, m: nat, k: nat)
    requires AuditPlace(k + 1) <= |p|
  {
    && Load32(p, AuditPlace(k) + 164) < MESSAGE_BYTES
    && CanonicalAudit(ReadAudit(p, AuditPlace(k)), k, if k == 0 then 0 else Load64(p, AuditPlace(k - 1)), n, m)
    && Zeroed(p, AuditPlace(k) + 168 + Load32(p, AuditPlace(k) + 164), AuditPlace(k + 1))
  }

  /** The attempt index of the audit before position k. */
  function PreviousAttempt(audits: seq<Audit>, k: nat): nat
    requires k <= |audits|
  {
    if k == 0 then 0 else audits[k - 1].attempt
  }

  /** The k-th audit is checked and read. */
  ghost predicate AuditLoaded(p: Bytes, n: nat, m: nat, audits: seq<Audit>, k: nat)
    requires AuditPlace(k + 1) <= |p| && k < |audits|
  {
    && AuditChecked(p, n, m, k) && audits[k] == ReadAudit(p, AuditPlace(k))
    && CanonicalAudit(audits[k], k, PreviousAttempt(audits, k), n, m)
  }

  /** The decoding loop over the audit section. */
  method LoadAudits(p: Bytes, n: nat, m: nat) returns (code: u32, audits: seq<Audit>)
    requires |p| == AuditPlace(m)
    ensures code == OK <==> forall k: nat :: k < m ==> AuditChecked(p, n, m, k)
    ensures code == OK ==> |audits| == m && MessagesFit(audits) && Holds(p, 4, AuditsBytes(audits))
    ensures code == OK ==> forall k: nat :: k < m ==> AuditLoaded(p, n, m, audits, k)
  {
    hide ReadAudit, Load32, AuditsBytes, Zeroed, CanonicalAudit, Holds, AuditLoaded, AuditChecked;
    audits := [];
    var index: nat := 0;
    NoAudits(p);
    while index < m
      invariant index <= m && |audits| == index && MessagesFit(audits) && Holds(p, 4, AuditsBytes(audits))
      invariant forall k: nat :: k < index ==> AuditLoaded(p, n, m, audits, k) && AuditChecked(p, n, m, k)
    {
      var place := AuditPlace(index);
      if Load32(p, place + 164) >= MESSAGE_BYTES {
        LongMessage(p, n, m, index);
        return FORMAT, audits;
      }
      var audit := ReadAudit(p, place);
      var zeroed := Zeroed(p, place + 168 + Load32(p, place + 164), place + AUDIT_SIZE);
      AuditStep(p, n, m, audits, audit, index);
      if !CanonicalAudit(audit, index, PreviousAttempt(audits, index), n, m) || !zeroed {
        return FORMAT, audits;
      }
      OneMoreAudit(p, 4, audits);
      ghost var before := audits;
      audits := audits + [audit];
      forall k: nat | k < index ensures AuditLoaded(p, n, m, audits, k) { LoadedStays(p, n, m, before, audit, k); }
      index := index + 1;
    }
    code := OK;
  }

  lemma LongMessage(p: Bytes, n: nat, m: nat, k: nat)
    requires AuditPlace(k + 1) <= |p| && Load32(p, AuditPlace(k) + 164) >= MESSAGE_BYTES
    ensures !AuditChecked(p, n, m, k)
  {
  }

  lemma LoadedStays(p: Bytes, n: nat, m: nat, audits: seq<Audit>, audit: Audit, k: nat)
    requires AuditPlace(k + 1) <= |p| && k < |audits| && AuditLoaded(p, n, m, audits, k)
    ensures AuditLoaded(p, n, m, audits + [audit], k)
  {
    hide AuditChecked, CanonicalAudit, ReadAudit;
  }

  /** The tests of one turn decide the audit at the next position. */
  lemma AuditStep(p: Bytes, n: nat, m: nat, audits: seq<Audit>, audit: Audit, k: nat)
    requires k == |audits| && AuditPlace(k + 1) <= |p| && Load32(p, AuditPlace(k) + 164) < MESSAGE_BYTES
    requires audit == ReadAudit(p, AuditPlace(k))
    requires k > 0 ==> AuditLoaded(p, n, m, audits, k - 1)
    ensures AuditChecked(p, n, m, k) <==>
              && CanonicalAudit(audit, k, PreviousAttempt(audits, k), n, m)
              && Zeroed(p, AuditPlace(k) + 168 + Load32(p, AuditPlace(k) + 164), AuditPlace(k + 1))
    ensures AuditChecked(p, n, m, k) ==> AuditLoaded(p, n, m, audits + [audit], k)
  {
    hide CanonicalAudit, Zeroed, Load32, ReadJoint;
    if k > 0 {
      AttemptRead(p, k - 1);
    }
  }

  lemma AttemptRead(p: Bytes, k: nat)
    requires AuditPlace(k + 1) <= |p| && Load32(p, AuditPlace(k) + 164) < MESSAGE_BYTES
    ensures ReadAudit(p, AuditPlace(k)).attempt == Load64(p, AuditPlace(k))
  {
  }

  lemma NoAudits(p: Bytes)
    requires |p| >= 4
    ensures Holds(p, 4, AuditsBytes([]))
  {
  }

  lemma VerdictField(s: State, d: Decision)
    ensures Verdict(s, d).field <= FIELD_LAST
  {
    hide ActionJudged;
    ActionField(s.region, d.seat0.actor, d.seat0.action);
    ActionField(s.region, d.seat1.actor, d.seat1.action);
    assert SeatsJudged(s.region, d, 2) == DIAG_OK;
  }

  lemma ActionField(r: Region, actor: u64, a: Action)
    ensures ActionJudged(r, actor, a).field <= FIELD_LAST
  {
  }

  predicate PrintableMessage(m: string) { forall i :: 0 <= i < |m| ==> 0x20 <= m[i] as int <= 0x7E }

  lemma MessagesPrintable(m: string)
    requires PrintableMessage(m)
    ensures PrintableText(MessageBytes(m))
  {
  }

  lemma JoinedMessage(front: string, back: string)
    requires PrintableMessage(front) && PrintableMessage(back)
    ensures PrintableMessage(front + back)
  {
  }

  lemma ActionSizeText()
    ensures PrintableMessage(ACTION_SIZE_TEXT)
  {
  }

  lemma ActorText()
    ensures PrintableMessage(ACTOR_TEXT)
  {
  }

  lemma PassText()
    ensures PrintableMessage(PASS_TEXT)
  {
    assert PrintableMessage("PASS with no parameters");
    PassTextEnd();
    hide PrintableMessage;
    JoinedMessage("PASS with no parameters", " is the only U01 action");
  }

  lemma PassTextEnd()
    ensures PrintableMessage(" is the only U01 action")
  {
  }

  lemma ParameterText()
    ensures PrintableMessage(PARAMETER_TEXT)
  {
  }

  lemma SeatText()
    ensures PrintableMessage(SEAT_TEXT)
  {
    assert PrintableMessage("seat actor IDs must be");
    SeatTextEnd();
    hide PrintableMessage;
    JoinedMessage("seat actor IDs must be", " complete and canonical");
  }

  lemma SeatTextEnd()
    ensures PrintableMessage(" complete and canonical")
  {
  }

  lemma DecisionSizeText()
    ensures PrintableMessage(DECISION_SIZE_TEXT)
  {
  }

  lemma ReservedText()
    ensures PrintableMessage(RESERVED_TEXT)
  {
  }

  lemma SeatCountText()
    ensures PrintableMessage(SEAT_COUNT_TEXT)
  {
  }

  lemma TickText()
    ensures PrintableMessage(TICK_TEXT)
  {
  }

  lemma HashText()
    ensures PrintableMessage(HASH_TEXT)
  {
  }

  lemma OkText()
    ensures PrintableMessage(OK_TEXT)
  {
  }

  lemma OverflowText()
    ensures PrintableMessage(OVERFLOW_TEXT)
  {
  }

  lemma ActionMessage(r: Region, actor: u64, a: Action)
    ensures PrintableMessage(ActionJudged(r, actor, a).message)
  {
    hide PrintableMessage;
    ActionSizeText();
    ActorText();
    PassText();
    ParameterText();
    OkText();
  }

  /** Every text a step can answer with is printable, so storing one changes nothing. */
  lemma VerdictMessage(s: State, d: Decision)
    ensures PrintableMessage(Verdict(s, d).message)
  {
    hide PrintableMessage, ActionJudged;
    ActionMessage(s.region, d.seat0.actor, d.seat0.action);
    ActionMessage(s.region, d.seat1.actor, d.seat1.action);
    assert SeatsJudged(s.region, d, 2) == DIAG_OK;
    DecisionSizeText();
    ReservedText();
    SeatCountText();
    TickText();
    HashText();
    SeatText();
    OverflowText();
    OkText();
  }

  /** What an honest audit says about itself. */
  lemma HonestAudit(sha: HashFunction, at: State, attempt: u64, d: Decision)
    requires Authentic(sha, at) && Verdict(at, d).code != OK
    ensures var a := AuditOf(at, attempt, d);
            && a.attempt == attempt && a.tick == at.tick && Auditable(a.code) && a.field <= FIELD_LAST
            && |a.message| < MESSAGE_BYTES && PrintableText(a.message)
  {
    hide Authentic, Verdict, MessageBytes, PrintableText, PrintableMessage;
    Rights(sha, at);
    VerdictMessage(at, d);
    VerdictIsTheAnswer(at, d, DIAG_OK);
    VerdictField(at, d);
    MessagesPrintable(Verdict(at, d).message);
  }

  /** An honest audit is canonical. */
  lemma AuditIsCanonical(sha: HashFunction, s: State, n: nat, audits: seq<Audit>, k: nat)
    requires Authentic(sha, s) && s.WellFormed() && NamesFit(s.entities) && s.tick == 0 && IsLog(sha, s, n, audits)
    requires k < |audits|
    ensures CanonicalAudit(audits[k], k, PreviousAttempt(audits, k), n, |audits|)
  {
    hide Authentic, NamesFit, State.WellFormed, Verdict, Nth, AuditOf, PrintableText, Auditable;
    assert AuditFits(sha, s, n, audits, k);
    var at := Nth(sha, s, audits[k].attempt - k);
    NthIsAuthentic(sha, s, audits[k].attempt - k);
    HonestAudit(sha, at, audits[k].attempt, audits[k].decision);
  }

  /** The audit section of a log passes the decoding loop. */
  lemma AuditsPass(sha: HashFunction, s: State, n: nat, audits: seq<Audit>, p: Bytes)
    requires Authentic(sha, s) && s.WellFormed() && NamesFit(s.entities) && s.tick == 0 && IsLog(sha, s, n, audits)
    requires MessagesFit(audits) && |audits| < 0x1_0000_0000 && p == AuditsPayload(audits)
    ensures |p| == AuditPlace(|audits|) && Load32(p, 0) == |audits|
    ensures forall k: nat :: k < |audits| ==> AuditChecked(p, n, |audits|, k)
  {
    hide Authentic, NamesFit, State.WellFormed, IsLog, CanonicalAudit, AuditsBytes, Load32, Store32, Zeroed, ReadJoint;
    assert Holds(p, 0, p);
    HoldsSplit(p, 0, Store32(|audits|), AuditsBytes(audits));
    LoadStored32(p, 0, |audits|);
    forall k: nat | k < |audits| ensures AuditChecked(p, n, |audits|, k) {
      AuditIsCanonical(sha, s, n, audits, k);
      AuditsStored(p, 4, audits, k);
      if k > 0 {
        AuditsStored(p, 4, audits, k - 1);
        AttemptRead(p, k - 1);
      }
    }
  }
}
