/** One operational step: 24 local ticks of 23 phases over a validated world. */
module Step {
  import opened Grid
  import opened World
  import opened Invariants
  import opened Validate
  import opened Hashing
  import opened Decisions

  const PHASES := 23
  const PHASE_TRACE := 552
  const ENTITY_TRACE := 146
  const LAST_TICK: nat := 0xFFFF_FFFF_FFFF_FFFF

  // ----- what a step does

  predicate TickFits(tick: u64) { tick + OPERATIONAL_TICKS <= LAST_TICK }

  /** The state after an accepted step: the clock moves on and the digest follows. */
  function Stepped(sha: HashFunction, s: State): (t: State)
    requires s.WellFormed() && NamesFit(s.entities) && TickFits(s.tick)
    ensures t.WellFormed() && NamesFit(t.entities) && t.stateHash == StateHash(sha, t)
  {
    var moved := s.(tick := s.tick + OPERATIONAL_TICKS);
    StateHashIgnoresRecord(sha, moved, StateHash(sha, moved));
    moved.(stateHash := StateHash(sha, moved))
  }

  ghost predicate Accepts(s: State, d: Decision) {
    && s.WellFormed()
    && JointJudged(s.region, s.tick, s.stateHash, d).code == OK && TickFits(s.tick) && WorldOk(s)
  }

  const OVERFLOW_TEXT := "tick counter would overflow"
  const TICK_OVERFLOW := Diagnostic(CAPACITY, FIELD_TICK, 0, OVERFLOW_TEXT)

  /** The diagnostic of a step: the joint checks first, then the clock, then the invariants. */
  ghost predicate Answers(s: State, d: Decision, diag: Diagnostic)
    requires s.WellFormed()
  {
    var joint := JointJudged(s.region, s.tick, s.stateHash, d);
    if joint.code != OK then diag == joint
    else if !TickFits(s.tick) then diag == TICK_OVERFLOW
    else if !WorldOk(s) then diag.code == STATE && diag.field == FIELD_NONE
    else diag == DIAG_OK
  }

  lemma AnswersDecides(s: State, d: Decision, diag: Diagnostic)
    requires s.WellFormed() && Answers(s, d, diag)
    ensures diag.code == OK <==> Accepts(s, d)
    ensures diag.code != OK ==> diag.code in {INVALID_SIZE, INVALID_ARGUMENT, INVALID_ACTION, CAPACITY, STATE}
    ensures diag.code in {0, 1, 2, 4, 7, 12}
    ensures diag.code == 4 ==> diag == Diagnostic(4, 16, 0, "tick counter would overflow") && s.tick > 0xFFFF_FFFF_FFFF_FFE7
    ensures diag.code == 12 <==>
              JointJudged(s.region, s.tick, s.stateHash, d).code == 0 && s.tick <= 0xFFFF_FFFF_FFFF_FFE7 && !WorldOk(s)
  {
    hide JointJudged, WorldOk;
    AcceptedIsPass(s.region, s.tick, s.stateHash, d);
  }

  lemma ValidNames(s: State)
    requires s.WellFormed() && WorldOk(s)
    ensures NamesFit(s.entities)
  {
    hide RiverPath, SettlementsOk, RoadOk, CoastOk, TilesOk, CoverageOk;
  }

  /** No invariant looks at the clock or the recorded digest. */
  lemma WorldOkIgnoresClock(s: State, tick: u64, hash: Digest)
    requires s.WellFormed()
    ensures WorldOk(s.(tick := tick, stateHash := hash)) <==> WorldOk(s)
  {
    hide RiverPath, SettlementsOk, OwnershipOk, RoadOk, CoastOk, TilesOk, CoverageOk;
  }

  // ----- the traces

  datatype TraceEntry = TraceEntry(localTick: u32, phase: u32, entity: u64)

  /** Entries written before local tick t. */
  function TickStart(t: nat): nat { if t == 0 then 0 else 6 * t + 2 }

  /** The i-th entity trace entry: all entities in phase 1 of each local tick, and the two
      seats in phase 2 of the first. */
  function EntryAt(es: seq<Entity>, d: Decision, i: nat): TraceEntry
    requires |es| == ENTITY_COUNT && i < ENTITY_TRACE
  {
    if i < 6 then TraceEntry(0, 1, es[i].id)
    else if i < 8 then TraceEntry(0, 2, d.SeatAt(i - 6).actor)
    else TraceEntry((i - 2) / 6, 1, es[(i - 2) % 6].id)
  }

  ghost predicate EntityTraced(es: seq<Entity>, d: Decision, trace: seq<TraceEntry>, count: nat)
    requires |es| == ENTITY_COUNT && count <= ENTITY_TRACE
  {
    |trace| == ENTITY_TRACE && forall i :: 0 <= i < count ==> trace[i] == EntryAt(es, d, i)
  }

  ghost predicate PhasesTraced(trace: seq<u32>, count: nat) {
    |trace| == PHASE_TRACE && forall i :: 0 <= i < count && i < PHASE_TRACE ==> trace[i] == i % PHASES + 1
  }

  /** The caller's output record, with the transition metadata staged in phase 22 and the
      digest recorded in phase 23; it is written only by an accepted step. */
  datatype StepOutput = NotWritten | StepResult(
    phaseTrace: seq<u32>, entityTrace: seq<TraceEntry>, stageIndex: u32, hashIndex: u32,
    stagedTickBefore: u64, stagedTickAfter: u64, staged: Decision, stagedDecisionHash: Digest,
    stagedPreHash: Digest, stagedEventHash: Digest, finalizedPostHash: Digest, postHash: Digest,
    eventHash: Digest, rngDomains: u32)

  ghost predicate ResultOf(sha: HashFunction, s: State, d: Decision, r: StepOutput)
    requires s.WellFormed() && NamesFit(s.entities) && TickFits(s.tick)
  {
    && r.StepResult?
    && EntityTraced(s.entities, d, r.entityTrace, ENTITY_TRACE)
    && PhasesTraced(r.phaseTrace, PHASE_TRACE)
    && r.stageIndex == 550 && r.hashIndex == 551
    && r.stagedTickBefore == s.tick && r.stagedTickAfter == s.tick + OPERATIONAL_TICKS
    && r.staged == Staged(d) && r.stagedDecisionHash == DecisionHash(sha, d)
    && r.stagedPreHash == s.stateHash
    && r.stagedEventHash == r.eventHash == sha([])
    && r.finalizedPostHash == r.postHash == Stepped(sha, s).stateHash
    && r.rngDomains == 0
  }

  method TraceEntities(es: seq<Entity>, ghost d: Decision, t: nat, trace: array<TraceEntry>,
                       start: nat) returns (count: nat)
    requires |es| == ENTITY_COUNT && t < OPERATIONAL_TICKS && start == TickStart(t) && trace.Length == ENTITY_TRACE
    requires EntityTraced(es, d, trace[..], start)
    modifies trace
    ensures count == start + 6 && EntityTraced(es, d, trace[..], count)
  {
    count := start;
    var entity: nat := 0;
    while entity < ENTITY_COUNT
      invariant entity <= ENTITY_COUNT && count == start + entity
      invariant EntityTraced(es, d, trace[..], count)
    {
      trace[count] := TraceEntry(t, 1, es[entity].id);
      count := count + 1;
      entity := entity + 1;
    }
  }

  method TraceSeats(ghost es: seq<Entity>, d: Decision, trace: array<TraceEntry>) returns (count: nat)
    requires |es| == ENTITY_COUNT && trace.Length == ENTITY_TRACE && EntityTraced(es, d, trace[..], 6)
    modifies trace
    ensures count == 8 && EntityTraced(es, d, trace[..], count)
  {
    count := 6;
    var seat: nat := 0;
    while seat < 2
      invariant seat <= 2 && count == 6 + seat
      invariant EntityTraced(es, d, trace[..], count)
    {
      trace[count] := TraceEntry(0, 2, d.SeatAt(seat).actor);
      count := count + 1;
      seat := seat + 1;
    }
  }

  /** Entity trace entries before phase p (counted from zero) of local tick t. */
  function CountAt(t: nat, p: nat): nat {
    if p == 0 then TickStart(t) else if t == 0 && p > 1 then 8 else TickStart(t) + 6
  }

  lemma PhasePosition(t: nat, p: nat)
    requires t < OPERATIONAL_TICKS && p < PHASES
    ensures t * PHASES + p < PHASE_TRACE && (t * PHASES + p) % PHASES == p
  {
  }

  /** The world as the loop leaves it: nothing but the clock has moved. */
  ghost predicate Ticked(w: Game, s: State, t: nat)
    reads w, w.tiles
    requires t <= OPERATIONAL_TICKS && TickFits(s.tick)
  {
    w.Valid() && w.Value() == s.(tick := s.tick + t)
  }

  /** One local tick but its first phase: phases 2 to 23. */
  method LaterPhases(w: Game, d: Decision, sha: HashFunction, t: nat, phaseTrace: array<u32>,
                     entityTrace: array<TraceEntry>, start: nat, ghost s: State)
    returns (count: nat, staged: bool, stageIndex: u32, hashIndex: u32)
    requires t < OPERATIONAL_TICKS && s.WellFormed() && NamesFit(s.entities) && TickFits(s.tick) && Ticked(w, s, t)
    requires phaseTrace.Length == PHASE_TRACE && PhasesTraced(phaseTrace[..], t * PHASES + 1)
    requires entityTrace.Length == ENTITY_TRACE && start == CountAt(t, 1) && EntityTraced(s.entities, d, entityTrace[..], start)
    modifies w`tick, w`stateHash, phaseTrace, entityTrace
    ensures count == TickStart(t + 1) && EntityTraced(s.entities, d, entityTrace[..], count)
    ensures PhasesTraced(phaseTrace[..], (t + 1) * PHASES)
    ensures t + 1 < OPERATIONAL_TICKS ==> Ticked(w, s, t + 1) && !staged
    ensures t + 1 == OPERATIONAL_TICKS ==>
              w.Valid() && w.Value() == Stepped(sha, s) && staged && stageIndex == 550 && hashIndex == 551
  {
    hide EntryAt, StateHash, EntityTraced, PhasesTraced;
    count, staged, stageIndex, hashIndex := start, false, 0, 0;
    var phase: nat := 1;
    while phase < PHASES
      invariant 1 <= phase <= PHASES
      invariant count == CountAt(t, phase) && EntityTraced(s.entities, d, entityTrace[..], count)
      invariant PhasesTraced(phaseTrace[..], t * PHASES + phase)
      invariant phase < PHASES ==> Ticked(w, s, t)
      invariant phase == PHASES && t + 1 < OPERATIONAL_TICKS ==> Ticked(w, s, t + 1)
      invariant phase == PHASES && t + 1 == OPERATIONAL_TICKS ==> w.Valid() && w.Value() == Stepped(sha, s)
      invariant staged <==> t + 1 == OPERATIONAL_TICKS && phase > 21
      invariant staged ==> stageIndex == 550
      invariant phase == PHASES && t + 1 == OPERATIONAL_TICKS ==> hashIndex == 551
    {
      var traceIndex := t * PHASES + phase;
      PhasePosition(t, phase);
      PutPhase(phaseTrace, traceIndex, phase);
      if t == 0 && phase == 1 {
        count := TraceSeats(s.entities, d, entityTrace);
      } else if t + 1 == OPERATIONAL_TICKS && phase == 21 {
        staged, stageIndex := true, traceIndex;
      } else if phase == 22 {
        w.tick := w.tick + 1;
        if t + 1 == OPERATIONAL_TICKS {
          w.stateHash := StateHash(sha, w.Value());
          hashIndex := traceIndex;
        }
      }
      phase := phase + 1;
    }
  }

  method PutPhase(trace: array<u32>, at: nat, phase: nat)
    requires trace.Length == PHASE_TRACE && at < PHASE_TRACE && phase == at % PHASES && PhasesTraced(trace[..], at)
    modifies trace
    ensures PhasesTraced(trace[..], at + 1)
  {
    trace[at] := phase + 1;
  }

  lemma StartTraces(es: seq<Entity>, d: Decision, entityTrace: seq<TraceEntry>, phaseTrace: seq<u32>)
    requires |es| == ENTITY_COUNT && |entityTrace| == ENTITY_TRACE && |phaseTrace| == PHASE_TRACE
    ensures EntityTraced(es, d, entityTrace, 0) && PhasesTraced(phaseTrace, 0)
  {
  }

  /** The 24 local ticks; the world is validated in the first phase of the first. */
  method RunTicks(w: Game, d: Decision, sha: HashFunction, phaseTrace: array<u32>, entityTrace: array<TraceEntry>,
                  ghost s: State)
    returns (valid: bool, stageIndex: u32, hashIndex: u32)
    requires w.Valid() && w.Value() == s && TickFits(s.tick)
    requires phaseTrace.Length == PHASE_TRACE && entityTrace.Length == ENTITY_TRACE
    modifies w`tick, w`stateHash, phaseTrace, entityTrace
    ensures w.Valid() && (valid <==> WorldOk(s))
    ensures !valid ==> w.Value() == s
    ensures valid ==>
              && NamesFit(s.entities) && w.Value() == Stepped(sha, s) && stageIndex == 550 && hashIndex == 551
              && EntityTraced(s.entities, d, entityTrace[..], ENTITY_TRACE) && PhasesTraced(phaseTrace[..], PHASE_TRACE)
  {
    hide WorldOk, StateHash, EntryAt, EntityTraced, PhasesTraced, NamesFit, BitsMean, CountsMean, Stepped;
    var count: nat, staged := 0, false;
    stageIndex, hashIndex := 0, 0;
    StartTraces(w.entities, d, entityTrace[..], phaseTrace[..]);
    var t: nat := 0;
    while t < OPERATIONAL_TICKS
      invariant t <= OPERATIONAL_TICKS
      invariant t > 0 ==> WorldOk(s)
      invariant t < OPERATIONAL_TICKS ==> Ticked(w, s, t) && !staged
      invariant t == OPERATIONAL_TICKS ==>
                  && NamesFit(s.entities) && w.Valid() && w.Value() == Stepped(sha, s)
                  && staged && stageIndex == 550 && hashIndex == 551
      invariant count == TickStart(t) && EntityTraced(s.entities, d, entityTrace[..], count)
      invariant PhasesTraced(phaseTrace[..], t * PHASES)
    {
      PhasePosition(t, 0);
      PutPhase(phaseTrace, t * PHASES, 0);
      count := TraceEntities(w.entities, d, t, entityTrace, count);
      if t == 0 {
        var report := ValidateWorld(w);
        if !report.AllPassed() {
          valid := false;
          return;
        }
      }
      ValidNames(s);
      var nowStaged, nowStageIndex, nowHashIndex;
      count, nowStaged, nowStageIndex, nowHashIndex := LaterPhases(w, d, sha, t, phaseTrace, entityTrace, count, s);
      if nowStaged {
        staged, stageIndex, hashIndex := true, nowStageIndex, nowHashIndex;
      }
      t := t + 1;
    }
    if !staged || stageIndex >= hashIndex {
      assert false;
    }
    valid := true;
  }

  /** fd_world_step.  A refused step leaves the world untouched; an accepted one changes
      only its clock and its digest, and both traces are filled exactly. */
  method WorldStep(w: Game, d: Decision, sha: HashFunction) returns (diag: Diagnostic, result: StepOutput)
    requires w.Valid()
    modifies w`tick, w`stateHash
    ensures w.Valid() && Answers(old(w.Value()), d, diag)
    ensures diag.code != OK ==> w.Value() == old(w.Value())
    ensures diag.code == OK ==>
              && NamesFit(w.entities) && TickFits(old(w.tick))
              && w.Value() == Stepped(sha, old(w.Value())) && ResultOf(sha, old(w.Value()), d, result)
  {
    hide JointJudged, WorldOk, StateHash, DecisionHash, EntryAt, Staged, EntityTraced, PhasesTraced, NamesFit;
    ghost var s := w.Value();
    result := NotWritten;
    diag := ValidateJoint(w, d);
    if diag.code != OK {
      return;
    }
    if w.tick as int > LAST_TICK - OPERATIONAL_TICKS {
      diag := TICK_OVERFLOW;
      return;
    }
    var tickBefore, tickAfter := w.tick, w.tick + OPERATIONAL_TICKS;
    var preHash, eventHash, decisionHash := w.stateHash, sha([]), DecisionHash(sha, d);
    var phaseTrace := new u32[PHASE_TRACE](_ => 0);
    var entityTrace := new TraceEntry[ENTITY_TRACE](_ => TraceEntry(0, 0, 0));
    var valid, stageIndex, hashIndex := RunTicks(w, d, sha, phaseTrace, entityTrace, s);
    if !valid {
      var tile: u32 := *;
      diag := Diagnostic(STATE, FIELD_NONE, tile, "world invariant validation failed");
      return;
    }
    result := StepResult(phaseTrace[..], entityTrace[..], stageIndex, hashIndex, tickBefore, tickAfter, Staged(d),
                         decisionHash, preHash, eventHash, w.stateHash, w.stateHash, eventHash, 0);
    diag := DIAG_OK;
  }
}
