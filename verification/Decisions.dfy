/** Joint decisions: what a step is asked to do, and the diagnostic it answers with. */
module Decisions {
  import opened Grid
  import opened World
  import opened Codec
  import opened Hashing

  const OK: u32 := 0
  const INVALID_ARGUMENT: u32 := 1
  const INVALID_SIZE: u32 := 2
  const OUT_OF_RANGE: u32 := 3
  const CAPACITY: u32 := 4
  const INVALID_ACTION: u32 := 7
  const FORMAT: u32 := 9
  const VERSION: u32 := 10
  const CHECKSUM: u32 := 11
  const STATE: u32 := 12
  const INTERNAL: u32 := 14

  const FIELD_NONE: u32 := 0
  const FIELD_STRUCT_SIZE: u32 := 1
  const FIELD_ENTITY_ID: u32 := 9
  const FIELD_ACTION: u32 := 10
  const FIELD_SEAT_COUNT: u32 := 11
  const FIELD_TICK: u32 := 16
  const FIELD_RESERVED: u32 := 17
  const FIELD_LAST: u32 := 19

  const ABI_VERSION: u32 := 1
  const SEAT_COUNT: u32 := 2
  const PASS: u32 := 1
  /** sizeof(fd_action) and sizeof(fd_joint_decision). */
  const ACTION_SIZE: u32 := 32
  const DECISION_SIZE: u32 := 136

  datatype Action = Action(structSize: u32, abi: u32, category: u32, count: u32, p0: u32, p1: u32, p2: u32, p3: u32)
  {
    function Parameter(k: nat): u32
      requires k < 4
    {
      if k == 0 then p0 else if k == 1 then p1 else if k == 2 then p2 else p3
    }
  }

  datatype Seat = Seat(actor: u64, action: Action)

  datatype Decision = Decision(
    structSize: u32, abi: u32, seatCount: u32, reserved: u32, tick: u64, hash: Digest, seat0: Seat, seat1: Seat)
  {
    function SeatAt(k: nat): Seat
      requires k < 2
    {
      if k == 0 then seat0 else seat1
    }
  }

  datatype Diagnostic = Diagnostic(code: u32, field: u32, item: u32, message: string)

  const ACTION_SIZE_TEXT := "invalid action size or ABI"
  const ACTOR_TEXT := "actor is not a U01 decision seat"
  const PASS_TEXT := "PASS with no parameters" + " is the only U01 action"
  const PARAMETER_TEXT := "unused PASS parameters must be zero"
  const SEAT_TEXT := "seat actor IDs must be" + " complete and canonical"
  const DECISION_SIZE_TEXT := "invalid joint decision size or ABI"
  const RESERVED_TEXT := "joint decision reserved field must be zero"
  const SEAT_COUNT_TEXT := "exactly two explicit seats are required"
  const TICK_TEXT := "joint decision expected tick does not match"
  const HASH_TEXT := "joint decision pre-state hash does not match"
  const OK_TEXT := "ok"

  const DIAG_OK := Diagnostic(OK, FIELD_NONE, 0, OK_TEXT)

  function Foreign(r: Region, k: nat): u64
    requires k < 2
  {
    if k == 0 then r.foreign0 else r.foreign1
  }

  // ----- what fd_world_step answers before it looks at the world's invariants

  function FirstParameter(a: Action, from: nat): (k: nat)
    requires from <= 4
    ensures from <= k <= 4
    ensures (forall i :: from <= i < k ==> a.Parameter(i) == 0) && (k < 4 ==> a.Parameter(k) != 0)
    decreases 4 - from
  {
    if from == 4 || a.Parameter(from) != 0 then from else FirstParameter(a, from + 1)
  }

  function ActionJudged(r: Region, actor: u64, a: Action): Diagnostic {
    if a.structSize < ACTION_SIZE || a.abi != ABI_VERSION then
      Diagnostic(INVALID_SIZE, FIELD_STRUCT_SIZE, 0, ACTION_SIZE_TEXT)
    else if actor != r.foreign0 && actor != r.foreign1 then
      Diagnostic(OUT_OF_RANGE, FIELD_ENTITY_ID, 0, ACTOR_TEXT)
    else if a.category != PASS || a.count != 0 then
      Diagnostic(INVALID_ACTION, FIELD_ACTION, 0, PASS_TEXT)
    else if FirstParameter(a, 0) < 4 then
      Diagnostic(INVALID_ACTION, FIELD_ACTION, FirstParameter(a, 0), PARAMETER_TEXT)
    else DIAG_OK
  }

  function SeatsJudged(r: Region, d: Decision, from: nat): Diagnostic
    requires from <= 2
    decreases 2 - from
  {
    if from == 2 then DIAG_OK
    else if d.SeatAt(from).actor != Foreign(r, from) then
      Diagnostic(INVALID_ACTION, FIELD_ENTITY_ID, from, SEAT_TEXT)
    else
      var seat := ActionJudged(r, d.SeatAt(from).actor, d.SeatAt(from).action);
      if seat.code != OK then seat else SeatsJudged(r, d, from + 1)
  }

  function JointJudged(r: Region, tick: u64, hash: Digest, d: Decision): Diagnostic {
    if d.structSize < DECISION_SIZE || d.abi != ABI_VERSION then
      Diagnostic(INVALID_SIZE, FIELD_STRUCT_SIZE, 0, DECISION_SIZE_TEXT)
    else if d.reserved != 0 then
      Diagnostic(INVALID_ARGUMENT, FIELD_RESERVED, 0, RESERVED_TEXT)
    else if d.seatCount != SEAT_COUNT then
      Diagnostic(INVALID_ACTION, FIELD_SEAT_COUNT, d.seatCount, SEAT_COUNT_TEXT)
    else if d.tick != tick then
      Diagnostic(INVALID_ACTION, FIELD_TICK, 0, TICK_TEXT)
    else if d.hash != hash then
      Diagnostic(INVALID_ACTION, FIELD_ACTION, 0, HASH_TEXT)
    else SeatsJudged(r, d, 0)
  }

  // ----- the one decision that is accepted

  const PASS_ACTION := Action(ACTION_SIZE, ABI_VERSION, PASS, 0, 0, 0, 0, 0)

  /** The decision in which both seats pass at the given state. */
  function PassDecision(r: Region, tick: u64, hash: Digest): Decision {
    Decision(DECISION_SIZE, ABI_VERSION, SEAT_COUNT, 0, tick, hash,
             Seat(r.foreign0, PASS_ACTION), Seat(r.foreign1, PASS_ACTION))
  }

  /** The staged form of a decision: its struct sizes and ABI numbers normalised. */
  function Staged(d: Decision): Decision {
    d.(structSize := DECISION_SIZE, abi := ABI_VERSION,
       seat0 := d.seat0.(action := d.seat0.action.(structSize := ACTION_SIZE, abi := ABI_VERSION)),
       seat1 := d.seat1.(action := d.seat1.action.(structSize := ACTION_SIZE, abi := ABI_VERSION)))
  }

  /** Large enough structures of the right ABI. */
  predicate Sized(d: Decision) {
    && d.structSize >= DECISION_SIZE && d.abi == ABI_VERSION
    && d.seat0.action.structSize >= ACTION_SIZE && d.seat0.action.abi == ABI_VERSION
    && d.seat1.action.structSize >= ACTION_SIZE && d.seat1.action.abi == ABI_VERSION
  }

  lemma ActionAccepted(r: Region, actor: u64, a: Action)
    requires actor == r.foreign0 || actor == r.foreign1
    ensures ActionJudged(r, actor, a).code == OK <==>
              && a.structSize >= ACTION_SIZE && a.abi == ABI_VERSION
              && a.(structSize := ACTION_SIZE, abi := ABI_VERSION) == PASS_ACTION
    ensures ActionJudged(r, actor, a).code in {OK, INVALID_SIZE, INVALID_ACTION}
  {
    var k := FirstParameter(a, 0);
    if k == 4 {
      assert a.Parameter(0) == a.Parameter(1) == a.Parameter(2) == a.Parameter(3) == 0;
    } else {
      assert a.Parameter(k) != 0;
    }
  }

  /** A joint decision passes exactly when it is, up to its struct sizes, the all-PASS
      decision for the current tick and digest; every refusal is one a replay can audit. */
  lemma AcceptedIsPass(r: Region, tick: u64, hash: Digest, d: Decision)
    ensures JointJudged(r, tick, hash, d).code == OK <==> Sized(d) && Staged(d) == PassDecision(r, tick, hash)
    ensures JointJudged(r, tick, hash, d).code in {OK, INVALID_SIZE, INVALID_ARGUMENT, INVALID_ACTION}
  {
    hide ActionJudged;
    assert SeatsJudged(r, d, 2) == DIAG_OK;
    if d.seat0.actor == r.foreign0 { ActionAccepted(r, d.seat0.actor, d.seat0.action); }
    if d.seat1.actor == r.foreign1 { ActionAccepted(r, d.seat1.actor, d.seat1.action); }
  }

  /** The accepted decision in numbers. */
  lemma AcceptedInNumbers(r: Region, tick: u64, hash: Digest, d: Decision)
    ensures JointJudged(r, tick, hash, d).code == 0 <==>
              && d.structSize >= 136 && d.abi == 1 && d.seatCount == 2 && d.reserved == 0
              && d.tick == tick && d.hash == hash
              && d.seat0.actor == r.foreign0 && d.seat1.actor == r.foreign1
              && forall k :: 0 <= k < 2 ==>
                   var a := d.SeatAt(k).action;
                   && a.structSize >= 32 && a.abi == 1 && a.category == 1 && a.count == 0
                   && a.p0 == a.p1 == a.p2 == a.p3 == 0
  {
    hide JointJudged;
    AcceptedIsPass(r, tick, hash, d);
    assert d.SeatAt(0) == d.seat0 && d.SeatAt(1) == d.seat1;
  }

  /** What each refusal before the seats is answered with: result, field, item and text. */
  lemma RefusalsInNumbers(r: Region, tick: u64, hash: Digest, d: Decision)
    ensures var sized := d.structSize >= 136 && d.abi == 1;
            var answer := JointJudged(r, tick, hash, d);
            && (!sized ==> answer == Diagnostic(2, 1, 0, "invalid joint decision size or ABI"))
            && (sized && d.reserved != 0 ==> answer == Diagnostic(1, 17, 0, "joint decision reserved field must be zero"))
            && (sized && d.reserved == 0 && d.seatCount != 2 ==>
                  answer == Diagnostic(7, 11, d.seatCount, "exactly two explicit seats are required"))
            && (sized && d.reserved == 0 && d.seatCount == 2 && d.tick != tick ==>
                  answer == Diagnostic(7, 16, 0, "joint decision expected tick does not match"))
            && (sized && d.reserved == 0 && d.seatCount == 2 && d.tick == tick && d.hash != hash ==>
                  answer == Diagnostic(7, 10, 0, "joint decision pre-state hash does not match"))
  {
    hide SeatsJudged;
  }

  /** And of the seats behind a sound header: the first seat out of order, or the first
      refused action, in seat order. */
  lemma SeatRefusalsInNumbers(r: Region, d: Decision)
    ensures var first, second := ActionJudged(r, d.seat0.actor, d.seat0.action), ActionJudged(r, d.seat1.actor, d.seat1.action);
            var text := "seat actor IDs must be" + " complete and canonical";
            SeatsJudged(r, d, 0)
            == if d.seat0.actor != r.foreign0 then Diagnostic(7, 9, 0, text)
               else if first.code != 0 then first
               else if d.seat1.actor != r.foreign1 then Diagnostic(7, 9, 1, text)
               else if second.code != 0 then second
               else Diagnostic(0, 0, 0, "ok")
  {
    hide ActionJudged;
    assert SeatsJudged(r, d, 2) == DIAG_OK;
    assert d.SeatAt(0) == d.seat0 && d.SeatAt(1) == d.seat1;
  }

  /** The result codes of the public header. */
  lemma CodesInNumbers()
    ensures [OK, INVALID_ARGUMENT, INVALID_SIZE, OUT_OF_RANGE, CAPACITY, INVALID_ACTION] == [0, 1, 2, 3, 4, 7]
    ensures [FORMAT, VERSION, CHECKSUM, STATE, INTERNAL] == [9, 10, 11, 12, 14]
  {
  }

  /** What each refusal of one seat's action is answered with. */
  lemma ActionRefusalsInNumbers(r: Region, actor: u64, a: Action)
    ensures var sized, seated := a.structSize >= 32 && a.abi == 1, actor == r.foreign0 || actor == r.foreign1;
            var pass := a.category == 1 && a.count == 0;
            var answer := ActionJudged(r, actor, a);
            && (!sized ==> answer == Diagnostic(2, 1, 0, "invalid action size or ABI"))
            && (sized && !seated ==> answer == Diagnostic(3, 9, 0, "actor is not a U01 decision seat"))
            && (sized && seated && !pass ==>
                  answer == Diagnostic(7, 10, 0, "PASS with no parameters" + " is the only U01 action"))
            && (sized && seated && pass ==>
                  if a.p0 == a.p1 == a.p2 == a.p3 == 0 then answer == Diagnostic(0, 0, 0, "ok")
                  else answer == Diagnostic(7, 10, if a.p0 != 0 then 0 else if a.p1 != 0 then 1 else if a.p2 != 0 then 2 else 3,
                                            "unused PASS parameters must be zero"))
  {
    var k := FirstParameter(a, 0);
    assert k < 4 ==> a.Parameter(k) != 0 && forall i :: 0 <= i < k ==> a.Parameter(i) == 0;
    assert a.Parameter(0) == a.p0 && a.Parameter(1) == a.p1 && a.Parameter(2) == a.p2 && a.Parameter(3) == a.p3;
  }

  /** fd_action_validate, past its null checks. */
  method ValidateAction(w: Game, actor: u64, a: Action) returns (diag: Diagnostic)
    ensures diag == ActionJudged(w.region, actor, a)
    ensures diag.code == OK <==>
              && actor in {w.region.foreign0, w.region.foreign1}
              && a.structSize >= ACTION_SIZE && a.abi == ABI_VERSION
              && a.(structSize := ACTION_SIZE, abi := ABI_VERSION) == PASS_ACTION
  {
    if actor in {w.region.foreign0, w.region.foreign1} { ActionAccepted(w.region, actor, a); }
    if a.structSize < ACTION_SIZE || a.abi != ABI_VERSION {
      return Diagnostic(INVALID_SIZE, FIELD_STRUCT_SIZE, 0, ACTION_SIZE_TEXT);
    }
    if actor != w.region.foreign0 && actor != w.region.foreign1 {
      return Diagnostic(OUT_OF_RANGE, FIELD_ENTITY_ID, 0, ACTOR_TEXT);
    }
    if a.category != PASS || a.count != 0 {
      return Diagnostic(INVALID_ACTION, FIELD_ACTION, 0, PASS_TEXT);
    }
    var index: nat := 0;
    while index < 4
      invariant index <= 4 && FirstParameter(a, 0) == FirstParameter(a, index)
    {
      if a.Parameter(index) != 0 {
        return Diagnostic(INVALID_ACTION, FIELD_ACTION, index, PARAMETER_TEXT);
      }
      index := index + 1;
    }
    return DIAG_OK;
  }

  /** fd_joint_validate */
  method ValidateJoint(w: Game, d: Decision) returns (diag: Diagnostic)
    ensures diag == JointJudged(w.region, w.tick, w.stateHash, d)
    ensures diag.code == OK <==> Sized(d) && Staged(d) == PassDecision(w.region, w.tick, w.stateHash)
    ensures diag.code in {OK, INVALID_SIZE, INVALID_ARGUMENT, INVALID_ACTION}
  {
    hide ActionJudged, PassDecision, Staged, Sized;
    AcceptedIsPass(w.region, w.tick, w.stateHash, d);
    if d.structSize < DECISION_SIZE || d.abi != ABI_VERSION {
      return Diagnostic(INVALID_SIZE, FIELD_STRUCT_SIZE, 0, DECISION_SIZE_TEXT);
    }
    if d.reserved != 0 {
      return Diagnostic(INVALID_ARGUMENT, FIELD_RESERVED, 0, RESERVED_TEXT);
    }
    if d.seatCount != SEAT_COUNT {
      return Diagnostic(INVALID_ACTION, FIELD_SEAT_COUNT, d.seatCount, SEAT_COUNT_TEXT);
    }
    if d.tick != w.tick {
      return Diagnostic(INVALID_ACTION, FIELD_TICK, 0, TICK_TEXT);
    }
    if d.hash != w.stateHash {
      return Diagnostic(INVALID_ACTION, FIELD_ACTION, 0, HASH_TEXT);
    }
    var seat: nat := 0;
    while seat < 2
      invariant seat <= 2 && SeatsJudged(w.region, d, 0) == SeatsJudged(w.region, d, seat)
    {
      if d.SeatAt(seat).actor != Foreign(w.region, seat) {
        return Diagnostic(INVALID_ACTION, FIELD_ENTITY_ID, seat, SEAT_TEXT);
      }
      diag := ValidateAction(w, d.SeatAt(seat).actor, d.SeatAt(seat).action);
      if diag.code != OK {
        return;
      }
      seat := seat + 1;
    }
    return DIAG_OK;
  }

  // ----- the digest of a decision

  function ActionBytes(a: Action): (b: Bytes)
    ensures |b| == 24
  {
    Store32(a.category) + Store32(a.count) + Store32(a.p0) + Store32(a.p1) + Store32(a.p2) + Store32(a.p3)
  }

  function SeatBytes(s: Seat): (b: Bytes)
    ensures |b| == 32
  {
    Store64(s.actor) + ActionBytes(s.action)
  }

  /** Struct sizes and ABI numbers are not hashed. */
  function DecisionBytes(d: Decision): Bytes {
    Domain(DECISION_DOMAIN) + Store32(d.seatCount) + Store32(d.reserved) + Store64(d.tick) + d.hash
    + SeatBytes(d.seat0) + SeatBytes(d.seat1)
  }

  /** fd_hash_joint_decision_internal */
  function DecisionHash(sha: HashFunction, d: Decision): Digest {
    sha(DecisionBytes(d))
  }

  lemma StagedHashesAlike(sha: HashFunction, d: Decision)
    ensures DecisionHash(sha, Staged(d)) == DecisionHash(sha, d)
  {
  }
}
