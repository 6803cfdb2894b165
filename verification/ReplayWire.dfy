/** The wire forms of decision records and audit records. */
module ReplayWire {
  import opened Grid
  import opened World
  import opened Codec
  import opened Hashing
  import opened Decisions
  import opened Wire
  import opened ReplayLog

  const RECORD_SIZE := 228
  const AUDIT_SIZE := 328

  // ----- seats

  lemma SeatPieces(b: Bytes, at: nat, s: Seat)
    requires Holds(b, at, SeatBytes(s))
    ensures at + 32 <= |b|
    ensures Load64(b, at) == s.actor && Load32(b, at + 8) == s.action.category && Load32(b, at + 12) == s.action.count
    ensures Load32(b, at + 16) == s.action.p0 && Load32(b, at + 20) == s.action.p1
    ensures Load32(b, at + 24) == s.action.p2 && Load32(b, at + 28) == s.action.p3
  {
    assert at + 32 <= |b|;
    HoldsSplit(b, at, Store64(s.actor), ActionBytes(s.action));
    hide Store32, Store64, Load32, Load64, Holds;
    Apart(b, at);
    Apart(b, at + 8);
  }

  /** A seat of a decision record: struct sizes and ABI numbers are filled in. */
  function ReadSeat(b: Bytes, at: nat): Seat
    requires at + 32 <= |b|
  {
    Seat(Load64(b, at), Action(ACTION_SIZE, ABI_VERSION, Load32(b, at + 8), Load32(b, at + 12), Load32(b, at + 16),
                               Load32(b, at + 20), Load32(b, at + 24), Load32(b, at + 28)))
  }

  lemma SeatRead(b: Bytes, at: nat)
    requires at + 32 <= |b|
    ensures Holds(b, at, SeatBytes(ReadSeat(b, at)))
  {
    hide Store32, Store64, Load32, Load64, Holds;
    Together(b, at + 8);
    Together(b, at);
    HoldsSplit(b, at, Store64(ReadSeat(b, at).actor), ActionBytes(ReadSeat(b, at).action));
  }

  // ----- decision records

  /** Ticks, expected digest and counts. */
  function RecordHead(r: Record): (b: Bytes)
    ensures |b| == 64
  {
    Store64(r.tickBefore) + Store64(r.tickAfter) + Store64(r.decision.tick) + r.decision.hash
    + Store32(r.decision.seatCount) + Store32(r.decision.reserved)
  }

  function RecordSeats(r: Record): (b: Bytes)
    ensures |b| == 64
  {
    SeatBytes(r.decision.seat0) + SeatBytes(r.decision.seat1)
  }

  function RecordTail(r: Record): (b: Bytes)
    ensures |b| == 100
  {
    r.pre + r.post + r.event + Store32(r.rngDomains)
  }

  /** fd_encode_replay_record */
  function RecordBytes(r: Record): (b: Bytes)
    ensures |b| == RECORD_SIZE
  {
    RecordHead(r) + RecordSeats(r) + RecordTail(r)
  }

  /** The field loads of fd_decode_replay_record. */
  function ReadRecord(b: Bytes, at: nat): Record
    requires at + RECORD_SIZE <= |b|
  {
    Record(Load64(b, at), Load64(b, at + 8),
           Decision(DECISION_SIZE, ABI_VERSION, Load32(b, at + 56), Load32(b, at + 60), Load64(b, at + 16),
                    b[at + 24..at + 56], ReadSeat(b, at + 64), ReadSeat(b, at + 96)),
           b[at + 128..at + 160], b[at + 160..at + 192], b[at + 192..at + 224], Load32(b, at + 224))
  }

  lemma HeadPieces(b: Bytes, at: nat, r: Record)
    requires Holds(b, at, RecordHead(r))
    ensures at + 64 <= |b| && Load64(b, at) == r.tickBefore && Load64(b, at + 8) == r.tickAfter
    ensures Load64(b, at + 16) == r.decision.tick && b[at + 24..at + 56] == r.decision.hash
    ensures Load32(b, at + 56) == r.decision.seatCount && Load32(b, at + 60) == r.decision.reserved
  {
    assert at + 64 <= |b|;
    hide Store32, Store64, Load32, Load64;
    Apart(b, at);
    assert Holds(b, at + 24, r.decision.hash);
  }

  lemma TailPieces(b: Bytes, at: nat, r: Record)
    requires Holds(b, at, RecordTail(r))
    ensures at + 100 <= |b| && b[at..at + 32] == r.pre && b[at + 32..at + 64] == r.post
    ensures b[at + 64..at + 96] == r.event && Load32(b, at + 96) == r.rngDomains
  {
    assert at + 100 <= |b|;
    hide Store32, Load32;
    Apart(b, at);
    assert Holds(b, at, r.pre) && Holds(b, at + 32, r.post) && Holds(b, at + 64, r.event);
  }

  lemma RecordStored(b: Bytes, at: nat, r: Record)
    requires Staged(r.decision) == r.decision && Holds(b, at, RecordBytes(r))
    ensures at + RECORD_SIZE <= |b| && ReadRecord(b, at) == r
  {
    hide RecordHead, RecordTail, SeatBytes, Load32, Load64;
    HoldsSplit(b, at, RecordHead(r) + RecordSeats(r), RecordTail(r));
    HoldsSplit(b, at, RecordHead(r), RecordSeats(r));
    HoldsSplit(b, at + 64, SeatBytes(r.decision.seat0), SeatBytes(r.decision.seat1));
    HeadPieces(b, at, r);
    SeatPieces(b, at + 64, r.decision.seat0);
    SeatPieces(b, at + 96, r.decision.seat1);
    TailPieces(b, at + 128, r);
  }

  lemma RecordRead(b: Bytes, at: nat)
    requires at + RECORD_SIZE <= |b|
    ensures Holds(b, at, RecordBytes(ReadRecord(b, at)))
    ensures Staged(ReadRecord(b, at).decision) == ReadRecord(b, at).decision
  {
    var r := ReadRecord(b, at);
    HeadRead(b, at, r);
    TailRead(b, at + 128, r);
    SeatRead(b, at + 64);
    SeatRead(b, at + 96);
    hide RecordHead, RecordTail, SeatBytes, Load32, Load64;
    HoldsSplit(b, at + 64, SeatBytes(r.decision.seat0), SeatBytes(r.decision.seat1));
    HoldsSplit(b, at, RecordHead(r), RecordSeats(r));
    HoldsSplit(b, at, RecordHead(r) + RecordSeats(r), RecordTail(r));
  }

  lemma HeadRead(b: Bytes, at: nat, r: Record)
    requires at + 64 <= |b| && r.tickBefore == Load64(b, at) && r.tickAfter == Load64(b, at + 8)
    requires r.decision.tick == Load64(b, at + 16) && r.decision.hash == b[at + 24..at + 56]
    requires r.decision.seatCount == Load32(b, at + 56) && r.decision.reserved == Load32(b, at + 60)
    ensures Holds(b, at, RecordHead(r))
  {
    hide Store32, Store64, Load32, Load64;
    Together(b, at);
    assert Holds(b, at + 24, r.decision.hash);
  }

  lemma TailRead(b: Bytes, at: nat, r: Record)
    requires at + 100 <= |b| && r.pre == b[at..at + 32] && r.post == b[at + 32..at + 64]
    requires r.event == b[at + 64..at + 96] && r.rngDomains == Load32(b, at + 96)
    ensures Holds(b, at, RecordTail(r))
  {
    hide Store32, Load32;
    Together(b, at);
    assert Holds(b, at, r.pre) && Holds(b, at + 32, r.post) && Holds(b, at + 64, r.event);
  }

  // ----- audits

  /** One seat with its struct sizes. */
  function FullSeatBytes(s: Seat): (b: Bytes)
    ensures |b| == 40
  {
    Store64(s.actor) + Store32(s.action.structSize) + Store32(s.action.abi) + ActionBytes(s.action)
  }

  function ReadFullSeat(b: Bytes, at: nat): Seat
    requires at + 40 <= |b|
  {
    Seat(Load64(b, at), Action(Load32(b, at + 8), Load32(b, at + 12), Load32(b, at + 16), Load32(b, at + 20),
                               Load32(b, at + 24), Load32(b, at + 28), Load32(b, at + 32), Load32(b, at + 36)))
  }

  lemma FullSeatStored(b: Bytes, at: nat, s: Seat)
    requires Holds(b, at, FullSeatBytes(s))
    ensures at + 40 <= |b| && ReadFullSeat(b, at) == s
  {
    assert at + 40 <= |b|;
    var front := Store64(s.actor) + Store32(s.action.structSize) + Store32(s.action.abi);
    HoldsSplit(b, at, front, ActionBytes(s.action));
    hide Store32, Store64, Load32, Load64, Holds;
    Apart(b, at);
    Apart(b, at + 16);
  }

  lemma FullSeatRead(b: Bytes, at: nat)
    requires at + 40 <= |b|
    ensures Holds(b, at, FullSeatBytes(ReadFullSeat(b, at)))
  {
    hide Store32, Store64, Load32, Load64, Holds;
    var s := ReadFullSeat(b, at);
    Together(b, at + 16);
    Together(b, at);
    HoldsSplit(b, at, Store64(s.actor) + Store32(s.action.structSize) + Store32(s.action.abi), ActionBytes(s.action));
  }

  /** The first 56 bytes of fd_encode_joint_wire. */
  function JointHead(d: Decision): (b: Bytes)
    ensures |b| == 56
  {
    Store32(d.structSize) + Store32(d.abi) + Store32(d.seatCount) + Store32(d.reserved) + Store64(d.tick) + d.hash
  }

  /** fd_encode_joint_wire: every field, struct sizes included. */
  function JointBytes(d: Decision): (b: Bytes)
    ensures |b| == 136
  {
    JointHead(d) + FullSeatBytes(d.seat0) + FullSeatBytes(d.seat1)
  }

  /** fd_decode_joint_wire */
  function ReadJoint(b: Bytes, at: nat): Decision
    requires at + 136 <= |b|
  {
    Decision(Load32(b, at), Load32(b, at + 4), Load32(b, at + 8), Load32(b, at + 12), Load64(b, at + 16),
             b[at + 24..at + 56], ReadFullSeat(b, at + 56), ReadFullSeat(b, at + 96))
  }

  lemma JointStored(b: Bytes, at: nat, d: Decision)
    requires Holds(b, at, JointBytes(d))
    ensures at + 136 <= |b| && ReadJoint(b, at) == d
  {
    HoldsSplit(b, at, JointHead(d) + FullSeatBytes(d.seat0), FullSeatBytes(d.seat1));
    HoldsSplit(b, at, JointHead(d), FullSeatBytes(d.seat0));
    FullSeatStored(b, at + 56, d.seat0);
    FullSeatStored(b, at + 96, d.seat1);
    JointHeadStored(b, at, d);
  }

  lemma JointHeadStored(b: Bytes, at: nat, d: Decision)
    requires Holds(b, at, JointHead(d))
    ensures at + 56 <= |b| && Load32(b, at) == d.structSize && Load32(b, at + 4) == d.abi
    ensures Load32(b, at + 8) == d.seatCount && Load32(b, at + 12) == d.reserved
    ensures Load64(b, at + 16) == d.tick && b[at + 24..at + 56] == d.hash
  {
    assert at + 56 <= |b|;
    hide Store32, Store64, Load32, Load64;
    Apart(b, at);
    assert Holds(b, at + 24, d.hash);
  }

  lemma JointRead(b: Bytes, at: nat)
    requires at + 136 <= |b|
    ensures Holds(b, at, JointBytes(ReadJoint(b, at)))
  {
    hide Store32, Store64, Load32, Load64, FullSeatBytes, ReadFullSeat;
    var d := ReadJoint(b, at);
    Together(b, at);
    FullSeatRead(b, at + 56);
    FullSeatRead(b, at + 96);
    assert Holds(b, at + 24, d.hash);
    assert Holds(b, at, JointHead(d));
    HoldsSplit(b, at, JointHead(d), FullSeatBytes(d.seat0));
    HoldsSplit(b, at, JointHead(d) + FullSeatBytes(d.seat0), FullSeatBytes(d.seat1));
  }

  /** Attempt index and tick. */
  function AuditHead(a: Audit): (b: Bytes)
    ensures |b| == 16
  {
    Store64(a.attempt) + Store64(a.tick)
  }

  function AuditVerdict(a: Audit): (b: Bytes)
    requires |a.message| < MESSAGE_BYTES
    ensures |b| == 16
  {
    Store32(a.code) + Store32(a.field) + Store32(a.item) + Store32(|a.message|)
  }

  /** The diagnostic text in its zero-filled field. */
  function AuditText(a: Audit): (b: Bytes)
    requires |a.message| < MESSAGE_BYTES
    ensures |b| == MESSAGE_BYTES
  {
    a.message + Zeros(MESSAGE_BYTES - |a.message|)
  }

  /** fd_encode_audit */
  function AuditBytes(a: Audit): (b: Bytes)
    requires |a.message| < MESSAGE_BYTES
    ensures |b| == AUDIT_SIZE
  {
    AuditHead(a) + JointBytes(a.decision) + AuditVerdict(a) + AuditText(a)
  }

  /** The field loads of fd_decode_audit. */
  function ReadAudit(b: Bytes, at: nat): Audit
    requires at + AUDIT_SIZE <= |b| && Load32(b, at + 164) < MESSAGE_BYTES
  {
    Audit(Load64(b, at), Load64(b, at + 8), ReadJoint(b, at + 16), Load32(b, at + 152), Load32(b, at + 156),
          Load32(b, at + 160), b[at + 168..at + 168 + Load32(b, at + 164)])
  }

  predicate Zeroed(b: Bytes, from: nat, to: nat)
    requires from <= to <= |b|
  {
    forall i :: from <= i < to ==> b[i] == 0
  }

  lemma VerdictStored(b: Bytes, at: nat, a: Audit)
    requires |a.message| < MESSAGE_BYTES && Holds(b, at, AuditVerdict(a))
    ensures at + 16 <= |b| && Load32(b, at) == a.code && Load32(b, at + 4) == a.field
    ensures Load32(b, at + 8) == a.item && Load32(b, at + 12) == |a.message|
  {
    assert at + 16 <= |b|;
    hide Store32, Load32, Holds;
    Apart(b, at);
  }

  lemma AuditHeadStored(b: Bytes, at: nat, a: Audit)
    requires Holds(b, at, AuditHead(a))
    ensures at + 16 <= |b| && Load64(b, at) == a.attempt && Load64(b, at + 8) == a.tick
  {
    assert at + 16 <= |b|;
    hide Store64, Load64, Holds;
    Apart(b, at);
  }

  lemma TextStored(b: Bytes, at: nat, a: Audit)
    requires |a.message| < MESSAGE_BYTES && Holds(b, at, AuditText(a))
    ensures at + MESSAGE_BYTES <= |b| && b[at..at + |a.message|] == a.message
    ensures Zeroed(b, at + |a.message|, at + MESSAGE_BYTES)
  {
    var n := |a.message|;
    HoldsSplit(b, at, a.message, Zeros(MESSAGE_BYTES - n));
    forall i | at + n <= i < at + MESSAGE_BYTES ensures b[i] == 0 {
      assert b[i] == b[at + n..at + MESSAGE_BYTES][i - at - n];
    }
  }

  lemma TextRead(b: Bytes, at: nat, a: Audit)
    requires |a.message| < MESSAGE_BYTES && at + MESSAGE_BYTES <= |b|
    requires b[at..at + |a.message|] == a.message && Zeroed(b, at + |a.message|, at + MESSAGE_BYTES)
    ensures Holds(b, at, AuditText(a))
  {
    var n := |a.message|;
    assert b[at + n..at + MESSAGE_BYTES] == Zeros(MESSAGE_BYTES - n);
    HoldsSplit(b, at, a.message, Zeros(MESSAGE_BYTES - n));
  }

  lemma AuditStored(b: Bytes, at: nat, a: Audit)
    requires |a.message| < MESSAGE_BYTES && Holds(b, at, AuditBytes(a))
    ensures at + AUDIT_SIZE <= |b| && Load32(b, at + 164) == |a.message| && ReadAudit(b, at) == a
    ensures Zeroed(b, at + 168 + |a.message|, at + AUDIT_SIZE)
  {
    hide AuditHead, AuditVerdict, AuditText, JointBytes, ReadJoint, Load32, Load64;
    HoldsSplit(b, at, AuditHead(a) + JointBytes(a.decision) + AuditVerdict(a), AuditText(a));
    HoldsSplit(b, at, AuditHead(a) + JointBytes(a.decision), AuditVerdict(a));
    HoldsSplit(b, at, AuditHead(a), JointBytes(a.decision));
    AuditHeadStored(b, at, a);
    JointStored(b, at + 16, a.decision);
    VerdictStored(b, at + 152, a);
    TextStored(b, at + 168, a);
  }

  lemma AuditRead(b: Bytes, at: nat)
    requires at + AUDIT_SIZE <= |b| && Load32(b, at + 164) < MESSAGE_BYTES
    requires Zeroed(b, at + 168 + Load32(b, at + 164), at + AUDIT_SIZE)
    ensures Holds(b, at, AuditBytes(ReadAudit(b, at)))
  {
    var a := ReadAudit(b, at);
    WordsRead(b, at, a);
    hide AuditHead, AuditVerdict, AuditText, JointBytes, ReadJoint, Load32, Load64;
    JointRead(b, at + 16);
    TextRead(b, at + 168, a);
    HoldsSplit(b, at, AuditHead(a), JointBytes(a.decision));
    HoldsSplit(b, at, AuditHead(a) + JointBytes(a.decision), AuditVerdict(a));
    HoldsSplit(b, at, AuditHead(a) + JointBytes(a.decision) + AuditVerdict(a), AuditText(a));
  }

  lemma WordsRead(b: Bytes, at: nat, a: Audit)
    requires at + AUDIT_SIZE <= |b| && a.attempt == Load64(b, at) && a.tick == Load64(b, at + 8)
    requires |a.message| < MESSAGE_BYTES
    requires a.code == Load32(b, at + 152) && a.field == Load32(b, at + 156)
    requires a.item == Load32(b, at + 160) && |a.message| == Load32(b, at + 164)
    ensures Holds(b, at, AuditHead(a)) && Holds(b, at + 152, AuditVerdict(a))
  {
    hide Store32, Store64, Load32, Load64, Holds;
    Together(b, at);
    Together(b, at + 152);
  }

  // ----- the two streams

  function RecordsBytes(rs: seq<Record>): (b: Bytes)
    ensures |b| == RECORD_SIZE * |rs|
  {
    if rs == [] then [] else RecordsBytes(rs[..|rs| - 1]) + RecordBytes(rs[|rs| - 1])
  }

  predicate MessagesFit(audits: seq<Audit>) {
    forall k :: 0 <= k < |audits| ==> |audits[k].message| < MESSAGE_BYTES
  }

  function AuditsBytes(audits: seq<Audit>): (b: Bytes)
    requires MessagesFit(audits)
    ensures |b| == AUDIT_SIZE * |audits|
  {
    if audits == [] then [] else AuditsBytes(audits[..|audits| - 1]) + AuditBytes(audits[|audits| - 1])
  }

  lemma {:induction false} RecordsStored(p: Bytes, at: nat, rs: seq<Record>, k: nat)
    requires k < |rs| && Holds(p, at, RecordsBytes(rs)) && Staged(rs[k].decision) == rs[k].decision
    ensures at + RECORD_SIZE * k + RECORD_SIZE <= |p| && ReadRecord(p, at + RECORD_SIZE * k) == rs[k]
    decreases |rs|
  {
    hide RecordBytes, ReadRecord;
    var n := |rs| - 1;
    HoldsSplit(p, at, RecordsBytes(rs[..n]), RecordBytes(rs[n]));
    if k < n {
      RecordsStored(p, at, rs[..n], k);
    } else {
      RecordStored(p, at + RECORD_SIZE * n, rs[n]);
    }
  }

  lemma {:induction false} RecordsRead(p: Bytes, at: nat, rs: seq<Record>)
    requires at + RECORD_SIZE * |rs| <= |p|
    requires forall k :: 0 <= k < |rs| ==> rs[k] == ReadRecord(p, at + RECORD_SIZE * k)
    ensures Holds(p, at, RecordsBytes(rs))
    decreases |rs|
  {
    hide RecordBytes, ReadRecord;
    if rs != [] {
      var n := |rs| - 1;
      RecordsRead(p, at, rs[..n]);
      RecordRead(p, at + RECORD_SIZE * n);
      HoldsSplit(p, at, RecordsBytes(rs[..n]), RecordBytes(rs[n]));
    }
  }

  lemma {:induction false} AuditsStored(p: Bytes, at: nat, audits: seq<Audit>, k: nat)
    requires MessagesFit(audits) && k < |audits| && Holds(p, at, AuditsBytes(audits))
    ensures var q := at + AUDIT_SIZE * k;
            && q + AUDIT_SIZE <= |p| && Load32(p, q + 164) == |audits[k].message| < MESSAGE_BYTES
            && ReadAudit(p, q) == audits[k] && Zeroed(p, q + 168 + |audits[k].message|, q + AUDIT_SIZE)
    decreases |audits|
  {
    hide AuditBytes, ReadAudit, Load32, Zeroed;
    var n := |audits| - 1;
    HoldsSplit(p, at, AuditsBytes(audits[..n]), AuditBytes(audits[n]));
    if k < n {
      AuditsStored(p, at, audits[..n], k);
    } else {
      AuditStored(p, at + AUDIT_SIZE * n, audits[n]);
    }
  }

  /** One more audit read behind those read so far. */
  lemma OneMoreAudit(p: Bytes, at: nat, audits: seq<Audit>)
    requires MessagesFit(audits) && Holds(p, at, AuditsBytes(audits))
    requires at + AUDIT_SIZE * |audits| + AUDIT_SIZE <= |p|
    requires var q := at + AUDIT_SIZE * |audits|;
             Load32(p, q + 164) < MESSAGE_BYTES && Zeroed(p, q + 168 + Load32(p, q + 164), q + AUDIT_SIZE)
    ensures var more := audits + [ReadAudit(p, at + AUDIT_SIZE * |audits|)];
            MessagesFit(more) && Holds(p, at, AuditsBytes(more))
  {
    hide AuditBytes, Load32, Zeroed, ReadJoint;
    var a := ReadAudit(p, at + AUDIT_SIZE * |audits|);
    assert (audits + [a])[..|audits|] == audits;
    AuditRead(p, at + AUDIT_SIZE * |audits|);
    HoldsSplit(p, at, AuditsBytes(audits), AuditBytes(a));
  }
}
