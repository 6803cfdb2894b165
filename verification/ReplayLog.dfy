/** A replay as a log of attempts: what the accepted and the refused attempts record, and
    which pairs of record and audit lists are the log of some run. */
module ReplayLog {
  import opened Grid
  import opened World
  import opened Invariants
  import opened Hashing
  import opened Decisions
  import opened Step
  import opened SaveFormat

  datatype Record = Record(
    tickBefore: u64, tickAfter: u64, decision: Decision, pre: Digest, post: Digest, event: Digest, rngDomains: u32)

  datatype Audit = Audit(
    attempt: u64, tick: u64, decision: Decision, code: u32, field: u32, item: u32, message: Bytes)

  const CHECKPOINT_INTERVAL := 1024
  const MESSAGE_BYTES := 160

  // ----- the states along a run

  /** The state after n accepted steps. */
  function Nth(sha: HashFunction, s: State, n: nat): (t: State)
    requires s.WellFormed() && NamesFit(s.entities) && s.tick + OPERATIONAL_TICKS * n <= LAST_TICK
    ensures t.WellFormed() && NamesFit(t.entities) && t.tick == s.tick + OPERATIONAL_TICKS * n
  {
    if n == 0 then s else Stepped(sha, Nth(sha, s, n - 1))
  }

  /** Steps change nothing but the clock and the digest. */
  lemma {:induction false} NthChangesTwoFields(sha: HashFunction, s: State, n: nat)
    requires s.WellFormed() && NamesFit(s.entities) && s.tick + OPERATIONAL_TICKS * n <= LAST_TICK
    ensures Nth(sha, s, n) == s.(tick := Nth(sha, s, n).tick, stateHash := Nth(sha, s, n).stateHash)
  {
    hide StateHash, NamesFit, MessageBytes;
    if n > 0 { NthChangesTwoFields(sha, s, n - 1); }
  }

  lemma NthStep(sha: HashFunction, s: State, n: nat)
    requires s.WellFormed() && NamesFit(s.entities) && s.tick + OPERATIONAL_TICKS * (n + 1) <= LAST_TICK
    ensures Nth(sha, s, n + 1) == Stepped(sha, Nth(sha, s, n)) && Nth(sha, s, 0) == s
  {
    hide Stepped;
  }

  lemma {:induction false} NthIsAuthentic(sha: HashFunction, s: State, n: nat)
    requires Authentic(sha, s) && s.tick + OPERATIONAL_TICKS * n <= LAST_TICK
    ensures Authentic(sha, Nth(sha, s, n))
  {
    hide Authentic, Stepped;
    Rights(sha, s);
    if n > 0 {
      NthIsAuthentic(sha, s, n - 1);
      SteppedIsAuthentic(sha, Nth(sha, s, n - 1));
    }
  }

  lemma Rights(sha: HashFunction, s: State)
    requires Authentic(sha, s)
    ensures s.WellFormed() && NamesFit(s.entities) && WorldOk(s)
  {
  }

  lemma {:induction false} NthAdds(sha: HashFunction, s: State, m: nat, n: nat)
    requires s.WellFormed() && NamesFit(s.entities) && s.tick + OPERATIONAL_TICKS * (m + n) <= LAST_TICK
    ensures Nth(sha, Nth(sha, s, m), n) == Nth(sha, s, m + n)
    decreases n
  {
    hide Nth, Stepped, State.WellFormed, NamesFit;
    if n == 0 {
      NthZero(sha, Nth(sha, s, m));
    } else {
      NthAdds(sha, s, m, n - 1);
      NthMore(sha, s, Nth(sha, s, m), m, n - 1);
    }
  }

  lemma NthMore(sha: HashFunction, s: State, t: State, m: nat, n: nat)
    requires s.WellFormed() && NamesFit(s.entities) && s.tick + OPERATIONAL_TICKS * (m + n + 1) <= LAST_TICK
    requires t.WellFormed() && NamesFit(t.entities) && t.tick == s.tick + OPERATIONAL_TICKS * m
    requires Nth(sha, t, n) == Nth(sha, s, m + n)
    ensures Nth(sha, t, n + 1) == Nth(sha, s, m + n + 1)
  {
    hide Nth, Stepped, State.WellFormed, NamesFit;
    NthStep(sha, t, n);
    NthStep(sha, s, m + n);
  }

  lemma NthZero(sha: HashFunction, s: State)
    requires s.WellFormed() && NamesFit(s.entities)
    ensures Nth(sha, s, 0) == s
  {
  }

  // ----- the verdict on one attempt

  /** What a valid world answers an attempt with. */
  function Verdict(s: State, d: Decision): Diagnostic {
    var joint := JointJudged(s.region, s.tick, s.stateHash, d);
    if joint.code != OK then joint else if !TickFits(s.tick) then TICK_OVERFLOW else DIAG_OK
  }

  /** fd_replay_result_is_auditable */
  predicate Auditable(code: u32) {
    code == INVALID_ARGUMENT || code == INVALID_SIZE || code == OUT_OF_RANGE || code == CAPACITY || code == INVALID_ACTION
  }

  /** A valid world refuses only with auditable results, so no attempt list is ever rejected
      for its contents. */
  lemma VerdictIsTheAnswer(s: State, d: Decision, diag: Diagnostic)
    requires s.WellFormed() && WorldOk(s)
    ensures Answers(s, d, diag) <==> diag == Verdict(s, d)
    ensures Verdict(s, d).code == OK <==> Accepts(s, d)
    ensures Verdict(s, d).code == OK <==> Verdict(s, d) == DIAG_OK
    ensures Verdict(s, d).code == OK || Auditable(Verdict(s, d).code)
    ensures Verdict(s, d).code == OK ==> TickFits(s.tick)
  {
    hide JointJudged, WorldOk;
    AcceptedIsPass(s.region, s.tick, s.stateHash, d);
    OkIsOk(s.region, s.tick, s.stateHash, d);
  }

  lemma OkIsOk(r: Region, tick: u64, hash: Digest, d: Decision)
    ensures JointJudged(r, tick, hash, d).code == OK ==> JointJudged(r, tick, hash, d) == DIAG_OK
  {
    hide ActionJudged;
    assert SeatsJudged(r, d, 2) == DIAG_OK;
  }

  // ----- what a run writes down

  /** The text as stored: cut to its field, one byte a character. */
  function MessageBytes(m: string): (b: Bytes)
    ensures |b| < MESSAGE_BYTES
  {
    var n := if |m| < MESSAGE_BYTES then |m| else MESSAGE_BYTES - 1;
    seq(n, i requires 0 <= i < n => m[i] as int % 256)
  }

  /** Every text shorter than 160 characters is stored whole, a longer one cut to 159. */
  lemma MessageIsSpelled(m: string, i: nat)
    requires forall k :: 0 <= k < |m| ==> m[k] < 256 as char
    ensures |MessageBytes(m)| == if |m| < 160 then |m| else 159
    ensures i < |MessageBytes(m)| ==> MessageBytes(m)[i] == m[i] as int
  {
  }

  function RecordOf(sha: HashFunction, s: State): Record
    requires s.WellFormed() && NamesFit(s.entities) && TickFits(s.tick)
  {
    Record(s.tick, s.tick + OPERATIONAL_TICKS, PassDecision(s.region, s.tick, s.stateHash), s.stateHash,
           Stepped(sha, s).stateHash, sha([]), 0)
  }

  function AuditOf(s: State, attempt: u64, d: Decision): Audit {
    var diag := Verdict(s, d);
    Audit(attempt, s.tick, d, diag.code, diag.field, diag.item, MessageBytes(diag.message))
  }

  /** How many of the attempts are accepted, each judged at the state its predecessors left. */
  function Accepted(sha: HashFunction, s: State, ds: seq<Decision>): (n: nat)
    requires s.WellFormed() && NamesFit(s.entities)
    ensures n <= |ds| && s.tick + OPERATIONAL_TICKS * n <= LAST_TICK
  {
    if ds == [] then 0
    else
      var before := Accepted(sha, s, ds[..|ds| - 1]);
      if Verdict(Nth(sha, s, before), ds[|ds| - 1]).code == OK then before + 1 else before
  }

  /** The audits of the refused attempts, in attempt order. */
  function Audits(sha: HashFunction, s: State, ds: seq<Decision>): (audits: seq<Audit>)
    requires s.WellFormed() && NamesFit(s.entities) && |ds| < 0x1_0000_0000_0000_0000
    ensures |audits| + Accepted(sha, s, ds) == |ds|
  {
    if ds == [] then []
    else
      var n := |ds| - 1;
      var before := Audits(sha, s, ds[..n]);
      var at := Nth(sha, s, Accepted(sha, s, ds[..n]));
      if Verdict(at, ds[n]).code == OK then before else before + [AuditOf(at, n, ds[n])]
  }

  /** The records of the first n accepted steps: they do not depend on the attempts. */
  function Records(sha: HashFunction, s: State, n: nat): (records: seq<Record>)
    requires s.WellFormed() && NamesFit(s.entities) && s.tick + OPERATIONAL_TICKS * n <= LAST_TICK
    ensures |records| == n
  {
    if n == 0 then [] else Records(sha, s, n - 1) + [RecordOf(sha, Nth(sha, s, n - 1))]
  }

  /** The state after a list of attempts: accepted ones step it, refused ones leave it. */
  function AfterRun(sha: HashFunction, s: State, ds: seq<Decision>): (t: State)
    requires s.WellFormed() && NamesFit(s.entities)
    ensures t.WellFormed() && NamesFit(t.entities)
  {
    if ds == [] then s
    else
      var t := AfterRun(sha, s, ds[..|ds| - 1]);
      if Verdict(t, ds[|ds| - 1]).code == OK then Stepped(sha, t) else t
  }

  lemma {:induction false} AfterRunIsNth(sha: HashFunction, s: State, ds: seq<Decision>)
    requires s.WellFormed() && NamesFit(s.entities)
    ensures AfterRun(sha, s, ds) == Nth(sha, s, Accepted(sha, s, ds))
  {
    hide NamesFit, State.WellFormed, Nth, Stepped;
    if ds == [] {
      NthZero(sha, s);
    } else {
      var front := ds[..|ds| - 1];
      AfterRunIsNth(sha, s, front);
      if Verdict(AfterRun(sha, s, front), ds[|ds| - 1]).code == OK {
        NthStep(sha, s, Accepted(sha, s, front));
      }
    }
  }

  /** Over every run of attempts from an authentic world, the clock is 24 times the accepted
      steps past the start, the digest is that of the state, the invariants hold, and nothing
      but clock and digest has changed. */
  lemma RunsStayAuthentic(sha: HashFunction, s: State, ds: seq<Decision>)
    requires Authentic(sha, s) && s.WellFormed() && NamesFit(s.entities)
    ensures var t := AfterRun(sha, s, ds);
            && t.tick == s.tick + OPERATIONAL_TICKS * Accepted(sha, s, ds)
            && Authentic(sha, t) && t.stateHash == StateHash(sha, t)
            && t == s.(tick := t.tick, stateHash := t.stateHash)
  {
    hide NamesFit, State.WellFormed, Nth, AfterRun, Accepted, StateHash, WorldOk, ConfigOk, ConfigHash, ContentHash;
    AfterRunIsNth(sha, s, ds);
    NthIsAuthentic(sha, s, Accepted(sha, s, ds));
    NthChangesTwoFields(sha, s, Accepted(sha, s, ds));
  }

  // ----- which audit lists belong to n accepted steps

  /** The j-th audit is the honest refusal of its decision, at the state left by the attempts
      accepted before it. */
  ghost predicate AuditFits(sha: HashFunction, s: State, n: nat, audits: seq<Audit>, j: nat)
    requires s.WellFormed() && NamesFit(s.entities) && s.tick + OPERATIONAL_TICKS * n <= LAST_TICK
    requires j < |audits|
  {
    var a := audits[j];
    && j <= a.attempt < n + |audits| && a.attempt - j <= n
    && (j > 0 ==> audits[j - 1].attempt < a.attempt)
    && var at := Nth(sha, s, a.attempt - j);
       Verdict(at, a.decision).code != OK && a == AuditOf(at, a.attempt, a.decision)
  }

  /** Merging the audits with n records by attempt index uses every index below the total
      exactly once, and replays honestly. */
  ghost predicate IsLog(sha: HashFunction, s: State, n: nat, audits: seq<Audit>)
    requires s.WellFormed() && NamesFit(s.entities)
  {
    && s.tick + OPERATIONAL_TICKS * n <= LAST_TICK && n + |audits| < 0x1_0000_0000_0000_0000
    && forall j: nat :: j < |audits| ==> AuditFits(sha, s, n, audits, j)
  }

  /** Every run writes a log. */
  lemma {:induction false} RunIsLog(sha: HashFunction, s: State, ds: seq<Decision>)
    requires s.WellFormed() && NamesFit(s.entities) && |ds| < 0x1_0000_0000_0000_0000
    ensures IsLog(sha, s, Accepted(sha, s, ds), Audits(sha, s, ds))
  {
    hide NamesFit, Verdict, Nth, MessageBytes;
    if ds != [] {
      var front := ds[..|ds| - 1];
      RunIsLog(sha, s, front);
      var n, audits := Accepted(sha, s, ds), Audits(sha, s, ds);
      forall j: nat | j < |audits| ensures AuditFits(sha, s, n, audits, j) {
        if j < |Audits(sha, s, front)| {
          assert AuditFits(sha, s, Accepted(sha, s, front), Audits(sha, s, front), j);
        } else if j > 0 {
          assert AuditFits(sha, s, Accepted(sha, s, front), Audits(sha, s, front), j - 1);
        }
      }
    }
  }

  /** The attempts a log stands for: refused ones where an audit says so, passes elsewhere. */
  function Attempts(sha: HashFunction, s: State, n: nat, audits: seq<Audit>): (ds: seq<Decision>)
    requires s.WellFormed() && NamesFit(s.entities) && s.tick + OPERATIONAL_TICKS * n <= LAST_TICK
    ensures |ds| == n + |audits|
    decreases n + |audits|
  {
    var m := |audits|;
    if m > 0 && (n == 0 || audits[m - 1].attempt == n + m - 1) then
      Attempts(sha, s, n, audits[..m - 1]) + [audits[m - 1].decision]
    else if n > 0 then
      var at := Nth(sha, s, n - 1);
      Attempts(sha, s, n - 1, audits) + [PassDecision(at.region, at.tick, at.stateHash)]
    else []
  }

  lemma PassIsAccepted(s: State)
    requires TickFits(s.tick)
    ensures Verdict(s, PassDecision(s.region, s.tick, s.stateHash)).code == OK
  {
    AcceptedIsPass(s.region, s.tick, s.stateHash, PassDecision(s.region, s.tick, s.stateHash));
  }

  /** A shorter log without its last audit, or without its last record. */
  lemma LogShrinks(sha: HashFunction, s: State, n: nat, audits: seq<Audit>)
    requires s.WellFormed() && NamesFit(s.entities) && IsLog(sha, s, n, audits) && n + |audits| > 0
    ensures |audits| > 0 && audits[|audits| - 1].attempt == n + |audits| - 1 ==>
              && IsLog(sha, s, n, audits[..|audits| - 1])
              && AuditFits(sha, s, n, audits, |audits| - 1)
    ensures !(|audits| > 0 && audits[|audits| - 1].attempt == n + |audits| - 1) ==>
              n > 0 && IsLog(sha, s, n - 1, audits)
  {
    hide NamesFit, Verdict, Nth, AuditOf;
    var m := |audits|;
    if m > 0 {
      assert AuditFits(sha, s, n, audits, m - 1);
    }
    LogRises(sha, s, n, audits, m);
    if m > 0 && audits[m - 1].attempt == n + m - 1 {
      var fewer := audits[..m - 1];
      forall j: nat | j < |fewer| ensures AuditFits(sha, s, n, fewer, j) {
        assert AuditFits(sha, s, n, audits, j);
      }
    } else {
      var less: nat := n - 1;
      forall j: nat | j < m ensures AuditFits(sha, s, less, audits, j) {
        assert AuditFits(sha, s, n, audits, j);
      }
    }
  }

  /** Attempt indices rise by at least one from audit to audit. */
  lemma {:induction false} LogRises(sha: HashFunction, s: State, n: nat, audits: seq<Audit>, m: nat)
    requires s.WellFormed() && NamesFit(s.entities) && IsLog(sha, s, n, audits) && m <= |audits|
    ensures forall j: nat :: j < m ==> audits[m - 1].attempt - audits[j].attempt >= m - 1 - j
    decreases m
  {
    hide NamesFit, Verdict, Nth, AuditOf;
    if m > 1 {
      LogRises(sha, s, n, audits, m - 1);
      assert AuditFits(sha, s, n, audits, m - 1);
    }
  }

  lemma RunExtends(sha: HashFunction, s: State, front: seq<Decision>, d: Decision)
    requires s.WellFormed() && NamesFit(s.entities) && |front| + 1 < 0x1_0000_0000_0000_0000
    ensures var n, at := Accepted(sha, s, front), Nth(sha, s, Accepted(sha, s, front));
            && Accepted(sha, s, front + [d]) == (if Verdict(at, d).code == OK then n + 1 else n)
            && Audits(sha, s, front + [d])
               == (if Verdict(at, d).code == OK then Audits(sha, s, front)
                   else Audits(sha, s, front) + [AuditOf(at, |front|, d)])
  {
    hide NamesFit, Verdict, Nth, AuditOf;
    assert (front + [d])[..|front|] == front;
  }

  /** Every log is the log of its attempts, so the two streams of a replay and the attempts
      behind it determine each other. */
  lemma {:induction false} LogIsRun(sha: HashFunction, s: State, n: nat, audits: seq<Audit>)
    requires s.WellFormed() && NamesFit(s.entities) && IsLog(sha, s, n, audits)
    ensures Accepted(sha, s, Attempts(sha, s, n, audits)) == n
    ensures Audits(sha, s, Attempts(sha, s, n, audits)) == audits
    decreases n + |audits|
  {
    hide NamesFit, Verdict, Nth, AuditOf, PassDecision, Accepted, Audits, AuditFits;
    var m := |audits|;
    if n + m == 0 {
      NothingRun(sha, s);
    } else {
      LogShrinks(sha, s, n, audits);
      if m > 0 && audits[m - 1].attempt == n + m - 1 {
        LogIsRun(sha, s, n, audits[..m - 1]);
        RunExtends(sha, s, Attempts(sha, s, n, audits[..m - 1]), audits[m - 1].decision);
        LastAudit(sha, s, n, audits);
      } else {
        LogIsRun(sha, s, n - 1, audits);
        var at := Nth(sha, s, n - 1);
        RunExtends(sha, s, Attempts(sha, s, n - 1, audits), PassDecision(at.region, at.tick, at.stateHash));
        PassIsAccepted(at);
      }
    }
  }

  lemma NothingRun(sha: HashFunction, s: State)
    requires s.WellFormed() && NamesFit(s.entities)
    ensures Accepted(sha, s, []) == 0 && Audits(sha, s, []) == []
  {
    hide NamesFit;
  }

  lemma LastAudit(sha: HashFunction, s: State, n: nat, audits: seq<Audit>)
    requires s.WellFormed() && NamesFit(s.entities) && s.tick + OPERATIONAL_TICKS * n <= LAST_TICK && |audits| > 0
    requires AuditFits(sha, s, n, audits, |audits| - 1) && audits[|audits| - 1].attempt == n + |audits| - 1
    ensures var a := audits[|audits| - 1];
            && Verdict(Nth(sha, s, n), a.decision).code != OK
            && audits == audits[..|audits| - 1] + [AuditOf(Nth(sha, s, n), n + |audits| - 1, a.decision)]
  {
    hide NamesFit, Verdict, Nth, AuditOf;
  }

  // ----- the record chain

  /** The k-th record starts where the previous one ended. */
  lemma {:induction false} RecordAt(sha: HashFunction, s: State, n: nat, k: nat)
    requires s.WellFormed() && NamesFit(s.entities) && s.tick + OPERATIONAL_TICKS * n <= LAST_TICK && k < n
    ensures Records(sha, s, n)[k] == RecordOf(sha, Nth(sha, s, k))
    ensures Records(sha, s, n)[k].post == Nth(sha, s, k + 1).stateHash
    decreases n
  {
    hide NamesFit, Stepped, State.WellFormed, RecordOf, Nth;
    RecordPost(sha, s, k);
    if k < n - 1 { RecordAt(sha, s, n - 1, k); }
  }

  lemma RecordPost(sha: HashFunction, s: State, k: nat)
    requires s.WellFormed() && NamesFit(s.entities) && s.tick + OPERATIONAL_TICKS * (k + 1) <= LAST_TICK
    ensures RecordOf(sha, Nth(sha, s, k)).post == Nth(sha, s, k + 1).stateHash
  {
    hide NamesFit, Stepped, State.WellFormed, Nth, PassDecision;
    NthStep(sha, s, k);
  }

  /** A longer log extends a shorter one. */
  lemma {:induction false} RecordsPrefix(sha: HashFunction, s: State, m: nat, n: nat)
    requires s.WellFormed() && NamesFit(s.entities) && s.tick + OPERATIONAL_TICKS * n <= LAST_TICK && m <= n
    ensures Records(sha, s, n)[..m] == Records(sha, s, m)
    decreases n
  {
    hide NamesFit, RecordOf, Nth;
    if m < n { RecordsPrefix(sha, s, m, n - 1); } else { assert Records(sha, s, n)[..n] == Records(sha, s, n); }
  }

  // ----- where each attempt is written down

  /** What later attempts add leaves the earlier count and audits in place. */
  lemma {:induction false} LogGrows(sha: HashFunction, s: State, ds: seq<Decision>, m: nat)
    requires s.WellFormed() && NamesFit(s.entities) && |ds| < 0x1_0000_0000_0000_0000 && m <= |ds|
    ensures Accepted(sha, s, ds[..m]) <= Accepted(sha, s, ds) && Audits(sha, s, ds[..m]) <= Audits(sha, s, ds)
    decreases |ds|
  {
    hide NamesFit, Verdict, Nth, AuditOf, State.WellFormed;
    if m == |ds| {
      assert ds[..m] == ds;
    } else {
      var front := ds[..|ds| - 1];
      assert front[..m] == ds[..m];
      LogGrows(sha, s, front, m);
    }
  }

  /** Attempt i stands in the log: accepted, as the record after those accepted before it, in
      its staged form; refused, as the audit after those refused before it. */
  ghost predicate AttemptLogged(sha: HashFunction, s: State, ds: seq<Decision>, i: nat)
    requires s.WellFormed() && NamesFit(s.entities) && |ds| < 0x1_0000_0000_0000_0000 && i < |ds|
  {
    hide NamesFit, State.WellFormed, Nth, Verdict, AuditOf, Audits, Staged;
    var a, n := Accepted(sha, s, ds[..i]), Accepted(sha, s, ds);
    var at := Nth(sha, s, a);
    if Verdict(at, ds[i]).code == OK then a < n && Records(sha, s, n)[a].decision == Staged(ds[i])
    else i - a < |Audits(sha, s, ds)| && Audits(sha, s, ds)[i - a] == AuditOf(at, i, ds[i])
  }

  /** No attempt is lost, merged or moved. */
  lemma EveryAttemptLogged(sha: HashFunction, s: State, ds: seq<Decision>, i: nat)
    requires s.WellFormed() && NamesFit(s.entities) && |ds| < 0x1_0000_0000_0000_0000 && i < |ds|
    ensures AttemptLogged(sha, s, ds, i)
  {
    hide NamesFit, State.WellFormed, Nth, AuditOf, Records, JointJudged, Staged, PassDecision;
    var upTo := ds[..i + 1];
    assert upTo[..i] == ds[..i];
    LogGrows(sha, s, ds, i + 1);
    var a, n := Accepted(sha, s, ds[..i]), Accepted(sha, s, ds);
    var at := Nth(sha, s, a);
    if Verdict(at, ds[i]).code == OK {
      AcceptedIsPass(at.region, at.tick, at.stateHash, ds[i]);
      RecordAt(sha, s, n, a);
    }
  }
}
