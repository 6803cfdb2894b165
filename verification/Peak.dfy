/** The lock-free allocation counters of a context: any number of threads allocating and
    freeing, interleaved at every atomic operation. */
module Peak {
  import opened Grid

  const BYTES_LIMIT: nat := 0x1_0000_0000_0000_0000

  /** Where a thread is in fd_context_alloc: outside it, past the fetch-add with its own
      total, or past a load of the peak. */
  datatype Position =
    | Outside
    | Added(size: nat, live: nat)
    | Loaded(size: nat, live: nat, seen: nat)

  /** held lists the blocks returned and not yet freed; high is a history variable, the
      greatest total there has been. */
  datatype Counters = Counters(live: nat, peak: nat, threads: seq<Position>, held: seq<nat>, high: nat)

  /** Load and Retry may see any value no greater than the current peak: the loads are
      relaxed, and the peak only grows.  A compare-exchange may fail spuriously. */
  datatype Action =
    | Add(thread: nat, size: nat)
    | Load(thread: nat, value: nat)
    | Exchange(thread: nat)
    | Retry(thread: nat, value: nat)
    | Return(thread: nat)
    | Free(block: nat)

  function Start(threads: nat): Counters {
    Counters(0, 0, seq(threads, _ => Outside), [], 0)
  }

  predicate Enabled(s: Counters, a: Action) {
    match a
    case Add(t, size) => t < |s.threads| && s.threads[t] == Outside && 0 < size && s.live + size < BYTES_LIMIT
    case Load(t, value) => t < |s.threads| && s.threads[t].Added? && value <= s.peak
    case Exchange(t) => t < |s.threads| && s.threads[t].Loaded? && s.threads[t].seen < s.threads[t].live
                        && s.threads[t].seen == s.peak
    case Retry(t, value) => t < |s.threads| && s.threads[t].Loaded? && s.threads[t].seen < s.threads[t].live
                            && value <= s.peak
    case Return(t) => t < |s.threads| && s.threads[t].Loaded? && s.threads[t].live <= s.threads[t].seen
    case Free(block) => block < |s.held| && s.held[block] <= s.live
  }

  function Max(a: nat, b: nat): nat { if a < b then b else a }

  function Apply(s: Counters, a: Action): Counters
    requires Enabled(s, a)
  {
    match a
    case Add(t, size) =>
      s.(live := s.live + size, threads := s.threads[t := Added(size, s.live + size)], high := Max(s.high, s.live + size))
    case Load(t, value) =>
      s.(threads := s.threads[t := Loaded(s.threads[t].size, s.threads[t].live, value)])
    case Exchange(t) =>
      s.(peak := s.threads[t].live, threads := s.threads[t := Outside], held := s.held + [s.threads[t].size])
    case Retry(t, value) => s.(threads := s.threads[t := s.threads[t].(seen := value)])
    case Return(t) => s.(threads := s.threads[t := Outside], held := s.held + [s.threads[t].size])
    case Free(block) =>
      s.(live := s.live - s.held[block], held := s.held[..block] + s.held[block + 1..])
  }

  // ----- the invariant

  function InFlight(p: Position): nat { if p == Outside then 0 else p.size }

  function FlightBytes(threads: seq<Position>): nat {
    if threads == [] then 0 else FlightBytes(threads[..|threads| - 1]) + InFlight(threads[|threads| - 1])
  }

  function HeldBytes(held: seq<nat>): nat {
    if held == [] then 0 else HeldBytes(held[..|held| - 1]) + held[|held| - 1]
  }

  ghost predicate Pending(s: Counters, t: nat) {
    t < |s.threads| && s.threads[t] != Outside && s.threads[t].live == s.high
  }

  ghost predicate Inv(s: Counters) {
    && s.live == FlightBytes(s.threads) + HeldBytes(s.held)
    && s.live <= s.high < BYTES_LIMIT && s.peak <= s.high
    && (forall t :: 0 <= t < |s.threads| && s.threads[t] != Outside ==> s.threads[t].live <= s.high)
    && (forall t :: 0 <= t < |s.threads| && s.threads[t].Loaded? ==> s.threads[t].seen <= s.peak)
    && (s.peak == s.high || exists t: nat :: Pending(s, t))
  }

  lemma {:induction false} FlightUpdate(threads: seq<Position>, t: nat, p: Position)
    requires t < |threads|
    ensures FlightBytes(threads[t := p]) == FlightBytes(threads) - InFlight(threads[t]) + InFlight(p)
  {
    var k := |threads| - 1;
    if t == k {
      assert threads[t := p][..k] == threads[..k];
    } else {
      FlightUpdate(threads[..k], t, p);
      assert threads[t := p][..k] == threads[..k][t := p];
    }
  }

  lemma {:induction false} HeldAppend(held: seq<nat>, size: nat)
    ensures HeldBytes(held + [size]) == HeldBytes(held) + size
  {
    assert (held + [size])[..|held|] == held;
  }

  lemma {:induction false} HeldRemove(held: seq<nat>, block: nat)
    requires block < |held|
    ensures HeldBytes(held) == HeldBytes(held[..block] + held[block + 1..]) + held[block]
  {
    var k := |held| - 1;
    if block == k {
      assert held[..block] + held[block + 1..] == held[..k];
    } else {
      HeldRemove(held[..k], block);
      var rest := held[..block] + held[block + 1..];
      assert rest[..|rest| - 1] == held[..k][..block] + held[..k][block + 1..];
    }
  }

  lemma {:induction false} StartInv(threads: nat)
    ensures Inv(Start(threads))
  {
    NobodyInFlight(Start(threads).threads);
  }

  lemma {:induction false} NobodyInFlight(threads: seq<Position>)
    requires forall t :: 0 <= t < |threads| ==> threads[t] == Outside
    ensures FlightBytes(threads) == 0
  {
    if threads != [] { NobodyInFlight(threads[..|threads| - 1]); }
  }

  lemma BytesKept(s: Counters, a: Action)
    requires Inv(s) && Enabled(s, a)
    ensures Apply(s, a).live == FlightBytes(Apply(s, a).threads) + HeldBytes(Apply(s, a).held)
  {
    hide FlightBytes, HeldBytes;
    if a.Free? {
      HeldRemove(s.held, a.block);
    } else {
      FlightUpdate(s.threads, a.thread, Apply(s, a).threads[a.thread]);
      HeldAppend(s.held, InFlight(s.threads[a.thread]));
    }
  }

  /** Every atomic step keeps the invariant, and never lowers the peak or the high mark. */
  lemma StepKeepsInv(s: Counters, a: Action)
    requires Inv(s) && Enabled(s, a)
    ensures Inv(Apply(s, a)) && s.peak <= Apply(s, a).peak && s.high <= Apply(s, a).high
  {
    hide FlightBytes, HeldBytes;
    var s' := Apply(s, a);
    BytesKept(s, a);
    if s.high < s'.high {
      assert Pending(s', a.thread);
    } else if s'.peak != s'.high {
      var t: nat :| Pending(s, t);
      assert Pending(s', t);
    }
  }

  // ----- whole runs

  ghost predicate Runs(s: Counters, schedule: seq<Action>)
    decreases |schedule|
  {
    schedule == [] || (Enabled(s, schedule[0]) && Runs(Apply(s, schedule[0]), schedule[1..]))
  }

  ghost function After(s: Counters, schedule: seq<Action>): (r: Counters)
    requires Runs(s, schedule)
    ensures |r.threads| == |s.threads|
    decreases |schedule|
  {
    if schedule == [] then s else After(Apply(s, schedule[0]), schedule[1..])
  }

  /** The greatest value live_bytes takes in a run, its start included. */
  ghost function GreatestLive(s: Counters, schedule: seq<Action>): nat
    requires Runs(s, schedule)
    decreases |schedule|
  {
    if schedule == [] then s.live else Max(s.live, GreatestLive(Apply(s, schedule[0]), schedule[1..]))
  }

  lemma {:induction false} RunKeepsInv(s: Counters, schedule: seq<Action>)
    requires Inv(s) && Runs(s, schedule)
    ensures var s' := After(s, schedule);
            Inv(s') && s.peak <= s'.peak && s'.high == Max(s.high, GreatestLive(s, schedule))
    decreases |schedule|
  {
    hide FlightBytes, HeldBytes;
    if schedule != [] {
      StepKeepsInv(s, schedule[0]);
      RunKeepsInv(Apply(s, schedule[0]), schedule[1..]);
    }
  }

  ghost predicate Quiet(s: Counters) {
    forall t :: 0 <= t < |s.threads| ==> s.threads[t] == Outside
  }

  /** In every interleaving, with any threads: the peak never exceeds the greatest total
      there has been, equals it whenever no allocation is in flight, and never decreases
      in any continuation. */
  lemma PeakIsExact(threads: nat, schedule: seq<Action>, more: seq<Action>)
    requires Runs(Start(threads), schedule) && Runs(After(Start(threads), schedule), more)
    ensures var s := After(Start(threads), schedule);
            && s.peak <= GreatestLive(Start(threads), schedule) <= 0xFFFF_FFFF_FFFF_FFFF
            && (Quiet(s) ==> s.peak == GreatestLive(Start(threads), schedule))
            && s.peak <= After(s, more).peak
  {
    hide FlightBytes, HeldBytes;
    StartInv(threads);
    RunKeepsInv(Start(threads), schedule);
    RunKeepsInv(After(Start(threads), schedule), more);
  }

  /** fetch_sub never wraps: a held block is always part of the total. */
  lemma FreeNeverUnderflows(threads: nat, schedule: seq<Action>, block: nat)
    requires Runs(Start(threads), schedule) && block < |After(Start(threads), schedule).held|
    ensures Enabled(After(Start(threads), schedule), Free(block))
  {
    StartInv(threads);
    RunKeepsInv(Start(threads), schedule);
    HeldRemove(After(Start(threads), schedule).held, block);
  }

  /** A thread in flight is never stuck: one load that sees the current peak, followed by
      one compare-exchange that does not fail, or by none, lets it return. */
  lemma InFlightFinishes(threads: nat, schedule: seq<Action>, t: nat)
    requires Runs(Start(threads), schedule) && t < |After(Start(threads), schedule).threads|
    requires After(Start(threads), schedule).threads[t] != Outside
    ensures var s := After(Start(threads), schedule);
            exists rest: seq<Action> :: |rest| <= 2 && Runs(s, rest) && After(s, rest).threads[t] == Outside
  {
    var s := After(Start(threads), schedule);
    StartInv(threads);
    RunKeepsInv(Start(threads), schedule);
    hide Inv, FlightBytes, HeldBytes;
    if s.threads[t].Loaded? && s.threads[t].live <= s.threads[t].seen {
      TwoSteps(s, Return(t), []);
    } else {
      var first := if s.threads[t].Added? then Load(t, s.peak) else Retry(t, s.peak);
      TwoSteps(s, first, [if s.threads[t].live <= s.peak then Return(t) else Exchange(t)]);
    }
  }

  lemma TwoSteps(s: Counters, first: Action, second: seq<Action>)
    requires Enabled(s, first) && |second| <= 1
    requires second != [] ==> Enabled(Apply(s, first), second[0])
    ensures Runs(s, [first] + second)
    ensures After(s, [first] + second) == if second == [] then Apply(s, first) else Apply(Apply(s, first), second[0])
  {
    hide Enabled;
    assert ([first] + second)[1..] == second;
    if second != [] {
      assert second[1..] == [];
      assert Runs(Apply(Apply(s, first), second[0]), []);
      assert After(Apply(s, first), second) == After(Apply(Apply(s, first), second[0]), []);
    }
    assert After(s, [first] + second) == After(Apply(s, first), second);
  }
}
