/** The batch barrier of the benchmark: one dispatcher and eight persistent workers sharing
    an epoch and a completion count under one mutex.  Every step below is one critical
    section (a wait ends it), or one world step taken outside the mutex. */
module Barrier {
  import opened Grid
  import opened Counting

  const BATCH_THREADS := 8
  const SLICE := 8
  const BATCH_WORLDS := 64
  const BATCH_POOL := 1024
  const EPOCHS: nat := 0x1_0000_0000

  /** Ready: about to take the mutex and look.  Asleep: in cnd_wait on start_condition. */
  datatype Position = Ready | Asleep | Running(first: nat, index: nat) | Finishing | Exited

  /** joined is a history variable: how many dispatches this worker has picked up. */
  datatype Worker = Worker(at: Position, observed: u32, ok: bool, joined: nat)

  /** Checking and Sleeping are inside dispatch_batch; Idle is between dispatches; Joining
      follows the stop sequence. */
  datatype Main = Idle | Checking | Sleeping | Joining

  /** bases, steps and failed are history variables: the slices dispatched so far, how often
      each world has been stepped, and whether any step failed. */
  datatype Batch = Batch(
    epoch: u32, completed: nat, base: nat, stop: bool, workers: seq<Worker>, main: Main,
    bases: seq<nat>, steps: seq<nat>, failed: bool)

  datatype Action =
    | Look(worker: nat)
    | Step(worker: nat, good: bool)
    | Finish(worker: nat)
    | Wake(worker: nat)
    | Dispatch(slice: nat)
    | Check
    | WakeMain
    | Stop

  function Start(): Batch {
    Batch(0, 0, 0, false, seq(BATCH_THREADS, _ => Worker(Ready, 0, true, 0)), Idle, [], seq(BATCH_POOL, _ => 0), false)
  }

  // ----- the steps

  predicate Shape(s: Batch) {
    && |s.workers| == BATCH_THREADS && |s.steps| == BATCH_POOL
    && forall j :: 0 <= j < BATCH_THREADS && s.workers[j].at.Running? ==>
         s.workers[j].at.index < SLICE && s.workers[j].at.first + s.workers[j].at.index < BATCH_POOL
  }

  predicate Enabled(s: Batch, a: Action)
    requires Shape(s)
  {
    match a
    case Look(j) => j < BATCH_THREADS && s.workers[j].at == Ready
    case Step(j, good) => j < BATCH_THREADS && s.workers[j].at.Running?
    case Finish(j) => j < BATCH_THREADS && s.workers[j].at == Finishing
    case Wake(j) => j < BATCH_THREADS && s.workers[j].at == Asleep
    case Dispatch(base) => s.main == Idle && base + BATCH_WORLDS <= BATCH_POOL
    case Check => s.main == Checking
    case WakeMain => s.main == Sleeping
    case Stop => s.main == Idle
  }

  function Roused(w: Worker): Worker {
    if w.at == Asleep then w.(at := Ready) else w
  }

  /** cnd_broadcast on start_condition. */
  function Broadcast(ws: seq<Worker>): (r: seq<Worker>)
    ensures |r| == |ws| && forall j :: 0 <= j < |ws| ==> r[j] == Roused(ws[j])
  {
    seq(|ws|, j requires 0 <= j < |ws| => Roused(ws[j]))
  }

  function Looked(s: Batch, j: nat): Worker
    requires Shape(s) && j < BATCH_THREADS
  {
    var w := s.workers[j];
    if w.observed == s.epoch && !s.stop then w.(at := Asleep)
    else if s.stop then w.(at := Exited)
    else w.(at := Running(s.base + j * SLICE, 0), observed := s.epoch, joined := |s.bases|)
  }

  function Stepped(w: Worker, good: bool): Worker
    requires w.at.Running?
  {
    w.(at := if good && w.at.index + 1 < SLICE then Running(w.at.first, w.at.index + 1) else Finishing, ok := good)
  }

  function Apply(s: Batch, a: Action): Batch
    requires Shape(s) && Enabled(s, a)
  {
    match a
    case Look(j) => s.(workers := s.workers[j := Looked(s, j)])
    case Step(j, good) =>
      var w := s.workers[j];
      var world := w.at.first + w.at.index;
      s.(steps := s.steps[world := s.steps[world] + 1],
         workers := s.workers[j := Stepped(w, good)],
         failed := s.failed || !good)
    case Finish(j) =>
      s.(completed := s.completed + 1,
         main := if s.completed + 1 == BATCH_THREADS && s.main == Sleeping then Checking else s.main,
         workers := s.workers[j := s.workers[j].(at := Ready)])
    case Wake(j) => s.(workers := s.workers[j := s.workers[j].(at := Ready)])
    case Dispatch(base) =>
      s.(base := base, completed := 0, epoch := (s.epoch + 1) % EPOCHS, bases := s.bases + [base],
         workers := Broadcast(s.workers), main := Sleeping)
    case Check => s.(main := if s.completed != BATCH_THREADS then Sleeping else Idle)
    case WakeMain => s.(main := Checking)
    case Stop => s.(stop := true, workers := Broadcast(s.workers), main := Joining)
  }

  /** The benchmark in numbers: eight workers over slices of 64 of 1024 worlds, worker j taking
      the eight worlds from 8j on, under an epoch of 32 bits. */
  lemma BatchInNumbers(s: Batch, base: nat, j: nat)
    requires Shape(s) && s.main == Idle && j < 8
    ensures |Start().workers| == |s.workers| == 8 && |Start().steps| == |s.steps| == 1024
    ensures Enabled(s, Dispatch(base)) <==> base + 64 <= 1024
    ensures base + 64 <= 1024 ==>
              var t := Apply(s, Dispatch(base));
              && t.epoch == (s.epoch + 1) % 0x1_0000_0000 && t.completed == 0 && t.bases == s.bases + [base]
              && (s.workers[j].at == Ready && s.workers[j].observed != t.epoch && !s.stop ==>
                    Apply(t, Look(j)).workers[j].at == Running(base + 8 * j, 0))
  {
  }

  // ----- the invariant

  ghost predicate Busy(s: Batch) { s.main == Sleeping || s.main == Checking }

  /** A worker is done with the current dispatch. */
  ghost predicate Done(s: Batch, w: Worker) {
    w.joined == |s.bases| && (w.at == Ready || w.at == Asleep || w.at == Exited)
  }

  ghost function DoneSet(s: Batch): set<nat> {
    set j: nat | j < |s.workers| && Done(s, s.workers[j])
  }

  ghost predicate WorkerOk(s: Batch, j: nat)
    requires |s.workers| == BATCH_THREADS && j < BATCH_THREADS
  {
    var w, n := s.workers[j], |s.bases|;
    && (w.joined == n || w.joined + 1 == n)
    && w.observed == w.joined % EPOCHS
    && (w.joined < n ==> w.at == Ready && Busy(s))
    && (w.at == Asleep ==> !s.stop)
    && (w.at == Exited ==> s.stop)
    && (w.at.Running? ==> w.at.first == s.base + j * SLICE && w.at.index < SLICE)
    && (w.at.Running? || w.at == Finishing ==> Busy(s))
  }

  ghost predicate Control(s: Batch) {
    && |s.workers| == BATCH_THREADS && |s.steps| == BATCH_POOL
    && s.epoch == |s.bases| % EPOCHS
    && s.base + BATCH_WORLDS <= BATCH_POOL
    && (s.stop <==> s.main == Joining)
    && (|s.bases| == 0 ==> !Busy(s))
    && (|s.bases| > 0 ==> s.base == s.bases[|s.bases| - 1])
    && (|s.bases| > 0 ==> s.completed == |DoneSet(s)|)
    && (|s.bases| > 0 && !Busy(s) ==> s.completed == BATCH_THREADS)
    && (s.main == Sleeping ==> s.completed < BATCH_THREADS)
    && (forall j: nat :: j < BATCH_THREADS ==> WorkerOk(s, j))
  }

  /** How many of the dispatched slices contain a world. */
  ghost function Owed(bases: seq<nat>, world: nat): nat {
    if bases == [] then 0
    else
      var last := bases[|bases| - 1];
      Owed(bases[..|bases| - 1], world) + Bit(last <= world < last + BATCH_WORLDS)
  }

  /** Whether the current dispatch has already stepped a world of its slice. */
  ghost predicate Served(s: Batch, world: nat)
    requires |s.workers| == BATCH_THREADS
  {
    && |s.bases| > 0
    && s.base <= world < s.base + BATCH_WORLDS
    && var w := s.workers[(world - s.base) / SLICE];
       w.joined == |s.bases| && (w.at.Running? ==> (world - s.base) % SLICE < w.at.index)
  }

  ghost function Expected(s: Batch, world: nat): nat
    requires |s.workers| == BATCH_THREADS
  {
    if |s.bases| == 0 then 0 else Owed(s.bases[..|s.bases| - 1], world) + Bit(Served(s, world))
  }

  ghost predicate Counted(s: Batch)
    requires |s.workers| == BATCH_THREADS && |s.steps| == BATCH_POOL
  {
    forall world: nat {:trigger s.steps[world]} :: world < BATCH_POOL ==>
      s.steps[world] <= Expected(s, world) && (!s.failed ==> s.steps[world] == Expected(s, world))
  }

  ghost predicate Inv(s: Batch) { Control(s) && Counted(s) }

  lemma InvShape(s: Batch)
    requires Control(s)
    ensures Shape(s)
  {
    forall j | 0 <= j < BATCH_THREADS && s.workers[j].at.Running?
      ensures s.workers[j].at.index < SLICE && s.workers[j].at.first + s.workers[j].at.index < BATCH_POOL
    {
      assert WorkerOk(s, j);
    }
  }

  lemma StartInv()
    ensures Inv(Start())
  {
  }

  /** All eight done means the done set is everyone. */
  lemma EveryoneDone(s: Batch)
    requires |s.workers| == BATCH_THREADS
    ensures |DoneSet(s)| <= BATCH_THREADS
    ensures |DoneSet(s)| == BATCH_THREADS <==> forall j: nat :: j < BATCH_THREADS ==> Done(s, s.workers[j])
  {
    hide Done;
    var all: set<nat> := {0, 1, 2, 3, 4, 5, 6, 7};
    SubsetSizes(DoneSet(s), all);
    if forall j: nat :: j < BATCH_THREADS ==> Done(s, s.workers[j]) {
      assert DoneSet(s) == all;
    }
  }

  lemma MoveElement(S: set<nat>, S': set<nat>, j: nat)
    requires forall i: nat :: i != j ==> (i in S <==> i in S')
    ensures |S'| == |S| - Bit(j in S) + Bit(j in S')
  {
    var rest := S - {j};
    assert rest == S' - {j};
    assert S == if j in S then rest + {j} else rest;
    assert S' == if j in S' then rest + {j} else rest;
  }

  /** One worker's move changes the done set by at most that worker. */
  lemma DoneSetUpdate(s: Batch, s': Batch, j: nat)
    requires |s.workers| == |s'.workers| && j < |s.workers| && |s.bases| == |s'.bases|
    requires forall i: nat :: i < |s.workers| && i != j ==> s'.workers[i] == s.workers[i]
    ensures |DoneSet(s')| == |DoneSet(s)| - Bit(Done(s, s.workers[j])) + Bit(Done(s', s'.workers[j]))
  {
    MoveElement(DoneSet(s), DoneSet(s'), j);
  }

  /** The steps by which one worker moves. */
  predicate WorkerMove(a: Action) { a.Look? || a.Step? || a.Finish? || a.Wake? }

  lemma ControlWorker(s: Batch, a: Action)
    requires Control(s) && Shape(s) && Enabled(s, a) && WorkerMove(a)
    ensures Control(Apply(s, a))
  {
    var s', j := Apply(s, a), a.worker;
    DoneSetUpdate(s, s', j);
    EveryoneDone(s);
    EveryoneDone(s');
    assert WorkerOk(s, j);
    forall i: nat | i < BATCH_THREADS ensures WorkerOk(s', i) {
      assert WorkerOk(s, i);
    }
  }

  lemma ControlMain(s: Batch, a: Action)
    requires Control(s) && Shape(s) && Enabled(s, a) && !WorkerMove(a)
    ensures Control(Apply(s, a))
  {
    var s' := Apply(s, a);
    EveryoneDone(s);
    EveryoneDone(s');
    forall i: nat | i < BATCH_THREADS ensures WorkerOk(s', i) {
      assert WorkerOk(s, i);
    }
    if a.Dispatch? {
      assert DoneSet(s') == {} by {
        forall i: nat | i < BATCH_THREADS ensures !Done(s', s'.workers[i]) { assert WorkerOk(s, i); }
      }
    } else {
      assert DoneSet(s') == DoneSet(s);
    }
  }

  // ----- the count of world steps

  lemma CountedWorker(s: Batch, a: Action, world: nat)
    requires Inv(s) && Shape(s) && Enabled(s, a) && WorkerMove(a) && world < BATCH_POOL
    ensures var s' := Apply(s, a);
            && s'.steps[world] <= Expected(s', world)
            && (!s'.failed ==> s'.steps[world] == Expected(s', world))
  {
    hide Owed, DoneSet;
    assert WorkerOk(s, a.worker);
    assert s.steps[world] <= Expected(s, world);
  }

  /** A dispatch starts when every world of the previous slice has been served. */
  lemma CountedDispatch(s: Batch, a: Action, world: nat)
    requires Inv(s) && Shape(s) && Enabled(s, a) && a.Dispatch? && world < BATCH_POOL
    ensures var s' := Apply(s, a);
            && s'.steps[world] <= Expected(s', world)
            && (!s'.failed ==> s'.steps[world] == Expected(s', world))
  {
    hide DoneSet;
    var s' := Apply(s, a);
    assert s.steps[world] <= Expected(s, world);
    EveryoneDone(s);
    assert s'.bases[..|s'.bases| - 1] == s.bases;
    forall i: nat | i < BATCH_THREADS ensures s'.workers[i].joined < |s'.bases| { assert WorkerOk(s, i); }
    if |s.bases| > 0 && s.base <= world < s.base + BATCH_WORLDS {
      assert Done(s, s.workers[(world - s.base) / SLICE]);
    }
  }

  lemma CountedMain(s: Batch, a: Action, world: nat)
    requires Inv(s) && Shape(s) && Enabled(s, a) && !WorkerMove(a) && world < BATCH_POOL
    ensures var s' := Apply(s, a);
            && s'.steps[world] <= Expected(s', world)
            && (!s'.failed ==> s'.steps[world] == Expected(s', world))
  {
    hide DoneSet, Owed, WorkerOk;
    if a.Dispatch? {
      CountedDispatch(s, a, world);
    } else {
      assert s.steps[world] <= Expected(s, world);
    }
  }

  /** Every step of every thread keeps the invariant, spurious wake-ups included. */
  lemma StepKeepsInv(s: Batch, a: Action)
    requires Inv(s) && Shape(s) && Enabled(s, a)
    ensures Inv(Apply(s, a))
  {
    hide Expected;
    if WorkerMove(a) { ControlWorker(s, a); } else { ControlMain(s, a); }
    forall world: nat | world < BATCH_POOL
      ensures Apply(s, a).steps[world] <= Expected(Apply(s, a), world)
      ensures !Apply(s, a).failed ==> Apply(s, a).steps[world] == Expected(Apply(s, a), world)
    {
      if WorkerMove(a) { CountedWorker(s, a, world); } else { CountedMain(s, a, world); }
    }
  }

  // ----- whole runs

  /** The state after a schedule, when every step of it is enabled in turn. */
  ghost predicate Runs(s: Batch, schedule: seq<Action>)
    decreases |schedule|
  {
    schedule == [] || (Shape(s) && Enabled(s, schedule[0]) && Runs(Apply(s, schedule[0]), schedule[1..]))
  }

  ghost function After(s: Batch, schedule: seq<Action>): Batch
    requires Runs(s, schedule)
    decreases |schedule|
  {
    if schedule == [] then s else After(Apply(s, schedule[0]), schedule[1..])
  }

  lemma {:induction false} RunKeepsInv(s: Batch, schedule: seq<Action>)
    requires Inv(s) && Runs(s, schedule)
    ensures Inv(After(s, schedule))
    decreases |schedule|
  {
    hide Inv, Apply;
    if schedule != [] {
      StepKeepsInv(s, schedule[0]);
      RunKeepsInv(Apply(s, schedule[0]), schedule[1..]);
    }
  }

  /** A worker holds the world it is stepping. */
  ghost predicate Holds(s: Batch, j: nat, world: nat)
    requires |s.workers| == BATCH_THREADS && j < BATCH_THREADS
  {
    s.workers[j].at.Running? && world == s.workers[j].at.first + s.workers[j].at.index
  }

  /** In every reachable state no world is held twice, held worlds lie in the dispatched
      slice, and none is held while the dispatcher is outside dispatch_batch. */
  lemma Exclusive(schedule: seq<Action>, i: nat, j: nat, world: nat)
    requires Runs(Start(), schedule) && i < BATCH_THREADS && j < BATCH_THREADS
    ensures var s := After(Start(), schedule);
            && Control(s)
            && (Holds(s, i, world) && Holds(s, j, world) ==> i == j)
            && (Holds(s, i, world) ==> Busy(s) && s.base <= world < s.base + BATCH_WORLDS)
  {
    StartInv();
    RunKeepsInv(Start(), schedule);
    var s := After(Start(), schedule);
    hide DoneSet, Counted;
    assert WorkerOk(s, i) && WorkerOk(s, j);
  }

  /** Every worker is at the current epoch or one behind, modulo 2^32, and while a dispatch
      is on, completed counts those that have finished it. */
  lemma EpochsAgree(schedule: seq<Action>, j: nat)
    requires Runs(Start(), schedule) && j < BATCH_THREADS
    ensures var s := After(Start(), schedule);
            && |s.workers| == BATCH_THREADS
            && (s.workers[j].observed == s.epoch || (s.workers[j].observed + 1) % EPOCHS == s.epoch)
            && (Busy(s) ==> s.completed == |DoneSet(s)|)
            && (!Busy(s) ==> s.workers[j].observed == s.epoch)
  {
    StartInv();
    RunKeepsInv(Start(), schedule);
    var s := After(Start(), schedule);
    hide DoneSet, Counted;
    assert WorkerOk(s, j);
  }

  /** Whenever the dispatcher is outside dispatch_batch, each world has been stepped exactly
      as often as its slices were dispatched, unless a step failed; then never more often. */
  lemma ExactlyOnce(schedule: seq<Action>, world: nat)
    requires Runs(Start(), schedule) && world < BATCH_POOL
    requires !Busy(After(Start(), schedule))
    ensures var s := After(Start(), schedule);
            && |s.steps| == BATCH_POOL
            && s.steps[world] <= Owed(s.bases, world)
            && (!s.failed ==> s.steps[world] == Owed(s.bases, world))
  {
    StartInv();
    RunKeepsInv(Start(), schedule);
    var s := After(Start(), schedule);
    EveryoneDone(s);
    hide DoneSet;
    if |s.bases| > 0 && s.base <= world < s.base + BATCH_WORLDS {
      assert Done(s, s.workers[(world - s.base) / SLICE]);
    }
    assert s.steps[world] <= Expected(s, world);
  }

  // ----- no lost wake-up, and every dispatch returns

  predicate Spurious(a: Action) { a.Wake? || a.WakeMain? }

  predicate Command(a: Action) { a.Dispatch? || a.Stop? }

  /** Something other than a spurious wake-up or a new command can happen. */
  ghost predicate CanMove(s: Batch)
    requires Shape(s)
  {
    exists a: Action :: !Spurious(a) && !Command(a) && Enabled(s, a)
  }

  /** No deadlock: while a dispatch is on, or while the stop sequence has not seen every
      worker off, some thread that is not asleep can take a step.  A sleeping worker has
      therefore never missed its broadcast. */
  lemma NoLostWakeup(s: Batch)
    requires Inv(s) && Shape(s)
    ensures Busy(s) ==> CanMove(s)
    ensures s.main == Joining ==> CanMove(s) || forall j: nat :: j < BATCH_THREADS ==> s.workers[j].at == Exited
  {
    EveryoneDone(s);
    hide DoneSet, Counted, Shape;
    if s.main == Checking {
      assert Enabled(s, Check);
    } else if s.main == Sleeping || s.main == Joining {
      if j: nat :| j < BATCH_THREADS && if s.main == Joining then s.workers[j].at != Exited else !Done(s, s.workers[j]) {
        assert WorkerOk(s, j);
        match s.workers[j].at
        case Ready => assert Enabled(s, Look(j));
        case Running(_, _) => assert Enabled(s, Step(j, true));
        case Finishing => assert Enabled(s, Finish(j));
        case Exited =>
        case Asleep =>
      }
    }
  }

  function Rank(w: Worker, dispatches: nat): nat {
    match w.at
    case Ready => if w.joined < dispatches then 12 else 1
    case Running(_, index) => if index < SLICE then 11 - index else 4
    case Finishing => 3
    case Asleep => 0
    case Exited => 0
  }

  function Total(ws: seq<Worker>, dispatches: nat): nat {
    if ws == [] then 0 else Total(ws[..|ws| - 1], dispatches) + Rank(ws[|ws| - 1], dispatches)
  }

  /** An upper bound on the steps left before every thread rests. */
  function Work(s: Batch): nat {
    Total(s.workers, |s.bases|) + (if s.main == Checking then 1 else 0)
  }

  lemma {:induction false} TotalUpdate(ws: seq<Worker>, n: nat, j: nat, w: Worker)
    requires j < |ws|
    ensures Total(ws[j := w], n) == Total(ws, n) - Rank(ws[j], n) + Rank(w, n)
  {
    hide Rank;
    var k := |ws| - 1;
    if j == k {
      assert ws[j := w][..k] == ws[..k];
    } else {
      TotalUpdate(ws[..k], n, j, w);
      assert ws[j := w][..k] == ws[..k][j := w];
    }
  }

  lemma {:induction false} TotalBound(ws: seq<Worker>, n: nat)
    ensures Total(ws, n) <= 12 * |ws|
  {
    if ws != [] { TotalBound(ws[..|ws| - 1], n); }
  }

  /** A step that is not a spurious wake-up uses up some work, a spurious one adds at most one. */
  lemma StepUsesWork(s: Batch, a: Action)
    requires Inv(s) && Shape(s) && Enabled(s, a) && !Command(a)
    ensures if Spurious(a) then Work(Apply(s, a)) <= Work(s) + 1 else Work(Apply(s, a)) < Work(s)
  {
    hide DoneSet, Counted, Total;
    if WorkerMove(a) {
      assert WorkerOk(s, a.worker);
      TotalUpdate(s.workers, |s.bases|, a.worker, Apply(s, a).workers[a.worker]);
    }
  }

  function SpuriousCount(schedule: seq<Action>): (n: nat)
    ensures n <= |schedule|
  {
    if schedule == [] then 0 else Bit(Spurious(schedule[0])) + SpuriousCount(schedule[1..])
  }

  lemma {:induction false} RunUsesWork(s: Batch, schedule: seq<Action>)
    requires Inv(s) && Runs(s, schedule) && forall a :: a in schedule ==> !Command(a)
    ensures |schedule| + Work(After(s, schedule)) <= Work(s) + 2 * SpuriousCount(schedule)
    decreases |schedule|
  {
    hide Inv, Apply, Work, Enabled, Shape;
    if schedule != [] {
      StepKeepsInv(s, schedule[0]);
      StepUsesWork(s, schedule[0]);
      RunUsesWork(Apply(s, schedule[0]), schedule[1..]);
    }
  }

  lemma {:induction false} RunSplits(s: Batch, front: seq<Action>, back: seq<Action>)
    requires Runs(s, front + back)
    ensures Runs(s, front) && Runs(After(s, front), back) && After(After(s, front), back) == After(s, front + back)
    decreases |front|
  {
    hide Apply, Enabled, Shape;
    if front == [] {
      assert front + back == back;
    } else {
      assert (front + back)[1..] == front[1..] + back;
      RunSplits(Apply(s, front[0]), front[1..], back);
    }
  }

  /** Every dispatch returns: between two commands at most 97 steps and two more for each
      spurious wake-up can be taken, and when none but spurious ones are left the
      dispatcher is outside dispatch_batch. */
  lemma DispatchReturns(before: seq<Action>, schedule: seq<Action>)
    requires Runs(Start(), before + schedule) && forall a :: a in schedule ==> !Command(a)
    ensures var s := After(Start(), before + schedule);
            && |schedule| <= 97 + 2 * SpuriousCount(schedule)
            && Shape(s)
            && (!CanMove(s) ==> !Busy(s))
  {
    hide Inv, Apply, Enabled, Shape, CanMove;
    RunSplits(Start(), before, schedule);
    StartInv();
    RunKeepsInv(Start(), before);
    var middle := After(Start(), before);
    WorkBound(middle);
    RunUsesWork(middle, schedule);
    RunKeepsInv(middle, schedule);
    InvIsShape(After(middle, schedule));
    NoLostWakeup(After(middle, schedule));
  }

  lemma InvIsShape(s: Batch)
    requires Inv(s)
    ensures Shape(s)
  {
    hide Counted;
    InvShape(s);
  }

  lemma WorkBound(s: Batch)
    requires Inv(s)
    ensures Work(s) <= 97
  {
    TotalBound(s.workers, |s.bases|);
  }
}
