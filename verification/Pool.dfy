/** The probe pool as a system of interleaved steps: a dispatcher, one worker per candidate, a
    semaphore channel, a wait group and atomic counters. */
module Pool {
  import opened Base
  import opened Types

  // ----- states -----

  /** Where a worker is in its goroutine. Skipped is the way out when the context was cancelled. */
  datatype Stage =
    | Waiting | Started | Ran | Checked | Reported | Counted | Summed
    | SawPassed | SawFailed | SawInconclusive | Published | Skipped | Released | Gone

  datatype Metrics = Metrics(completed: nat, passed: nat, failed: nat, inconclusive: nat)

  /** A worker: what its probe returned, which counters it has moved, and what it read for its event.
      `atSum` remembers the counters when it was summed; no step reads it. */
  datatype Worker = Worker(stage: Stage, status: Bytes, reported: bool, counted: bool, summed: bool,
                           seen: Metrics, atSum: Metrics)

  const IDLE := Worker(Waiting, "", false, false, false, Metrics(0, 0, 0, 0), Metrics(0, 0, 0, 0))

  datatype Dispatcher = Selecting(next: nat) | Acquired(next: nat) | Leaving(done: bool) | Left(done: bool)

  /** `pool` are the counters of the pool, `cycle` those of the callback of the scheduler, which has no
      counter of completed probes. `dispatched` lists the candidates in the order they were started. */
  datatype State = State(
    concurrency: nat,
    cancelled: bool,
    dispatcher: Dispatcher,
    workers: seq<Worker>,
    slots: nat,
    group: nat,
    pool: Metrics,
    cycle: Metrics,
    dispatched: seq<nat>,
    events: seq<Metrics>)

  predicate Initial(s: State, n: nat, concurrency: nat) {
    && |s.workers| == n && (forall i :: 0 <= i < n ==> s.workers[i] == IDLE)
    && s.concurrency == concurrency && !s.cancelled && s.dispatcher == Selecting(0) && s.slots == 0 && s.group == 0
    && s.pool == Metrics(0, 0, 0, 0) && s.cycle == Metrics(0, 0, 0, 0) && s.dispatched == [] && s.events == []
  }

  // ----- steps -----

  datatype Action =
    | Cancel
    | SeeCancelled
    | Acquire
    | Spawn
    | EndLoop
    | Return
    | Probe(i: nat, status: Bytes)
    | Check(i: nat)
    | Report(i: nat)
    | CountStatus(i: nat)
    | Sum(i: nat)
    | LoadPassed(i: nat)
    | LoadFailed(i: nat)
    | LoadInconclusive(i: nat)
    | Publish(i: nat)
    | Release(i: nat)
    | Finish(i: nat)

  predicate At(s: State, i: nat, stage: Stage) {
    i < |s.workers| && s.workers[i].stage == stage
  }

  predicate Enabled(s: State, a: Action) {
    match a
    case Cancel => true
    case SeeCancelled => s.dispatcher.Selecting? && s.dispatcher.next < |s.workers| && s.cancelled
    case Acquire => s.dispatcher.Selecting? && s.dispatcher.next < |s.workers| && s.slots < s.concurrency
    case Spawn => s.dispatcher.Acquired? && At(s, s.dispatcher.next, Waiting)
    case EndLoop => s.dispatcher.Selecting? && s.dispatcher.next >= |s.workers|
    case Return => s.dispatcher.Leaving? && s.group == 0
    case Probe(i, _) => At(s, i, Started)
    case Check(i) => At(s, i, Ran)
    case Report(i) => At(s, i, Checked)
    case CountStatus(i) => At(s, i, Reported)
    case Sum(i) => At(s, i, Counted)
    case LoadPassed(i) => At(s, i, Summed)
    case LoadFailed(i) => At(s, i, SawPassed)
    case LoadInconclusive(i) => At(s, i, SawFailed)
    case Publish(i) => At(s, i, SawInconclusive)
    case Release(i) => (At(s, i, Published) || At(s, i, Skipped)) && s.slots > 0
    case Finish(i) => At(s, i, Released) && s.group > 0
  }

  /** The switch over the status: a status that is none of the three moves no counter. */
  function CountedAs(m: Metrics, status: Bytes): Metrics {
    if status == PASSED then m.(passed := m.passed + 1)
    else if status == FAILED then m.(failed := m.failed + 1)
    else if status == INCONCLUSIVE then m.(inconclusive := m.inconclusive + 1)
    else m
  }

  function Moved(s: State, i: nat, w: Worker): State
    requires i < |s.workers|
  {
    s.(workers := s.workers[i := w])
  }

  function Apply(s: State, a: Action): (r: State)
    requires Enabled(s, a)
    ensures |r.workers| == |s.workers|
  {
    match a
    case Cancel => s.(cancelled := true)
    case SeeCancelled => s.(dispatcher := Leaving(false))
    case Acquire => s.(dispatcher := Acquired(s.dispatcher.next), slots := s.slots + 1)
    case Spawn =>
      var i := s.dispatcher.next;
      Moved(s, i, s.workers[i].(stage := Started)).(
        dispatcher := Selecting(i + 1), group := s.group + 1, dispatched := s.dispatched + [i])
    case EndLoop => s.(dispatcher := Leaving(true))
    case Return => s.(dispatcher := Left(s.dispatcher.done))
    case Probe(i, status) => Moved(s, i, s.workers[i].(stage := Ran, status := status))
    case Check(i) => Moved(s, i, s.workers[i].(stage := if s.cancelled then Skipped else Checked))
    case Report(i) =>
      Moved(s, i, s.workers[i].(stage := Reported, reported := true)).(
        cycle := CountedAs(s.cycle, s.workers[i].status))
    case CountStatus(i) =>
      Moved(s, i, s.workers[i].(stage := Counted, counted := true)).(
        pool := CountedAs(s.pool, s.workers[i].status))
    case Sum(i) =>
      var pool := s.pool.(completed := s.pool.completed + 1);
      var seen := Metrics(pool.completed, 0, 0, 0);
      Moved(s, i, s.workers[i].(stage := Summed, summed := true, atSum := pool, seen := seen)).(pool := pool)
    case LoadPassed(i) =>
      Moved(s, i, s.workers[i].(stage := SawPassed, seen := s.workers[i].seen.(passed := s.pool.passed)))
    case LoadFailed(i) =>
      Moved(s, i, s.workers[i].(stage := SawFailed, seen := s.workers[i].seen.(failed := s.pool.failed)))
    case LoadInconclusive(i) =>
      var seen := s.workers[i].seen.(inconclusive := s.pool.inconclusive);
      Moved(s, i, s.workers[i].(stage := SawInconclusive, seen := seen))
    case Publish(i) => Moved(s, i, s.workers[i].(stage := Published)).(events := s.events + [s.workers[i].seen])
    case Release(i) => Moved(s, i, s.workers[i].(stage := Released)).(slots := s.slots - 1)
    case Finish(i) => Moved(s, i, s.workers[i].(stage := Gone)).(group := s.group - 1)
  }

  /** The states along an execution. */
  ghost predicate Execution(ss: seq<State>, acts: seq<Action>, n: nat, concurrency: nat) {
    && |ss| == |acts| + 1 && Initial(ss[0], n, concurrency)
    && forall t :: 0 <= t < |acts| ==> Enabled(ss[t], acts[t]) && ss[t+1] == Apply(ss[t], acts[t])
  }

  // ----- counting workers -----

  function Ind(b: bool): nat {
    if b then 1 else 0
  }

  function Count(ws: seq<Worker>, p: Worker -> bool): (n: nat)
    ensures n <= |ws|
  {
    if ws == [] then 0 else Count(ws[..|ws|-1], p) + Ind(p(ws[|ws|-1]))
  }

  lemma {:induction false} CountUpdate(ws: seq<Worker>, i: nat, w: Worker, p: Worker -> bool)
    requires i < |ws|
    ensures Count(ws[i := w], p) + Ind(p(ws[i])) == Count(ws, p) + Ind(p(w))
  {
    var n := |ws| - 1;
    if i < n {
      CountUpdate(ws[..n], i, w, p);
      assert ws[i := w][..n] == ws[..n][i := w];
    } else {
      assert ws[i := w][..n] == ws[..n];
    }
  }

  lemma {:induction false} CountNone(ws: seq<Worker>, p: Worker -> bool)
    ensures Count(ws, p) == 0 <==> forall i :: 0 <= i < |ws| ==> !p(ws[i])
  {
    if ws != [] {
      CountNone(ws[..|ws|-1], p);
      assert ws == ws[..|ws|-1] + [ws[|ws|-1]];
    }
  }

  lemma {:induction false} CountImplies(ws: seq<Worker>, p: Worker -> bool, q: Worker -> bool)
    requires forall i :: 0 <= i < |ws| ==> (p(ws[i]) ==> q(ws[i]))
    ensures Count(ws, p) <= Count(ws, q)
    ensures Count(ws, p) == Count(ws, q) <==> forall i :: 0 <= i < |ws| ==> p(ws[i]) == q(ws[i])
  {
    if ws != [] {
      CountImplies(ws[..|ws|-1], p, q);
      assert ws == ws[..|ws|-1] + [ws[|ws|-1]];
    }
  }

  predicate Holding(w: Worker) {
    !w.stage.Waiting? && !w.stage.Released? && !w.stage.Gone?
  }

  predicate Live(w: Worker) {
    !w.stage.Waiting? && !w.stage.Gone?
  }

  predicate IsSummed(w: Worker) { w.summed }
  predicate CountedPassed(w: Worker) { w.counted && w.status == PASSED }
  predicate CountedFailed(w: Worker) { w.counted && w.status == FAILED }
  predicate CountedInconclusive(w: Worker) { w.counted && w.status == INCONCLUSIVE }
  predicate ReportedPassed(w: Worker) { w.reported && w.status == PASSED }
  predicate ReportedFailed(w: Worker) { w.reported && w.status == FAILED }
  predicate ReportedInconclusive(w: Worker) { w.reported && w.status == INCONCLUSIVE }

  predicate Known(status: Bytes) {
    status == PASSED || status == FAILED || status == INCONCLUSIVE
  }

  predicate CountedKnown(w: Worker) { w.counted && Known(w.status) }
  predicate ReportedKnown(w: Worker) { w.reported && Known(w.status) }

  lemma {:induction false} KnownSplit(ws: seq<Worker>)
    ensures Count(ws, CountedKnown) ==
            Count(ws, CountedPassed) + Count(ws, CountedFailed) + Count(ws, CountedInconclusive)
    ensures Count(ws, ReportedKnown) ==
            Count(ws, ReportedPassed) + Count(ws, ReportedFailed) + Count(ws, ReportedInconclusive)
  {
    StatusesDiffer();
    if ws != [] {
      KnownSplit(ws[..|ws|-1]);
    }
  }

  /** Every counter is the number of workers that have moved it. */
  predicate Tallied(s: State) {
    && s.slots == Count(s.workers, Holding) + Ind(s.dispatcher.Acquired?)
    && s.group == Count(s.workers, Live)
    && s.pool.completed == Count(s.workers, IsSummed)
    && s.pool.passed == Count(s.workers, CountedPassed)
    && s.pool.failed == Count(s.workers, CountedFailed)
    && s.pool.inconclusive == Count(s.workers, CountedInconclusive)
    && s.cycle.passed == Count(s.workers, ReportedPassed)
    && s.cycle.failed == Count(s.workers, ReportedFailed)
    && s.cycle.inconclusive == Count(s.workers, ReportedInconclusive)
  }

  predicate Shift(before: int, after: int, p: Worker -> bool, v: Worker, w: Worker) {
    after + Ind(p(v)) == before + Ind(p(w))
  }

  /** A step of one worker keeps the tallies when each counter moves with it. */
  lemma TallyStep(s: State, i: nat, w: Worker, r: State)
    requires Tallied(s) && i < |s.workers| && r.workers == s.workers[i := w]
    requires var v := s.workers[i];
             && Shift(s.slots - Ind(s.dispatcher.Acquired?), r.slots - Ind(r.dispatcher.Acquired?), Holding, v, w)
             && Shift(s.group, r.group, Live, v, w)
             && Shift(s.pool.completed, r.pool.completed, IsSummed, v, w)
             && Shift(s.pool.passed, r.pool.passed, CountedPassed, v, w)
             && Shift(s.pool.failed, r.pool.failed, CountedFailed, v, w)
             && Shift(s.pool.inconclusive, r.pool.inconclusive, CountedInconclusive, v, w)
             && Shift(s.cycle.passed, r.cycle.passed, ReportedPassed, v, w)
             && Shift(s.cycle.failed, r.cycle.failed, ReportedFailed, v, w)
             && Shift(s.cycle.inconclusive, r.cycle.inconclusive, ReportedInconclusive, v, w)
    ensures Tallied(r)
  {
    var ws := s.workers;
    CountUpdate(ws, i, w, Holding);
    CountUpdate(ws, i, w, Live);
    CountUpdate(ws, i, w, IsSummed);
    CountUpdate(ws, i, w, CountedPassed);
    CountUpdate(ws, i, w, CountedFailed);
    CountUpdate(ws, i, w, CountedInconclusive);
    CountUpdate(ws, i, w, ReportedPassed);
    CountUpdate(ws, i, w, ReportedFailed);
    CountUpdate(ws, i, w, ReportedInconclusive);
  }

  // ----- invariants -----

  /** How many steps of its goroutine a worker has behind it. */
  function Progress(stage: Stage): nat {
    match stage
    case Waiting => 0 case Started => 1 case Ran => 2 case Skipped => 2 case Checked => 3 case Reported => 4
    case Counted => 5 case Summed => 6 case SawPassed => 7 case SawFailed => 8 case SawInconclusive => 9
    case Published => 10 case Released => 11 case Gone => 12
  }

  /** What a worker has done fits the stage it is in. */
  predicate WorkerOk(w: Worker, cancelled: bool) {
    var p := Progress(w.stage);
    && (w.summed ==> w.counted) && (w.counted ==> w.reported)
    && (p < 11 ==> (w.reported <==> p >= 4) && (w.counted <==> p >= 5) && (w.summed <==> p >= 6))
    && (p >= 11 && !cancelled ==> w.summed)
    && (w.stage.Skipped? ==> cancelled)
    && (w.stage.Waiting? ==> w == IDLE)
  }

  /** What a worker read lies between the counters when it was summed and those of now. */
  predicate SeenOk(w: Worker, pool: Metrics) {
    var p := Progress(w.stage);
    6 <= p <= 9 ==>
      && w.seen.completed == w.atSum.completed
      && w.atSum.passed <= pool.passed && w.atSum.failed <= pool.failed && w.atSum.inconclusive <= pool.inconclusive
      && (p >= 7 ==> w.atSum.passed <= w.seen.passed <= pool.passed)
      && (p >= 8 ==> w.atSum.failed <= w.seen.failed <= pool.failed)
      && (p >= 9 ==> w.atSum.inconclusive <= w.seen.inconclusive <= pool.inconclusive)
  }

  function NextOf(s: State): nat {
    match s.dispatcher
    case Selecting(next) => next
    case Acquired(next) => next
    case _ => |s.dispatched|
  }

  predicate DispatchOk(s: State) {
    && NextOf(s) == |s.dispatched| <= |s.workers|
    && (forall t :: 0 <= t < |s.dispatched| ==> s.dispatched[t] == t)
    && (forall i :: 0 <= i < |s.workers| ==> (s.workers[i].stage.Waiting? <==> i >= |s.dispatched|))
    && (s.dispatcher.Acquired? ==> s.dispatcher.next < |s.workers|)
    && (s.dispatcher.Leaving? || s.dispatcher.Left? ==> s.dispatcher.done ==> |s.dispatched| == |s.workers|)
    && (s.dispatcher.Leaving? || s.dispatcher.Left? ==> !s.dispatcher.done ==> s.cancelled)
    && (s.dispatcher.Left? ==> s.group == 0)
  }

  ghost predicate Inv(s: State) {
    && Tallied(s) && DispatchOk(s) && s.slots <= s.concurrency
    && (forall i :: 0 <= i < |s.workers| ==> WorkerOk(s.workers[i], s.cancelled) && SeenOk(s.workers[i], s.pool))
  }

  lemma {:induction false} CountIdle(ws: seq<Worker>, p: Worker -> bool)
    requires !p(IDLE) && forall i :: 0 <= i < |ws| ==> ws[i] == IDLE
    ensures Count(ws, p) == 0
  {
    if ws != [] {
      CountIdle(ws[..|ws|-1], p);
    }
  }

  lemma InitialInv(s: State, n: nat, concurrency: nat)
    requires Initial(s, n, concurrency)
    ensures Inv(s)
  {
    StatusesDiffer();
    CountIdle(s.workers, Holding);
    CountIdle(s.workers, Live);
    CountIdle(s.workers, IsSummed);
    CountIdle(s.workers, CountedPassed);
    CountIdle(s.workers, CountedFailed);
    CountIdle(s.workers, CountedInconclusive);
    CountIdle(s.workers, ReportedPassed);
    CountIdle(s.workers, ReportedFailed);
    CountIdle(s.workers, ReportedInconclusive);
  }

  /** The worker that takes a step, if it is one. */
  function Actor(s: State, a: Action): Option<nat> {
    match a
    case Cancel | SeeCancelled | Acquire | EndLoop | Return => None
    case Spawn => if s.dispatcher.Acquired? then Some(s.dispatcher.next) else None
    case Probe(i, _) => Some(i)
    case Check(i) => Some(i)
    case Report(i) => Some(i)
    case CountStatus(i) => Some(i)
    case Sum(i) => Some(i)
    case LoadPassed(i) => Some(i)
    case LoadFailed(i) => Some(i)
    case LoadInconclusive(i) => Some(i)
    case Publish(i) => Some(i)
    case Release(i) => Some(i)
    case Finish(i) => Some(i)
  }

  lemma OnlyActorMoves(s: State, a: Action)
    requires Enabled(s, a)
    ensures Actor(s, a).None? ==> Apply(s, a).workers == s.workers
    ensures Actor(s, a).Some? ==>
      var i := Actor(s, a).value;
      i < |s.workers| && Apply(s, a).workers == s.workers[i := Apply(s, a).workers[i]]
  {
  }

  /** Each counter moves with the worker that moves it. */
  lemma CountersShift(s: State, a: Action)
    requires Enabled(s, a) && Actor(s, a).Some? && Actor(s, a).value < |s.workers|
    requires WorkerOk(s.workers[Actor(s, a).value], s.cancelled)
    ensures var r, v, w := Apply(s, a), s.workers[Actor(s, a).value], Apply(s, a).workers[Actor(s, a).value];
            && Shift(s.slots - Ind(s.dispatcher.Acquired?), r.slots - Ind(r.dispatcher.Acquired?), Holding, v, w)
            && Shift(s.group, r.group, Live, v, w)
            && Shift(s.pool.completed, r.pool.completed, IsSummed, v, w)
  {
  }

  lemma StatusCountersShift(s: State, a: Action)
    requires Enabled(s, a) && Actor(s, a).Some? && Actor(s, a).value < |s.workers|
    requires WorkerOk(s.workers[Actor(s, a).value], s.cancelled)
    ensures var r, v, w := Apply(s, a), s.workers[Actor(s, a).value], Apply(s, a).workers[Actor(s, a).value];
            && Shift(s.pool.passed, r.pool.passed, CountedPassed, v, w)
            && Shift(s.pool.failed, r.pool.failed, CountedFailed, v, w)
            && Shift(s.pool.inconclusive, r.pool.inconclusive, CountedInconclusive, v, w)
            && Shift(s.cycle.passed, r.cycle.passed, ReportedPassed, v, w)
            && Shift(s.cycle.failed, r.cycle.failed, ReportedFailed, v, w)
            && Shift(s.cycle.inconclusive, r.cycle.inconclusive, ReportedInconclusive, v, w)
  {
    StatusesDiffer();
  }

  /** The tallies are kept by every step. */
  lemma ApplyTallied(s: State, a: Action)
    requires Inv(s) && Enabled(s, a)
    ensures Tallied(Apply(s, a))
  {
    if Actor(s, a).Some? {
      WorkerTallied(s, a);
    } else {
      DispatcherTallied(s, a);
    }
  }

  lemma WorkerTallied(s: State, a: Action)
    requires Inv(s) && Enabled(s, a) && Actor(s, a).Some?
    ensures Tallied(Apply(s, a))
  {
    hide Enabled, Apply, Count, Tallied, Shift;
    OnlyActorMoves(s, a);
    CountersShift(s, a);
    StatusCountersShift(s, a);
    TallyStep(s, Actor(s, a).value, Apply(s, a).workers[Actor(s, a).value], Apply(s, a));
  }

  lemma DispatcherTallied(s: State, a: Action)
    requires Inv(s) && Enabled(s, a) && Actor(s, a).None?
    ensures Tallied(Apply(s, a))
  {
    hide Count;
  }

  lemma ApplyDispatch(s: State, a: Action)
    requires Inv(s) && Enabled(s, a)
    ensures DispatchOk(Apply(s, a)) && Apply(s, a).slots <= Apply(s, a).concurrency
  {
    hide Tallied, WorkerOk, SeenOk, CountedAs;
  }

  lemma ActorOk(s: State, a: Action)
    requires Enabled(s, a) && Actor(s, a).Some? && Actor(s, a).value < |s.workers|
    requires WorkerOk(s.workers[Actor(s, a).value], s.cancelled) && SeenOk(s.workers[Actor(s, a).value], s.pool)
    ensures var w := Apply(s, a).workers[Actor(s, a).value];
            WorkerOk(w, Apply(s, a).cancelled) && SeenOk(w, Apply(s, a).pool)
  {
  }

  lemma OthersOk(s: State, a: Action, w: Worker)
    requires Enabled(s, a) && WorkerOk(w, s.cancelled) && SeenOk(w, s.pool)
    ensures WorkerOk(w, Apply(s, a).cancelled) && SeenOk(w, Apply(s, a).pool)
  {
  }

  lemma ApplyInv(s: State, a: Action)
    requires Inv(s) && Enabled(s, a)
    ensures Inv(Apply(s, a))
  {
    hide Enabled, Apply, Tallied, DispatchOk, WorkerOk, SeenOk;
    ApplyTallied(s, a);
    ApplyDispatch(s, a);
    OnlyActorMoves(s, a);
    var r := Apply(s, a);
    forall i | 0 <= i < |r.workers| ensures WorkerOk(r.workers[i], r.cancelled) && SeenOk(r.workers[i], r.pool) {
      if Actor(s, a) == Some(i) {
        ActorOk(s, a);
      } else {
        OthersOk(s, a, s.workers[i]);
      }
    }
  }

  lemma {:induction false} ExecutionInv(ss: seq<State>, acts: seq<Action>, n: nat, concurrency: nat, t: nat)
    requires Execution(ss, acts, n, concurrency) && t < |ss|
    ensures Inv(ss[t]) && |ss[t].workers| == n && ss[t].concurrency == concurrency
  {
    if t == 0 {
      InitialInv(ss[0], n, concurrency);
    } else {
      ExecutionInv(ss, acts, n, concurrency, t - 1);
      assert Enabled(ss[t-1], acts[t-1]);
      ApplyInv(ss[t-1], acts[t-1]);
    }
  }

  // ----- what every interleaving guarantees -----

  /** At most Concurrency workers hold the semaphore, each candidate is dispatched at most once and in
      order, and no worker is live once the pool has returned. */
  lemma PoolIsSafe(ss: seq<State>, acts: seq<Action>, n: nat, concurrency: nat, t: nat)
    requires Execution(ss, acts, n, concurrency) && t < |ss|
    ensures Count(ss[t].workers, Holding) <= concurrency
    ensures |ss[t].dispatched| <= n && forall u :: 0 <= u < |ss[t].dispatched| ==> ss[t].dispatched[u] == u
    ensures ss[t].dispatcher.Left? ==> forall i :: 0 <= i < |ss[t].workers| ==> !Live(ss[t].workers[i])
  {
    ExecutionInv(ss, acts, n, concurrency, t);
    CountNone(ss[t].workers, Live);
  }

  /** On the way out, or gone, without having reported, counted or summed anything. */
  predicate Silent(w: Worker) {
    && (w.stage.Skipped? || w.stage.Released? || w.stage.Gone?)
    && !w.reported && !w.counted && !w.summed
  }

  lemma SilentStays(s: State, a: Action, i: nat)
    requires Enabled(s, a) && i < |s.workers| && Silent(s.workers[i])
    ensures Silent(Apply(s, a).workers[i]) && a !in {Report(i), CountStatus(i), Sum(i), Publish(i)}
  {
  }

  /** A worker whose probe was over after the context had been cancelled says nothing: it is never reported
      and never counted, and publishes no event. */
  lemma {:induction false} AbortedIsSilent(ss: seq<State>, acts: seq<Action>, n: nat, concurrency: nat,
                                           t: nat, i: nat, u: nat)
    requires Execution(ss, acts, n, concurrency) && t < u < |ss| && acts[t] == Check(i) && ss[t].cancelled
    ensures i < |ss[u].workers| && Silent(ss[u].workers[i])
    ensures u < |acts| ==> acts[u] !in {Report(i), CountStatus(i), Sum(i), Publish(i)}
  {
    hide Silent, Apply, Enabled;
    assert Enabled(ss[u-1], acts[u-1]) && ss[u] == Apply(ss[u-1], acts[u-1]);
    if u == t + 1 {
      ExecutionInv(ss, acts, n, concurrency, t);
      CheckSkips(ss[t], i);
    } else {
      AbortedIsSilent(ss, acts, n, concurrency, t, i, u - 1);
      SilentStays(ss[u-1], acts[u-1], i);
    }
    if u < |acts| {
      assert Enabled(ss[u], acts[u]);
      SilentStays(ss[u], acts[u], i);
    }
  }

  lemma CheckSkips(s: State, i: nat)
    requires Inv(s) && Enabled(s, Check(i)) && s.cancelled
    ensures i < |s.workers| && Silent(Apply(s, Check(i)).workers[i])
  {
    assert WorkerOk(s.workers[i], s.cancelled);
  }

  /** So what is reported, counted or published comes from probes that were over before: the worker passed
      its check, at a step at which the context was not cancelled. */
  lemma {:induction false} ReportedWasChecked(ss: seq<State>, acts: seq<Action>, n: nat, concurrency: nat,
                                              u: nat, i: nat) returns (t: nat)
    requires Execution(ss, acts, n, concurrency) && u < |ss| && i < |ss[u].workers|
    requires ss[u].workers[i].reported || ss[u].workers[i].stage == Checked
    ensures t < u && acts[t] == Check(i) && !ss[t].cancelled
  {
    hide Apply, Enabled;
    assert u > 0;
    var s, a := ss[u-1], acts[u-1];
    assert Enabled(s, a) && ss[u] == Apply(s, a);
    ReportedBefore(s, a, i);
    if a == Check(i) && !s.cancelled {
      t := u - 1;
    } else {
      t := ReportedWasChecked(ss, acts, n, concurrency, u - 1, i);
    }
  }

  lemma ReportedBefore(s: State, a: Action, i: nat)
    requires Enabled(s, a) && i < |s.workers|
    requires Apply(s, a).workers[i].reported || Apply(s, a).workers[i].stage == Checked
    ensures s.workers[i].reported || s.workers[i].stage == Checked || (a == Check(i) && !s.cancelled)
  {
  }

  /** Once the dispatcher has seen the cancellation, no further candidate is started and the pool returns
      false. */
  lemma {:induction false} CancelledDispatchStops(ss: seq<State>, acts: seq<Action>, n: nat, concurrency: nat,
                                                  t: nat, u: nat)
    requires Execution(ss, acts, n, concurrency) && t < u < |ss| && acts[t] == SeeCancelled
    ensures ss[u].dispatched == ss[t].dispatched && (ss[u].dispatcher in {Leaving(false), Left(false)})
  {
    hide Enabled, Apply;
    var s, a := ss[u-1], acts[u-1];
    assert Enabled(s, a) && ss[u] == Apply(s, a);
    if u > t + 1 {
      CancelledDispatchStops(ss, acts, n, concurrency, t, u - 1);
    }
    LeavingStays(s, a);
  }

  lemma LeavingStays(s: State, a: Action)
    requires Enabled(s, a)
    requires a == SeeCancelled || s.dispatcher in {Leaving(false), Left(false)}
    ensures Apply(s, a).dispatched == s.dispatched && (Apply(s, a).dispatcher in {Leaving(false), Left(false)})
  {
  }

  /** A cancelled context stays cancelled. */
  lemma {:induction false} CancelLasts(ss: seq<State>, acts: seq<Action>, n: nat, concurrency: nat, t: nat, u: nat)
    requires Execution(ss, acts, n, concurrency) && t < u < |ss| && (acts[t] == Cancel || ss[t].cancelled)
    ensures ss[u].cancelled
  {
    assert Enabled(ss[u-1], acts[u-1]) && ss[u] == Apply(ss[u-1], acts[u-1]);
    if u > t + 1 {
      CancelLasts(ss, acts, n, concurrency, t, u - 1);
    }
  }

  /** A step that a live worker can take. */
  function NextAction(s: State, i: nat): Action
    requires i < |s.workers|
  {
    match s.workers[i].stage
    case Waiting => Spawn
    case Started => Probe(i, FAILED)
    case Ran => Check(i)
    case Checked => Report(i)
    case Reported => CountStatus(i)
    case Counted => Sum(i)
    case Summed => LoadPassed(i)
    case SawPassed => LoadFailed(i)
    case SawFailed => LoadInconclusive(i)
    case SawInconclusive => Publish(i)
    case Published => Release(i)
    case Skipped => Release(i)
    case Released => Finish(i)
    case Gone => Finish(i)
  }

  lemma LiveWorkerMoves(s: State, i: nat)
    requires Inv(s) && i < |s.workers| && Live(s.workers[i])
    ensures Enabled(s, NextAction(s, i)) && NextAction(s, i) != Cancel
  {
    hide WorkerOk, SeenOk, DispatchOk;
    CountNone(s.workers, Live);
    CountNone(s.workers, Holding);
  }

  /** A pool with a slot is never stuck: until it has returned, the dispatcher or some worker can go on
      without the help of a cancellation. */
  lemma NeverStuck(ss: seq<State>, acts: seq<Action>, n: nat, concurrency: nat, t: nat) returns (a: Action)
    requires Execution(ss, acts, n, concurrency) && concurrency >= 1 && t < |ss| && !ss[t].dispatcher.Left?
    ensures a != Cancel && Enabled(ss[t], a)
  {
    hide NextAction, WorkerOk, SeenOk;
    ExecutionInv(ss, acts, n, concurrency, t);
    var s := ss[t];
    CountNone(s.workers, Live);
    CountNone(s.workers, Holding);
    if s.dispatcher.Acquired? {
      a := Spawn;
    } else if s.dispatcher.Selecting? && s.dispatcher.next >= |s.workers| {
      a := EndLoop;
    } else if s.dispatcher.Selecting? && s.slots < s.concurrency {
      a := Acquire;
    } else if s.dispatcher.Leaving? && s.group == 0 {
      a := Return;
    } else {
      var i: nat :| i < |s.workers| && Live(s.workers[i]);
      LiveWorkerMoves(s, i);
      a := NextAction(s, i);
    }
  }

  predicate AllStatusesKnown(ws: seq<Worker>) {
    forall i :: 0 <= i < |ws| ==> Known(ws[i].status)
  }

  predicate AllKnown(s: State) {
    forall i :: 0 <= i < |s.workers| && s.workers[i].counted ==> Known(s.workers[i].status)
  }

  /** An uncancelled pool reports counts that sum to exactly the number of candidates, if and only if
      every probe returned one of the three statuses. */
  lemma UncancelledCounts(ss: seq<State>, acts: seq<Action>, n: nat, concurrency: nat, t: nat)
    requires Execution(ss, acts, n, concurrency) && t < |ss|
    requires ss[t].dispatcher == Left(true) && !ss[t].cancelled
    ensures var c := ss[t].cycle;
            c.passed + c.failed + c.inconclusive == n <==> AllStatusesKnown(ss[t].workers)
  {
    var s := ss[t];
    ExecutionInv(ss, acts, n, concurrency, t);
    CountNone(s.workers, Live);
    KnownSplit(s.workers);
    forall i | 0 <= i < n ensures s.workers[i].reported {
      assert !Live(s.workers[i]) && WorkerOk(s.workers[i], false);
    }
    CountImplies(s.workers, ReportedKnown, Everyone);
    CountEveryone(s.workers);
  }

  predicate Everyone(w: Worker) { true }

  lemma {:induction false} CountEveryone(ws: seq<Worker>)
    ensures Count(ws, Everyone) == |ws|
  {
    if ws != [] {
      CountEveryone(ws[..|ws|-1]);
    }
  }

  // ----- one event for each completed probe -----

  predicate HasPublished(w: Worker) {
    w.stage.Published? || ((w.stage.Released? || w.stage.Gone?) && w.summed)
  }

  lemma PublishShifts(s: State, a: Action)
    requires Inv(s) && Enabled(s, a)
    ensures |Apply(s, a).events| + Count(s.workers, HasPublished) ==
            |s.events| + Count(Apply(s, a).workers, HasPublished)
  {
    hide Tallied, DispatchOk, SeenOk, Count, CountedAs;
    OnlyActorMoves(s, a);
    if Actor(s, a).Some? {
      var i := Actor(s, a).value;
      assert WorkerOk(s.workers[i], s.cancelled);
      CountUpdate(s.workers, i, Apply(s, a).workers[i], HasPublished);
    }
  }

  lemma {:induction false} EventsTally(ss: seq<State>, acts: seq<Action>, n: nat, concurrency: nat, t: nat)
    requires Execution(ss, acts, n, concurrency) && t < |ss|
    ensures |ss[t].events| == Count(ss[t].workers, HasPublished)
  {
    hide Apply, Enabled, Inv;
    if t == 0 {
      CountIdle(ss[0].workers, HasPublished);
    } else {
      EventsTally(ss, acts, n, concurrency, t - 1);
      ExecutionInv(ss, acts, n, concurrency, t - 1);
      assert Enabled(ss[t-1], acts[t-1]) && ss[t] == Apply(ss[t-1], acts[t-1]);
      PublishShifts(ss[t-1], acts[t-1]);
    }
  }

  /** A pool that has returned, cancelled or not, has published one event for each completed probe; if it
      was not cancelled, one for each candidate. */
  lemma OneEventEach(ss: seq<State>, acts: seq<Action>, n: nat, concurrency: nat, t: nat)
    requires Execution(ss, acts, n, concurrency) && t < |ss| && ss[t].dispatcher.Left?
    ensures |ss[t].events| == ss[t].pool.completed
    ensures !ss[t].cancelled ==> ss[t].pool.completed == n
  {
    hide SeenOk;
    var s := ss[t];
    ExecutionInv(ss, acts, n, concurrency, t);
    EventsTally(ss, acts, n, concurrency, t);
    CountNone(s.workers, Live);
    forall i | 0 <= i < n ensures HasPublished(s.workers[i]) == IsSummed(s.workers[i]) {
      assert !Live(s.workers[i]) && WorkerOk(s.workers[i], s.cancelled);
    }
    CountImplies(s.workers, HasPublished, IsSummed);
    if !s.cancelled {
      forall i | 0 <= i < n ensures IsSummed(s.workers[i]) {
        assert !Live(s.workers[i]) && WorkerOk(s.workers[i], s.cancelled);
      }
      CountImplies(s.workers, IsSummed, Everyone);
      CountEveryone(s.workers);
    }
  }

  // ----- progress events -----

  predicate EventOk(m: Metrics, total: nat) {
    m.completed <= m.passed + m.failed + m.inconclusive <= total
  }

  predicate SumOk(w: Worker, total: nat) {
    6 <= Progress(w.stage) <= 9 ==> EventOk(w.atSum, total)
  }

  /** When a worker is summed, as many workers as it counts have moved a status counter. */
  predicate SumsOk(s: State) {
    && (forall i :: 0 <= i < |s.workers| ==> SumOk(s.workers[i], |s.workers|))
    && (forall e :: 0 <= e < |s.events| ==> EventOk(s.events[e], |s.workers|))
  }

  lemma PoolCounters(s: State)
    requires Inv(s)
    ensures s.pool.passed + s.pool.failed + s.pool.inconclusive <= |s.workers|
    ensures AllKnown(s) ==> s.pool.completed <= s.pool.passed + s.pool.failed + s.pool.inconclusive
  {
    KnownSplit(s.workers);
    if AllKnown(s) {
      forall i | 0 <= i < |s.workers| ensures IsSummed(s.workers[i]) ==> CountedKnown(s.workers[i]) {
        assert WorkerOk(s.workers[i], s.cancelled);
      }
      CountImplies(s.workers, IsSummed, CountedKnown);
    }
  }

  lemma PublishSums(s: State, i: nat)
    requires Inv(s) && Enabled(s, Publish(i)) && SumsOk(s)
    ensures SumsOk(Apply(s, Publish(i)))
  {
    hide Tallied, Count, DispatchOk, WorkerOk;
    assert SeenOk(s.workers[i], s.pool) && EventOk(s.workers[i].atSum, |s.workers|);
    PoolCounters(s);
  }

  lemma OtherSums(s: State, a: Action)
    requires Enabled(s, a) && SumsOk(s) && !a.Publish? && EventOk(Apply(s, a).pool, |s.workers|)
    ensures SumsOk(Apply(s, a))
  {
    hide CountedAs, WorkerOk;
  }

  lemma ApplySums(s: State, a: Action)
    requires Inv(s) && Enabled(s, a) && SumsOk(s) && AllKnown(Apply(s, a))
    ensures SumsOk(Apply(s, a))
  {
    hide Inv, Enabled, Apply, SumsOk, AllKnown;
    ApplyInv(s, a);
    PoolCounters(Apply(s, a));
    if a.Publish? {
      PublishSums(s, a.i);
    } else {
      OtherSums(s, a);
    }
  }

  lemma KnownBefore(s: State, a: Action)
    requires Inv(s) && Enabled(s, a) && AllKnown(Apply(s, a))
    ensures AllKnown(s)
  {
    var r := Apply(s, a);
    forall i | 0 <= i < |s.workers| && s.workers[i].counted ensures Known(s.workers[i].status) {
      assert WorkerOk(s.workers[i], s.cancelled);
      assert r.workers[i].counted && r.workers[i].status == s.workers[i].status;
    }
  }

  /** Every progress event has Completed <= Passed + Failed + Inconclusive <= Total, as long as every
      counted probe returned one of the three statuses. */
  lemma {:induction false} EventsOk(ss: seq<State>, acts: seq<Action>, n: nat, concurrency: nat, t: nat)
    requires Execution(ss, acts, n, concurrency) && t < |ss| && AllKnown(ss[t])
    ensures SumsOk(ss[t])
  {
    if t > 0 {
      ExecutionInv(ss, acts, n, concurrency, t - 1);
      assert Enabled(ss[t-1], acts[t-1]);
      KnownBefore(ss[t-1], acts[t-1]);
      EventsOk(ss, acts, n, concurrency, t - 1);
      ApplySums(ss[t-1], acts[t-1]);
    }
  }

  // ----- which statuses make all events right -----

  /** What each probe of a run returns. */
  ghost predicate Returns(acts: seq<Action>, statuses: seq<Bytes>) {
    forall t :: 0 <= t < |acts| && acts[t].Probe? ==>
      acts[t].i < |statuses| && acts[t].status == statuses[acts[t].i]
  }

  predicate HasStatus(w: Worker) {
    !w.stage.Waiting? && !w.stage.Started?
  }

  lemma {:induction false} StatusesReturned(ss: seq<State>, acts: seq<Action>, statuses: seq<Bytes>, concurrency: nat,
                                            t: nat)
    requires Execution(ss, acts, |statuses|, concurrency) && Returns(acts, statuses) && t < |ss|
    ensures |ss[t].workers| == |statuses|
    ensures forall i :: 0 <= i < |statuses| && HasStatus(ss[t].workers[i]) ==> ss[t].workers[i].status == statuses[i]
  {
    if t > 0 {
      StatusesReturned(ss, acts, statuses, concurrency, t - 1);
      assert Enabled(ss[t-1], acts[t-1]);
    }
  }

  /** A list of actions leads from one state to another. */
  ghost predicate Leads(s: State, acts: seq<Action>, r: State)
    decreases |acts|
  {
    if acts == [] then s == r else Enabled(s, acts[0]) && Leads(Apply(s, acts[0]), acts[1..], r)
  }

  lemma {:induction false} LeadsOn(s: State, a: seq<Action>, m: State, b: seq<Action>, r: State)
    requires Leads(s, a, m) && Leads(m, b, r)
    ensures Leads(s, a + b, r)
    decreases |a|
  {
    hide Enabled, Apply;
    if a == [] {
      assert a + b == b;
    } else {
      LeadsOn(Apply(s, a[0]), a[1..], m, b, r);
      assert (a + b)[1..] == a[1..] + b;
    }
  }

  lemma LeadsOne(s: State, a: Action)
    requires Enabled(s, a)
    ensures Leads(s, [a], Apply(s, a))
  {
    hide Enabled, Apply;
    assert [a][1..] == [];
  }

  ghost predicate Chained(ss: seq<State>, acts: seq<Action>) {
    |ss| == |acts| + 1 && forall t :: 0 <= t < |acts| ==> Enabled(ss[t], acts[t]) && ss[t+1] == Apply(ss[t], acts[t])
  }

  lemma {:induction false} LeadsChained(s: State, acts: seq<Action>, r: State) returns (ss: seq<State>)
    requires Leads(s, acts, r)
    ensures Chained(ss, acts) && ss[0] == s && ss[|acts|] == r
    decreases |acts|
  {
    hide Enabled, Apply;
    if acts == [] {
      ss := [s];
    } else {
      var tail := LeadsChained(Apply(s, acts[0]), acts[1..], r);
      ss := [s] + tail;
      forall t | 0 <= t < |acts| ensures Enabled(ss[t], acts[t]) && ss[t+1] == Apply(ss[t], acts[t]) {
        if t > 0 {
          assert Enabled(tail[t-1], acts[1..][t-1]);
        }
      }
    }
  }

  /** The first `k` candidates were probed one after the other, and nobody is under way. */
  ghost predicate Between(s: State, k: nat) {
    && k <= |s.workers| && s.dispatcher == Selecting(k) && s.slots == 0 && s.group == 0
    && !s.cancelled && s.concurrency >= 1 && forall j :: k <= j < |s.workers| ==> s.workers[j] == IDLE
  }

  /** A candidate's probe: it gets the slot. */
  lemma ProbeStarts(s: State, k: nat)
    requires Between(s, k) && k < |s.workers|
    ensures Leads(s, [Acquire, Spawn],
                  s.(workers := s.workers[k := IDLE.(stage := Started)], dispatcher := Selecting(k + 1), slots := 1,
                     group := 1, dispatched := s.dispatched + [k]))
  {
    hide Leads;
    var s1 := s.(dispatcher := Acquired(k), slots := 1);
    var s2 := s.(workers := s.workers[k := IDLE.(stage := Started)], dispatcher := Selecting(k + 1), slots := 1,
                 group := 1, dispatched := s.dispatched + [k]);
    assert Apply(s, Acquire) == s1;
    assert Apply(s1, Spawn) == s2;
    LeadsOne(s, Acquire);
    LeadsOne(s1, Spawn);
    LeadsOn(s, [Acquire], s1, [Spawn], s2);
    assert [Acquire] + [Spawn] == [Acquire, Spawn];
  }

  /** It runs, and the context is not cancelled. */
  lemma ProbeRuns(s: State, k: nat, status: Bytes)
    requires k < |s.workers| && s.workers[k] == IDLE.(stage := Started) && !s.cancelled
    ensures Leads(s, [Probe(k, status), Check(k)],
                  s.(workers := s.workers[k := IDLE.(stage := Checked, status := status)]))
  {
    hide Leads;
    var s1 := s.(workers := s.workers[k := IDLE.(stage := Ran, status := status)]);
    var s2 := s.(workers := s.workers[k := IDLE.(stage := Checked, status := status)]);
    assert Apply(s, Probe(k, status)) == s1;
    assert Apply(s1, Check(k)) == s2;
    LeadsOne(s, Probe(k, status));
    LeadsOne(s1, Check(k));
    LeadsOn(s, [Probe(k, status)], s1, [Check(k)], s2);
    assert [Probe(k, status)] + [Check(k)] == [Probe(k, status), Check(k)];
  }

  function Added(m: Metrics, status: Bytes): Metrics {
    CountedAs(m, status).(completed := m.completed + 1)
  }

  /** Its status is reported and counted. */
  lemma ProbeReports(s: State, k: nat, w: Worker)
    requires k < |s.workers| && s.workers[k] == w && w == IDLE.(stage := Checked, status := w.status)
    ensures Leads(s, [Report(k), CountStatus(k)],
                  s.(workers := s.workers[k := w.(stage := Counted, reported := true, counted := true)],
                     pool := CountedAs(s.pool, w.status), cycle := CountedAs(s.cycle, w.status)))
  {
    hide Leads, CountedAs;
    var s1 := s.(workers := s.workers[k := w.(stage := Reported, reported := true)],
                 cycle := CountedAs(s.cycle, w.status));
    var s2 := s1.(workers := s.workers[k := w.(stage := Counted, reported := true, counted := true)],
                  pool := CountedAs(s.pool, w.status));
    assert Apply(s, Report(k)) == s1;
    assert Apply(s1, CountStatus(k)) == s2;
    LeadsOne(s, Report(k));
    LeadsOne(s1, CountStatus(k));
    LeadsOn(s, [Report(k)], s1, [CountStatus(k)], s2);
    assert [Report(k)] + [CountStatus(k)] == [Report(k), CountStatus(k)];
  }

  /** It is summed. */
  lemma ProbeSums(s: State, k: nat, w: Worker)
    requires k < |s.workers| && s.workers[k] == w && w.stage == Counted
    ensures var pool := s.pool.(completed := s.pool.completed + 1);
            var seen := Metrics(pool.completed, 0, 0, 0);
            Leads(s, [Sum(k)],
                  s.(workers := s.workers[k := w.(stage := Summed, summed := true, atSum := pool, seen := seen)],
                     pool := pool))
  {
    hide Leads;
    LeadsOne(s, Sum(k));
  }

  /** Its event: nothing moves while it reads the counters. */
  lemma ProbeReads(s: State, k: nat, w: Worker)
    requires k < |s.workers| && s.workers[k] == w && w.stage == Summed
    requires w.seen == Metrics(s.pool.completed, 0, 0, 0)
    ensures var m := s.pool;
            Leads(s, [LoadPassed(k), LoadFailed(k)],
                  s.(workers := s.workers[k := w.(stage := SawFailed,
                                                  seen := Metrics(m.completed, m.passed, m.failed, 0))]))
  {
    hide Leads;
    var m := s.pool;
    var w1 := w.(stage := SawPassed, seen := Metrics(m.completed, m.passed, 0, 0));
    var w2 := w.(stage := SawFailed, seen := Metrics(m.completed, m.passed, m.failed, 0));
    var s1, s2 := s.(workers := s.workers[k := w1]), s.(workers := s.workers[k := w2]);
    assert Apply(s, LoadPassed(k)) == s1;
    assert Apply(s1, LoadFailed(k)) == s2;
    LeadsOne(s, LoadPassed(k));
    LeadsOne(s1, LoadFailed(k));
    LeadsOn(s, [LoadPassed(k)], s1, [LoadFailed(k)], s2);
    assert [LoadPassed(k)] + [LoadFailed(k)] == [LoadPassed(k), LoadFailed(k)];
  }

  lemma ProbeTells(s: State, k: nat, w: Worker)
    requires k < |s.workers| && s.workers[k] == w && w.stage == SawFailed
    requires w.seen == s.pool.(inconclusive := 0)
    ensures Leads(s, [LoadInconclusive(k), Publish(k)],
                  s.(workers := s.workers[k := w.(stage := Published, seen := s.pool)], events := s.events + [s.pool]))
  {
    hide Leads;
    var w1, w2 := w.(stage := SawInconclusive, seen := s.pool), w.(stage := Published, seen := s.pool);
    var s1 := s.(workers := s.workers[k := w1]);
    var s2 := s.(workers := s.workers[k := w2], events := s.events + [s.pool]);
    assert Apply(s, LoadInconclusive(k)) == s1;
    assert Apply(s1, Publish(k)) == s2;
    LeadsOne(s, LoadInconclusive(k));
    LeadsOne(s1, Publish(k));
    LeadsOn(s, [LoadInconclusive(k)], s1, [Publish(k)], s2);
    assert [LoadInconclusive(k)] + [Publish(k)] == [LoadInconclusive(k), Publish(k)];
  }

  /** Its way out. */
  lemma ProbeEnds(s: State, k: nat, w: Worker)
    requires k < |s.workers| && s.workers[k] == w && w.stage == Published && s.slots == 1 && s.group == 1
    ensures Leads(s, [Release(k), Finish(k)],
                  s.(workers := s.workers[k := w.(stage := Gone)], slots := 0, group := 0))
  {
    hide Leads;
    var s1 := s.(workers := s.workers[k := w.(stage := Released)], slots := 0);
    assert Apply(s, Release(k)) == s1;
    assert Apply(s1, Finish(k)) == s.(workers := s.workers[k := w.(stage := Gone)], slots := 0, group := 0);
    LeadsOne(s, Release(k));
    LeadsOne(s1, Finish(k));
    LeadsOn(s, [Release(k)], s1, [Finish(k)], Apply(s1, Finish(k)));
    assert [Release(k)] + [Finish(k)] == [Release(k), Finish(k)];
  }

  function ProbeActions(k: nat, status: Bytes): seq<Action> {
    [Acquire, Spawn] + [Probe(k, status), Check(k)] + [Report(k), CountStatus(k)] + [Sum(k)]
    + [LoadPassed(k), LoadFailed(k)] + [LoadInconclusive(k), Publish(k)] + [Release(k), Finish(k)]
  }

  lemma ProbeAlone(s: State, k: nat, status: Bytes) returns (r: State)
    requires Between(s, k) && k < |s.workers|
    ensures Leads(s, ProbeActions(k, status), r) && Between(r, k + 1) && |r.workers| == |s.workers|
    ensures r.pool == Added(s.pool, status) && r.events == s.events + [r.pool]
  {
    hide Leads, CountedAs;
    var s1 := s.(workers := s.workers[k := IDLE.(stage := Started)], dispatcher := Selecting(k + 1), slots := 1,
                 group := 1, dispatched := s.dispatched + [k]);
    ProbeStarts(s, k);
    var acts := [Acquire, Spawn];
    var w2 := IDLE.(stage := Checked, status := status);
    var s2 := s1.(workers := s1.workers[k := w2]);
    ProbeRuns(s1, k, status);
    LeadsOn(s, acts, s1, [Probe(k, status), Check(k)], s2);
    acts := acts + [Probe(k, status), Check(k)];
    var w3 := w2.(stage := Counted, reported := true, counted := true);
    var s3 := s2.(workers := s2.workers[k := w3], pool := CountedAs(s.pool, status),
                  cycle := CountedAs(s.cycle, status));
    ProbeReports(s2, k, w2);
    LeadsOn(s, acts, s2, [Report(k), CountStatus(k)], s3);
    acts := acts + [Report(k), CountStatus(k)];
    var pool := s3.pool.(completed := s3.pool.completed + 1);
    var w4 := w3.(stage := Summed, summed := true, atSum := pool, seen := Metrics(pool.completed, 0, 0, 0));
    var s4 := s3.(workers := s3.workers[k := w4], pool := pool);
    ProbeSums(s3, k, w3);
    LeadsOn(s, acts, s3, [Sum(k)], s4);
    acts := acts + [Sum(k)];
    var w5 := w4.(stage := SawFailed, seen := Metrics(pool.completed, pool.passed, pool.failed, 0));
    var s5 := s4.(workers := s4.workers[k := w5]);
    ProbeReads(s4, k, w4);
    LeadsOn(s, acts, s4, [LoadPassed(k), LoadFailed(k)], s5);
    acts := acts + [LoadPassed(k), LoadFailed(k)];
    var w6 := w5.(stage := Published, seen := pool);
    var s6 := s5.(workers := s5.workers[k := w6], events := s5.events + [pool]);
    ProbeTells(s5, k, w5);
    LeadsOn(s, acts, s5, [LoadInconclusive(k), Publish(k)], s6);
    acts := acts + [LoadInconclusive(k), Publish(k)];
    r := s6.(workers := s6.workers[k := w6.(stage := Gone)], slots := 0, group := 0);
    ProbeEnds(s6, k, w6);
    LeadsOn(s, acts, s6, [Release(k), Finish(k)], r);
    CountedKeepsCompleted(s.pool, status);
  }

  lemma CountedKeepsCompleted(m: Metrics, status: Bytes)
    ensures CountedAs(m, status).completed == m.completed
  {
  }

  function SumOf(m: Metrics): nat {
    m.passed + m.failed + m.inconclusive
  }

  /** The first candidates probed one after the other: how many were completed, and how many counted. */
  lemma {:induction false} OneByOne(statuses: seq<Bytes>, start: State, k: nat) returns (acts: seq<Action>, s: State)
    requires Between(start, 0) && start.pool == Metrics(0, 0, 0, 0) && |start.workers| == |statuses|
    requires k <= |statuses|
    ensures Leads(start, acts, s) && Returns(acts, statuses) && Between(s, k) && |s.workers| == |statuses|
    ensures s.pool.completed == k && SumOf(s.pool) <= k
    ensures k > 0 && !Known(statuses[k-1]) ==> SumOf(s.pool) < k
    ensures k > 0 ==> s.events != [] && s.events[|s.events|-1] == s.pool
  {
    hide Leads, Between;
    if k == 0 {
      acts, s := [], start;
      LeadsNowhere(s);
    } else {
      var status := statuses[k-1];
      var init, mid := OneByOne(statuses, start, k - 1);
      s := ProbeAlone(mid, k - 1, status);
      acts := init + ProbeActions(k - 1, status);
      LeadsOn(start, init, mid, ProbeActions(k - 1, status), s);
    }
  }

  lemma LeadsNowhere(s: State)
    ensures Leads(s, [], s)
  {
  }

  ghost predicate EventsRight(s: State) {
    forall e :: 0 <= e < |s.events| ==> EventOk(s.events[e], |s.workers|)
  }

  /** All runs of a pool publish events with Completed <= Passed + Failed + Inconclusive <= Total if and
      only if every probe is to return one of the three statuses. */
  lemma EventsOkExactly(statuses: seq<Bytes>, concurrency: nat)
    requires concurrency >= 1
    ensures (forall i :: 0 <= i < |statuses| ==> Known(statuses[i])) <==>
            forall ss, acts :: Execution(ss, acts, |statuses|, concurrency) && Returns(acts, statuses)
              ==> EventsRight(ss[|acts|])
  {
    if forall i :: 0 <= i < |statuses| ==> Known(statuses[i]) {
      forall ss, acts | Execution(ss, acts, |statuses|, concurrency) && Returns(acts, statuses)
        ensures EventsRight(ss[|acts|])
      {
        KnownStatusesRight(ss, acts, statuses, concurrency);
      }
    } else {
      var j :| 0 <= j < |statuses| && !Known(statuses[j]);
      var ss, acts := UnknownStatusWrong(statuses, concurrency, j);
    }
  }

  lemma KnownStatusesRight(ss: seq<State>, acts: seq<Action>, statuses: seq<Bytes>, concurrency: nat)
    requires Execution(ss, acts, |statuses|, concurrency) && Returns(acts, statuses)
    requires forall i :: 0 <= i < |statuses| ==> Known(statuses[i])
    ensures EventsRight(ss[|acts|])
  {
    hide Tallied, DispatchOk, SeenOk, Known;
    var n := |acts|;
    StatusesReturned(ss, acts, statuses, concurrency, n);
    ExecutionInv(ss, acts, |statuses|, concurrency, n);
    var s := ss[n];
    forall i | 0 <= i < |s.workers| && s.workers[i].counted ensures Known(s.workers[i].status) {
      assert WorkerOk(s.workers[i], s.cancelled);
    }
    EventsOk(ss, acts, |statuses|, concurrency, n);
  }

  lemma UnknownStatusWrong(statuses: seq<Bytes>, concurrency: nat, j: nat) returns (ss: seq<State>, acts: seq<Action>)
    requires concurrency >= 1 && j < |statuses| && !Known(statuses[j])
    ensures Execution(ss, acts, |statuses|, concurrency) && Returns(acts, statuses) && !EventsRight(ss[|acts|])
  {
    hide Leads, Enabled, Apply;
    var start := State(concurrency, false, Selecting(0), seq(|statuses|, i => IDLE), 0, 0, Metrics(0, 0, 0, 0),
                       Metrics(0, 0, 0, 0), [], []);
    var s;
    acts, s := OneByOne(statuses, start, j + 1);
    ss := LeadsChained(start, acts, s);
    assert !EventOk(s.events[|s.events|-1], |s.workers|);
  }
}
