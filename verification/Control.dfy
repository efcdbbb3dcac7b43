/** Starting, stopping, pausing and triggering the scheduler, as interleaved steps. A step is what one
    goroutine does between two points where another one can come in: channels of capacity one are
    received from without a lock, and the sections under the scheduler's lock are split at every
    channel operation. */
module Control {
  import opened Base

  // ----- states -----

  /** Where a call of ResetControlState is; it holds the scheduler's lock behind its first step. */
  datatype Reset = Enter | DrainPause | DrainTrigger | Unlock

  /** A goroutine of Start: the loop of Run, the deferred reset, and the two deferred functions that
      clear `running` and close `done`. */
  datatype Phase = Looping | Resetting(at: Reset) | Returned | Cleared | Closed

  datatype Run = Run(phase: Phase, cancelled: bool)

  datatype Sending = Check | TrySend | Drain | Send | Leave

  /** The call that holds the control service's lock, if it takes more than one step. */
  datatype Call =
    | NoCall
    | Starting(at: Reset)
    | Spawning
    | Setting(value: bool, step: Sending)
    | Triggering(checked: bool)

  /** The Stop that took effect. */
  datatype Stopper = NoStop | Cancelling(run: nat) | Awaiting(run: nat) | Draining | Restoring(at: Reset) | Finishing

  datatype State = State(
    running: bool,
    stopping: bool,
    call: Call,
    stopper: Stopper,
    activeOps: nat,
    runs: seq<Run>,
    paused: bool,
    pauseCh: Option<bool>,
    trigger: bool)

  const NEW := State(false, false, NoCall, NoStop, 0, [], false, None, false)

  /** The scheduler's lock is held. */
  predicate RunLocks(s: State, i: nat) {
    i < |s.runs| && s.runs[i].phase.Resetting? && s.runs[i].phase.at != Enter
  }

  predicate CallLocks(s: State) {
    (s.call.Starting? && s.call.at != Enter) || (s.call.Setting? && s.call.step != Check)
  }

  predicate StopLocks(s: State) {
    s.stopper.Restoring? && s.stopper.at != Enter
  }

  ghost predicate Locked(s: State) {
    CallLocks(s) || StopLocks(s) || exists i :: RunLocks(s, i)
  }

  // ----- steps -----

  datatype Action =
    | CancelFromOutside(i: nat)
    | BeginStart(expired: bool)
    | StartReset
    | StartSpawn
    | BeginSet(value: bool)
    | SetStep
    | BeginTrigger
    | TriggerCheck
    | TriggerSend
    | OperationDone
    | BeginStop
    | StopCancel
    | StopAwait
    | StopDrained
    | StopReset
    | StopFinish
    | RunExit(i: nat)
    | RunReset(i: nat)
    | RunClear(i: nat)
    | RunClose(i: nat)
    | ReceivePause(i: nat)
    | ReceiveTrigger(i: nat)

  predicate InPhase(s: State, i: nat, p: Phase) {
    i < |s.runs| && s.runs[i].phase == p
  }

  ghost predicate Enabled(s: State, a: Action) {
    match a
    case CancelFromOutside(i) => i < |s.runs|
    case BeginStart(_) => s.call.NoCall?
    case StartReset => s.call.Starting? && (s.call.at == Enter ==> !Locked(s))
    case StartSpawn => s.call.Spawning?
    case BeginSet(_) => s.call.NoCall?
    case SetStep => s.call.Setting? && (s.call.step == Check ==> !Locked(s))
    case BeginTrigger => s.call.NoCall?
    case TriggerCheck => s.call == Triggering(false) && !Locked(s)
    case TriggerSend => s.call == Triggering(true)
    case OperationDone => s.activeOps > 0
    case BeginStop => s.call.NoCall?
    case StopCancel => s.stopper.Cancelling? && s.stopper.run < |s.runs|
    case StopAwait => s.stopper.Awaiting? && InPhase(s, s.stopper.run, Closed)
    case StopDrained => s.stopper.Draining? && s.activeOps == 0
    case StopReset => s.stopper.Restoring? && (s.stopper.at == Enter ==> !Locked(s))
    case StopFinish => s.stopper.Finishing? && s.call.NoCall?
    case RunExit(i) => InPhase(s, i, Looping) && s.runs[i].cancelled
    case RunReset(i) =>
      i < |s.runs| && s.runs[i].phase.Resetting? && (s.runs[i].phase.at == Enter ==> !Locked(s))
    case RunClear(i) => InPhase(s, i, Returned) && s.call.NoCall?
    case RunClose(i) => InPhase(s, i, Cleared)
    case ReceivePause(i) => InPhase(s, i, Looping) && s.pauseCh.Some?
    case ReceiveTrigger(i) => InPhase(s, i, Looping) && s.trigger
  }

  /** One step of ResetControlState. */
  function ResetStep(s: State, at: Reset): State {
    match at
    case Enter => s.(paused := false)
    case DrainPause => s.(pauseCh := None)
    case DrainTrigger => s.(trigger := false)
    case Unlock => s
  }

  function NextReset(at: Reset): Reset {
    match at
    case Enter => DrainPause
    case DrainPause => DrainTrigger
    case DrainTrigger => Unlock
    case Unlock => Unlock
  }

  /** One step of Pause (`value` is true) or Resume inside the two locks. */
  function SetTo(s: State, value: bool, step: Sending): State {
    match step
    case Check =>
      if s.paused == value then s.(call := NoCall) else s.(paused := value, call := Setting(value, TrySend))
    case TrySend =>
      if s.pauseCh.None? then s.(pauseCh := Some(value), call := Setting(value, Leave))
      else s.(call := Setting(value, Drain))
    case Drain => s.(pauseCh := None, call := Setting(value, Send))
    case Send => s.(pauseCh := if s.pauseCh.None? then Some(value) else s.pauseCh, call := Setting(value, Leave))
    case Leave => s.(activeOps := s.activeOps + 1, call := NoCall)
  }

  function Moved(s: State, i: nat, p: Phase): State
    requires i < |s.runs|
  {
    s.(runs := s.runs[i := s.runs[i].(phase := p)])
  }

  function Apply(s: State, a: Action): State
    requires Enabled(s, a)
  {
    match a
    case CancelFromOutside(i) => s.(runs := s.runs[i := s.runs[i].(cancelled := true)])
    case BeginStart(expired) => if expired || s.running || s.stopping then s else s.(call := Starting(Enter))
    case StartReset =>
      ResetStep(s, s.call.at).(call := if s.call.at == Unlock then Spawning else Starting(NextReset(s.call.at)))
    case StartSpawn => s.(running := true, runs := s.runs + [Run(Looping, false)], call := NoCall)
    case BeginSet(value) => if !s.running || s.stopping then s else s.(call := Setting(value, Check))
    case SetStep => SetTo(s, s.call.value, s.call.step)
    case BeginTrigger => if !s.running || s.stopping then s else s.(call := Triggering(false))
    case TriggerCheck => if s.paused then s.(call := NoCall) else s.(call := Triggering(true))
    case TriggerSend => s.(trigger := true, call := NoCall)
    case OperationDone => s.(activeOps := s.activeOps - 1)
    case BeginStop =>
      if !s.running || s.stopping || s.runs == [] then s
      else s.(stopping := true, running := false, stopper := Cancelling(|s.runs| - 1))
    case StopCancel =>
      s.(runs := s.runs[s.stopper.run := s.runs[s.stopper.run].(cancelled := true)], stopper := Awaiting(s.stopper.run))
    case StopAwait => s.(stopper := Draining)
    case StopDrained => s.(stopper := Restoring(Enter))
    case StopReset =>
      var at := s.stopper.at;
      ResetStep(s, at).(stopper := if at == Unlock then Finishing else Restoring(NextReset(at)))
    case StopFinish => s.(stopping := false, stopper := NoStop)
    case RunExit(i) => Moved(s, i, Resetting(Enter))
    case RunReset(i) =>
      var at := s.runs[i].phase.at;
      Moved(ResetStep(s, at), i, if at == Unlock then Returned else Resetting(NextReset(at)))
    case RunClear(i) => Moved(s.(running := false), i, Cleared)
    case RunClose(i) => Moved(s, i, Closed)
    case ReceivePause(i) => s.(pauseCh := None)
    case ReceiveTrigger(i) => s.(trigger := false)
  }

  ghost predicate Execution(ss: seq<State>, acts: seq<Action>) {
    && |ss| == |acts| + 1 && ss[0] == NEW
    && forall t :: 0 <= t < |acts| ==> Enabled(ss[t], acts[t]) && ss[t+1] == Apply(ss[t], acts[t])
  }

  // ----- invariants -----

  /** Run has not returned. */
  predicate Live(r: Run) {
    r.phase.Looping? || r.phase.Resetting?
  }

  predicate PastClear(r: Run) {
    r.phase.Cleared? || r.phase.Closed?
  }

  /** Only the newest goroutine can be inside Run, and only while it is running or being stopped. */
  predicate RunsOk(s: State) {
    && (forall i :: 0 <= i < |s.runs| - 1 ==> PastClear(s.runs[i]))
    && (s.running ==> s.runs != [] && !PastClear(s.runs[|s.runs|-1]) && !s.stopping)
    && (s.running ==> !s.call.Starting? && !s.call.Spawning?)
    && (!s.running && !s.stopping && s.runs != [] ==> PastClear(s.runs[|s.runs|-1]))
  }

  /** While a Stop is under way no other call gets past its check. */
  predicate StopOk(s: State) {
    && (s.stopping <==> !s.stopper.NoStop?)
    && (s.stopping ==> s.call.NoCall? && !s.running && s.runs != [])
    && (s.stopper.Cancelling? || s.stopper.Awaiting? ==> s.stopper.run == |s.runs| - 1)
    && (s.stopper.Draining? || s.stopper.Restoring? || s.stopper.Finishing? ==>
          s.runs != [] && s.runs[|s.runs|-1].phase.Closed?)
    && (s.stopper.Restoring? || s.stopper.Finishing? ==> s.activeOps == 0)
    && (s.call.Starting? || s.call.Spawning? ==> !s.running && !s.stopping)
  }

  /** The scheduler's lock has one holder. */
  ghost predicate LockOk(s: State) {
    && !(CallLocks(s) && StopLocks(s))
    && (forall i :: RunLocks(s, i) ==> !CallLocks(s) && !StopLocks(s))
  }

  /** What the pause channel holds: nothing or the current value, while the lock is free; on the way
      from one value to the other, nothing or the value before. */
  predicate ChannelOk(s: State) {
    if s.call.Setting? && s.call.step != Check then
      && s.paused == s.call.value
      && (s.call.step == TrySend || s.call.step == Drain ==> s.pauseCh == None || s.pauseCh == Some(!s.paused))
      && (s.call.step == Send ==> s.pauseCh == None)
      && (s.call.step == Leave ==> s.pauseCh == None || s.pauseCh == Some(s.paused))
    else if AnyReset(s, DrainPause) then !s.paused
    else s.pauseCh == None || s.pauseCh == Some(s.paused)
  }

  /** A reset is at this step. */
  predicate AnyReset(s: State, at: Reset) {
    (s.call == Starting(at)) || s.stopper == Restoring(at)
    || (s.runs != [] && s.runs[|s.runs|-1].phase == Resetting(at))
  }

  /** What a reset has cleared stays cleared until it is over; behind that of Stop nothing comes in. */
  predicate ResetOk(s: State) {
    && (AnyReset(s, DrainTrigger) || AnyReset(s, Unlock) ==> !s.paused && s.pauseCh == None)
    && (s.stopper == Restoring(Unlock) || s.stopper.Finishing? ==> !s.paused && s.pauseCh == None && !s.trigger)
  }

  ghost predicate Inv(s: State) {
    RunsOk(s) && StopOk(s) && LockOk(s) && ChannelOk(s) && ResetOk(s)
  }

  lemma StepRuns(s: State, a: Action)
    requires RunsOk(s) && StopOk(s) && Enabled(s, a)
    ensures RunsOk(Apply(s, a))
  {
    hide Locked, SetTo, ResetStep;
    StepKeepsFlags(s, a);
  }

  /** The parts of a step that only touch the pause state and the channels. */
  lemma StepKeepsFlags(s: State, a: Action)
    requires Enabled(s, a)
    ensures a.SetStep? ==> SetTo(s, s.call.value, s.call.step).runs == s.runs && Apply(s, a).running == s.running
                           && Apply(s, a).stopping == s.stopping && Apply(s, a).stopper == s.stopper
                           && (Apply(s, a).call.NoCall? || Apply(s, a).call.Setting?)
    ensures forall at :: ResetStep(s, at).runs == s.runs && ResetStep(s, at).running == s.running
                         && ResetStep(s, at).stopping == s.stopping && ResetStep(s, at).call == s.call
                         && ResetStep(s, at).stopper == s.stopper && ResetStep(s, at).activeOps == s.activeOps
  {
  }

  lemma StepStop(s: State, a: Action)
    requires RunsOk(s) && StopOk(s) && Enabled(s, a)
    ensures StopOk(Apply(s, a))
  {
    hide Locked, SetTo, ResetStep;
    StepKeepsFlags(s, a);
  }

  lemma ApplyRuns(s: State, a: Action)
    requires Inv(s) && Enabled(s, a)
    ensures RunsOk(Apply(s, a)) && StopOk(Apply(s, a))
  {
    hide Enabled, Apply, RunsOk, StopOk;
    StepRuns(s, a);
    StepStop(s, a);
  }

  lemma OlderRunsUnlocked(s: State, i: nat)
    requires RunsOk(s) && RunLocks(s, i)
    ensures i == |s.runs| - 1
  {
  }

  predicate IsReset(a: Action) {
    a.StartReset? || a.StopReset? || a.RunReset?
  }

  lemma ResetLock(s: State, a: Action)
    requires Inv(s) && Enabled(s, a) && IsReset(a)
    ensures LockOk(Apply(s, a))
  {
    hide ChannelOk, ResetOk, RunsOk;
    ApplyRuns(s, a);
    var r := Apply(s, a);
    forall i | RunLocks(r, i) ensures !CallLocks(r) && !StopLocks(r) {
      OlderRunsUnlocked(r, i);
      assert RunLocks(s, i) || !Locked(s);
    }
  }

  lemma OtherLock(s: State, a: Action)
    requires Inv(s) && Enabled(s, a) && !IsReset(a)
    ensures LockOk(Apply(s, a))
  {
    hide ChannelOk, ResetOk, RunsOk, ResetStep;
    var r := Apply(s, a);
    forall i | RunLocks(r, i) ensures !CallLocks(r) && !StopLocks(r) {
      assert RunLocks(s, i) || !Locked(s);
    }
  }

  lemma ApplyLock(s: State, a: Action)
    requires Inv(s) && Enabled(s, a)
    ensures LockOk(Apply(s, a))
  {
    hide Inv, Enabled, Apply, LockOk;
    if IsReset(a) {
      ResetLock(s, a);
    } else {
      OtherLock(s, a);
    }
  }

  /** With the lock free, no reset is behind its first step and no value is being sent. */
  lemma UnlockedQuiet(s: State)
    requires !Locked(s)
    ensures !CallLocks(s) && !StopLocks(s)
    ensures !AnyReset(s, DrainPause) && !AnyReset(s, DrainTrigger) && !AnyReset(s, Unlock)
  {
    if s.runs != [] {
      var last := s.runs[|s.runs|-1];
      assert RunLocks(s, |s.runs| - 1) <==> last.phase.Resetting? && last.phase.at != Enter;
    }
  }

  /** A reset behind its first step has the lock to itself. */
  lemma ResetAlone(s: State, at: Reset)
    requires LockOk(s) && AnyReset(s, at) && at != Enter
    ensures !(s.call.Setting? && s.call.step != Check)
    ensures forall other :: other != Enter && AnyReset(s, other) ==> other == at
  {
    if s.runs != [] {
      var last := s.runs[|s.runs|-1];
      assert RunLocks(s, |s.runs| - 1) <==> last.phase.Resetting? && last.phase.at != Enter;
    }
  }

  lemma SetChannel(s: State, a: Action)
    requires Inv(s) && Enabled(s, a) && (a.SetStep? || a.BeginSet?)
    ensures ChannelOk(Apply(s, a)) && ResetOk(Apply(s, a))
  {
    hide RunsOk, LockOk, CallLocks, RunLocks;
    if !Locked(s) {
      UnlockedQuiet(s);
    }
    if AnyReset(s, DrainPause) { ResetAlone(s, DrainPause); }
    if AnyReset(s, DrainTrigger) { ResetAlone(s, DrainTrigger); }
    if AnyReset(s, Unlock) { ResetAlone(s, Unlock); }
  }

  lemma ResetChannel(s: State, a: Action)
    requires Inv(s) && Enabled(s, a) && IsReset(a)
    ensures ChannelOk(Apply(s, a))
  {
    if !Locked(s) {
      UnlockedQuiet(s);
    }
    if AnyReset(s, DrainPause) { ResetAlone(s, DrainPause); }
    if AnyReset(s, DrainTrigger) { ResetAlone(s, DrainTrigger); }
    if AnyReset(s, Unlock) { ResetAlone(s, Unlock); }
  }

  lemma ResetResets(s: State, a: Action)
    requires Inv(s) && Enabled(s, a) && IsReset(a)
    ensures ResetOk(Apply(s, a))
  {
    if !Locked(s) {
      UnlockedQuiet(s);
    }
    if AnyReset(s, DrainPause) { ResetAlone(s, DrainPause); }
    if AnyReset(s, DrainTrigger) { ResetAlone(s, DrainTrigger); }
    if AnyReset(s, Unlock) { ResetAlone(s, Unlock); }
  }

  lemma OtherChannel(s: State, a: Action)
    requires Inv(s) && Enabled(s, a) && !IsReset(a) && !a.SetStep? && !a.BeginSet?
    ensures ChannelOk(Apply(s, a)) && ResetOk(Apply(s, a))
  {
    hide LockOk, Locked, SetTo, ResetStep, CallLocks, StopLocks, RunLocks;
  }

  lemma ApplyChannel(s: State, a: Action)
    requires Inv(s) && Enabled(s, a)
    ensures ChannelOk(Apply(s, a)) && ResetOk(Apply(s, a))
  {
    hide Inv, Enabled, Apply, ChannelOk, ResetOk;
    if IsReset(a) {
      ResetChannel(s, a);
      ResetResets(s, a);
    } else if a.SetStep? || a.BeginSet? {
      SetChannel(s, a);
    } else {
      OtherChannel(s, a);
    }
  }

  lemma ApplyInv(s: State, a: Action)
    requires Inv(s) && Enabled(s, a)
    ensures Inv(Apply(s, a))
  {
    ApplyRuns(s, a);
    ApplyLock(s, a);
    ApplyChannel(s, a);
  }

  lemma {:induction false} ExecutionInv(ss: seq<State>, acts: seq<Action>, t: nat)
    requires Execution(ss, acts) && t < |ss|
    ensures Inv(ss[t])
  {
    if t > 0 {
      ExecutionInv(ss, acts, t - 1);
      assert Enabled(ss[t-1], acts[t-1]);
      ApplyInv(ss[t-1], acts[t-1]);
    }
  }

  // ----- what every interleaving guarantees -----

  /** At most one Run is live. */
  lemma OneRunLive(ss: seq<State>, acts: seq<Action>, t: nat, i: nat, j: nat)
    requires Execution(ss, acts) && t < |ss| && i < |ss[t].runs| && j < |ss[t].runs|
    requires Live(ss[t].runs[i]) && Live(ss[t].runs[j])
    ensures i == j
  {
    ExecutionInv(ss, acts, t);
  }

  /** While nobody holds the scheduler's lock, the pause channel is empty or holds the current value. */
  lemma PauseChannelCurrent(ss: seq<State>, acts: seq<Action>, t: nat)
    requires Execution(ss, acts) && t < |ss| && !Locked(ss[t])
    ensures ss[t].pauseCh == None || ss[t].pauseCh == Some(ss[t].paused)
  {
    var s := ss[t];
    ExecutionInv(ss, acts, t);
    assert s.runs != [] && s.runs[|s.runs|-1].phase == Resetting(DrainPause) ==> RunLocks(s, |s.runs| - 1);
  }

  /** The Stop that took effect gets to its last section only when no Run is live, nothing is paused
      and both channels are empty, and it leaves the service neither running nor stopping. */
  lemma StopLeavesIdle(ss: seq<State>, acts: seq<Action>, t: nat)
    requires Execution(ss, acts) && t < |acts| && acts[t] == StopFinish
    ensures var s := ss[t+1];
            && (forall i :: 0 <= i < |s.runs| ==> s.runs[i].phase.Closed? || s.runs[i].phase.Cleared?)
            && !s.paused && s.pauseCh == None && !s.trigger && s.activeOps == 0 && !s.running && !s.stopping
  {
    ExecutionInv(ss, acts, t);
    assert Enabled(ss[t], acts[t]);
  }

  /** A Start that is let through finds no Run live and a clean state when it spawns the next one. */
  lemma StartSpawnsAlone(ss: seq<State>, acts: seq<Action>, t: nat)
    requires Execution(ss, acts) && t < |acts| && acts[t] == StartSpawn
    ensures forall i :: 0 <= i < |ss[t].runs| ==> !Live(ss[t].runs[i])
  {
    ExecutionInv(ss, acts, t);
    assert Enabled(ss[t], acts[t]);
  }

  // ----- nothing is lost -----

  /** The steps that empty the trigger channel: a run receives from it, or a reset drains it. */
  predicate TakesTrigger(s: State, a: Action) {
    || a.ReceiveTrigger?
    || (a.StartReset? && s.call == Starting(DrainTrigger))
    || (a.StopReset? && s.stopper == Restoring(DrainTrigger))
    || (a.RunReset? && InPhase(s, a.i, Resetting(DrainTrigger)))
  }

  /** A trigger that was accepted, and not yet taken. */
  ghost predicate Awaited(ss: seq<State>, acts: seq<Action>, t: nat, u: nat)
    requires |ss| == |acts| + 1
  {
    t < u < |ss| && acts[t] == TriggerSend && forall v :: t < v < u ==> !TakesTrigger(ss[v], acts[v])
  }

  lemma TriggerStep(s: State, a: Action)
    requires Enabled(s, a)
    ensures Apply(s, a).trigger <==> a == TriggerSend || (s.trigger && !TakesTrigger(s, a))
  {
  }

  /** An accepted trigger is pending from the moment it was accepted until a run receives it or a reset
      drains it, and at no other time is one pending. */
  lemma {:induction false} TriggerPendingExactly(ss: seq<State>, acts: seq<Action>, u: nat)
    requires Execution(ss, acts) && u < |ss|
    ensures ss[u].trigger <==> exists t: nat :: Awaited(ss, acts, t, u)
  {
    hide Enabled, Apply, TakesTrigger;
    if u > 0 {
      var s, a := ss[u-1], acts[u-1];
      TriggerPendingExactly(ss, acts, u - 1);
      assert Enabled(s, a) && ss[u] == Apply(s, a);
      TriggerStep(s, a);
      forall t: nat ensures Awaited(ss, acts, t, u) <==>
                            (t == u - 1 && a == TriggerSend) || (Awaited(ss, acts, t, u - 1) && !TakesTrigger(s, a)) {
      }
      if a == TriggerSend {
        assert Awaited(ss, acts, u - 1, u);
      } else if s.trigger && !TakesTrigger(s, a) {
        var t: nat :| Awaited(ss, acts, t, u - 1);
        assert Awaited(ss, acts, t, u);
      }
    }
  }

  /** No reset goes on while a call hands a value over: both hold the scheduler's lock. */
  lemma NoResetWhileSetting(s: State, a: Action)
    requires Inv(s) && Enabled(s, a) && IsReset(a)
    ensures !(s.call.Setting? && s.call.step != Check)
  {
    hide ChannelOk, ResetOk, RunsOk;
    if a.RunReset? {
      assert RunLocks(s, a.i) <==> s.runs[a.i].phase.at != Enter;
    }
  }

  /** The step that ends in handing over a value has put it into the channel, and only a run takes it out. */
  lemma SetStepLeaves(s: State, a: Action, value: bool)
    requires Inv(s) && Enabled(s, a) && Apply(s, a).call == Setting(value, Leave)
    ensures Apply(s, a).paused == value
    ensures s.call != Setting(value, Leave) ==> Apply(s, a).pauseCh == Some(value)
    ensures s.call == Setting(value, Leave) && s.pauseCh == Some(value) && !a.ReceivePause? ==>
              Apply(s, a).pauseCh == Some(value)
  {
    hide LockOk, Locked, RunsOk, StopOk, ResetOk, AnyReset, Inv;
    assert ChannelOk(s) by { InvChannel(s); }
    if IsReset(a) {
      ResetLeavesCall(s, a);
      NoResetWhileSetting(s, a);
    }
  }

  lemma InvChannel(s: State)
    requires Inv(s)
    ensures ChannelOk(s)
  {
  }

  lemma ResetLeavesCall(s: State, a: Action)
    requires Enabled(s, a) && IsReset(a) && Apply(s, a).call.Setting?
    ensures s.call == Apply(s, a).call
  {
  }

  /** Pause and Resume leave only after their value has got into the channel, and from there nothing but a
      run takes it: when they are about to leave, the value is set, and is in the channel or was received. */
  lemma {:induction false} SetReachesRun(ss: seq<State>, acts: seq<Action>, t: nat, value: bool) returns (u: nat)
    requires Execution(ss, acts) && t < |ss| && ss[t].call == Setting(value, Leave)
    ensures ss[t].paused == value
    ensures ss[t].pauseCh == Some(value)
            || (u < t && acts[u].ReceivePause? && ss[u].pauseCh == Some(value) && ss[u].call == Setting(value, Leave))
  {
    hide Enabled, Apply, Inv;
    u := 0;
    if t > 0 {
      var s, a := ss[t-1], acts[t-1];
      assert Enabled(s, a) && ss[t] == Apply(s, a);
      ExecutionInv(ss, acts, t - 1);
      SetStepLeaves(s, a, value);
      if s.call == Setting(value, Leave) {
        u := SetReachesRun(ss, acts, t - 1, value);
        if s.pauseCh == Some(value) && a.ReceivePause? {
          u := t - 1;
        }
      }
    }
  }

  // ----- nobody waits for ever -----

  /** The run that a Stop waits for has been told to end. */
  lemma {:induction false} AwaitedIsCancelled(ss: seq<State>, acts: seq<Action>, t: nat)
    requires Execution(ss, acts) && t < |ss| && ss[t].stopper.Awaiting?
    ensures ss[t].stopper.run < |ss[t].runs| && ss[t].runs[ss[t].stopper.run].cancelled
  {
    hide Inv;
    hide Enabled, Apply;
    if t > 0 {
      assert Enabled(ss[t-1], acts[t-1]) && ss[t] == Apply(ss[t-1], acts[t-1]);
      if ss[t-1].stopper.Awaiting? {
        AwaitedIsCancelled(ss, acts, t - 1);
      }
      StaysCancelled(ss[t-1], acts[t-1]);
    }
  }

  predicate WaitsForCancelled(s: State) {
    s.stopper.Awaiting? ==> s.stopper.run < |s.runs| && s.runs[s.stopper.run].cancelled
  }

  lemma StaysCancelled(s: State, a: Action)
    requires Enabled(s, a) && WaitsForCancelled(s)
    ensures WaitsForCancelled(Apply(s, a))
  {
    hide Locked, SetTo, ResetStep;
    StepKeepsFlags(s, a);
  }

  /** A step that goes on with what is under way: no call from outside begins with it. */
  predicate GoesOn(a: Action) {
    !a.CancelFromOutside? && !a.BeginStart? && !a.BeginSet? && !a.BeginTrigger? && !a.BeginStop?
  }

  /** No interleaving deadlocks: while a call of the control service or a Stop is under way, one of the
      goroutines can go on. */
  lemma NeverStuck(ss: seq<State>, acts: seq<Action>, t: nat) returns (a: Action)
    requires Execution(ss, acts) && t < |ss| && (!ss[t].call.NoCall? || ss[t].stopping)
    ensures GoesOn(a) && Enabled(ss[t], a)
  {
    hide ChannelOk, ResetOk;
    ExecutionInv(ss, acts, t);
    var s := ss[t];
    if exists i :: RunLocks(s, i) {
      var i :| RunLocks(s, i);
      a := RunReset(i);
    } else if s.call.Starting? {
      a := StartReset;
    } else if s.call.Spawning? {
      a := StartSpawn;
    } else if s.call.Setting? {
      a := SetStep;
    } else if s.call == Triggering(false) {
      a := TriggerCheck;
    } else if s.call == Triggering(true) {
      a := TriggerSend;
    } else if s.stopper.Cancelling? {
      a := StopCancel;
    } else if s.stopper.Awaiting? {
      AwaitedIsCancelled(ss, acts, t);
      a := AwaitedGoesOn(s, |s.runs| - 1);
    } else if s.stopper.Draining? {
      a := if s.activeOps == 0 then StopDrained else OperationDone;
    } else if s.stopper.Restoring? {
      a := StopReset;
    } else {
      a := StopFinish;
    }
  }

  lemma AwaitedGoesOn(s: State, i: nat) returns (a: Action)
    requires i < |s.runs| && s.call.NoCall? && !Locked(s) && s.stopper == Awaiting(i) && s.runs[i].cancelled
    ensures GoesOn(a) && Enabled(s, a)
  {
    match s.runs[i].phase
    case Looping => a := RunExit(i);
    case Resetting(_) => a := RunReset(i);
    case Returned => a := RunClear(i);
    case Cleared => a := RunClose(i);
    case Closed => a := StopAwait;
  }

  // ----- what a call does when nobody comes in between -----

  ghost predicate CallRuns(ss: seq<State>, acts: seq<Action>, call: Action, s: State, r: State) {
    && |ss| == |acts| + 1 && acts != [] && acts[0] == call && (forall t :: 1 <= t < |acts| ==> GoesOn(acts[t]))
    && ss[0] == s && ss[|acts|] == r
    && forall t :: 0 <= t < |acts| ==> Enabled(ss[t], acts[t]) && ss[t+1] == Apply(ss[t], acts[t])
  }

  /** The call begins in `s`, and from there what goes on leads to `r`. */
  ghost predicate Leads(s: State, call: Action, r: State) {
    exists ss, acts :: CallRuns(ss, acts, call, s, r)
  }

  lemma Begins(s: State, call: Action)
    requires Enabled(s, call)
    ensures Leads(s, call, Apply(s, call))
  {
    hide Enabled, Apply;
    assert CallRuns([s, Apply(s, call)], [call], call, s, Apply(s, call));
  }

  lemma Continues(s: State, call: Action, r: State, a: Action)
    requires Leads(s, call, r) && Enabled(r, a) && GoesOn(a)
    ensures Leads(s, call, Apply(r, a))
  {
    hide Enabled, Apply, GoesOn;
    var ss, acts :| CallRuns(ss, acts, call, s, r);
    assert CallRuns(ss + [Apply(r, a)], acts + [a], call, s, Apply(r, a));
  }

  /** Nobody is inside a call, a Stop or a reset. */
  ghost predicate Quiet(s: State) {
    s.call.NoCall? && s.stopper.NoStop? && !s.stopping && forall i :: 0 <= i < |s.runs| ==> !s.runs[i].phase.Resetting?
  }

  /** Start spawns a run behind a clean state. */
  lemma StartAlone(s: State)
    requires Quiet(s) && !s.running
    ensures Leads(s, BeginStart(false),
                  s.(running := true, runs := s.runs + [Run(Looping, false)],
                     paused := false, pauseCh := None, trigger := false))
  {
    hide Leads;
    var call := BeginStart(false);
    Begins(s, call);
    var r := s.(call := Starting(Enter));
    Continues(s, call, r, StartReset);
    r := r.(paused := false, call := Starting(DrainPause));
    Continues(s, call, r, StartReset);
    r := r.(pauseCh := None, call := Starting(DrainTrigger));
    Continues(s, call, r, StartReset);
    r := r.(trigger := false, call := Starting(Unlock));
    Continues(s, call, r, StartReset);
    r := r.(call := Spawning);
    Continues(s, call, r, StartSpawn);
  }

  /** Pause and Resume change the value and hand it over, in place of a value nobody has received; told the
      value that is set already, they do nothing. */
  lemma SetAlone(s: State, value: bool)
    requires Quiet(s) && s.running
    ensures Leads(s, BeginSet(value),
                  if s.paused == value then s
                  else s.(paused := value, pauseCh := Some(value), activeOps := s.activeOps + 1))
  {
    hide Leads;
    var call := BeginSet(value);
    Begins(s, call);
    var r := s.(call := Setting(value, Check));
    Continues(s, call, r, SetStep);
    if s.paused != value {
      r := r.(paused := value, call := Setting(value, TrySend));
      Continues(s, call, r, SetStep);
      if s.pauseCh.Some? {
        r := r.(call := Setting(value, Drain));
        Continues(s, call, r, SetStep);
        r := r.(pauseCh := None, call := Setting(value, Send));
        Continues(s, call, r, SetStep);
      }
      r := r.(pauseCh := Some(value), call := Setting(value, Leave));
      Continues(s, call, r, SetStep);
      assert Apply(r, SetStep) == s.(paused := value, pauseCh := Some(value), activeOps := s.activeOps + 1);
    } else {
      assert Apply(r, SetStep) == s;
    }
  }

  /** Trigger leaves one trigger pending, unless the scheduler is paused. */
  lemma TriggerAlone(s: State)
    requires Quiet(s) && s.running
    ensures Leads(s, BeginTrigger, if s.paused then s else s.(trigger := true))
  {
    hide Leads;
    Begins(s, BeginTrigger);
    var r := s.(call := Triggering(false));
    Continues(s, BeginTrigger, r, TriggerCheck);
    if !s.paused {
      r := r.(call := Triggering(true));
      Continues(s, BeginTrigger, r, TriggerSend);
      assert Apply(r, TriggerSend) == s.(trigger := true);
    } else {
      assert Apply(r, TriggerCheck) == s;
    }
  }

  /** A reset of the only run that is under way finds the scheduler's lock free. */
  lemma ResetUnlocked(s: State, r: State, last: nat)
    requires Quiet(s) && last == |s.runs| - 1 && r.call.NoCall? && !StopLocks(r)
    requires |r.runs| == |s.runs| && (forall i :: 0 <= i < last ==> r.runs[i] == s.runs[i])
    requires !RunLocks(r, last)
    ensures !Locked(r)
  {
  }

  function Restored(s: State): State {
    s.(paused := false, pauseCh := None, trigger := false)
  }

  /** The deferred reset of a run. */
  lemma RunResets(s: State, call: Action, r0: State, i: nat)
    requires i < |r0.runs| && r0.runs[i].phase == Resetting(Enter) && !Locked(r0) && Leads(s, call, r0)
    ensures Leads(s, call, Moved(Restored(r0), i, Returned))
  {
    hide Leads, Locked;
    Continues(s, call, r0, RunReset(i));
    var r := Moved(r0.(paused := false), i, Resetting(DrainPause));
    Continues(s, call, r, RunReset(i));
    r := Moved(r.(pauseCh := None), i, Resetting(DrainTrigger));
    Continues(s, call, r, RunReset(i));
    r := Moved(r.(trigger := false), i, Resetting(Unlock));
    Continues(s, call, r, RunReset(i));
    assert Apply(r, RunReset(i)) == Moved(Restored(r0), i, Returned);
  }

  /** Its two deferred functions. */
  lemma RunCloses(s: State, call: Action, r0: State, i: nat)
    requires i < |r0.runs| && r0.runs[i].phase == Returned && r0.call.NoCall? && Leads(s, call, r0)
    ensures Leads(s, call, Moved(r0.(running := false), i, Closed))
  {
    hide Leads, Locked;
    Continues(s, call, r0, RunClear(i));
    var r := Moved(r0.(running := false), i, Cleared);
    Continues(s, call, r, RunClose(i));
    assert Apply(r, RunClose(i)) == Moved(r0.(running := false), i, Closed);
  }

  /** The reset of a Stop, and its end. */
  lemma StopResets(s: State, call: Action, r0: State)
    requires r0.stopper == Restoring(Enter) && !Locked(r0) && r0.call.NoCall? && Leads(s, call, r0)
    ensures Leads(s, call, Restored(r0).(stopping := false, stopper := NoStop))
  {
    hide Leads, Locked;
    Continues(s, call, r0, StopReset);
    var r := r0.(paused := false, stopper := Restoring(DrainPause));
    Continues(s, call, r, StopReset);
    r := r.(pauseCh := None, stopper := Restoring(DrainTrigger));
    Continues(s, call, r, StopReset);
    r := r.(trigger := false, stopper := Restoring(Unlock));
    Continues(s, call, r, StopReset);
    r := r.(stopper := Finishing);
    Continues(s, call, r, StopFinish);
    assert Apply(r, StopFinish) == Restored(r0).(stopping := false, stopper := NoStop);
  }

  /** A Stop up to the moment at which its run leaves the loop. */
  lemma StopCancels(s: State, last: nat)
    requires Quiet(s) && s.running && last == |s.runs| - 1 && s.runs[last].phase.Looping?
    ensures Leads(s, BeginStop,
                  s.(stopping := true, running := false, runs := s.runs[last := Run(Resetting(Enter), true)],
                     stopper := Awaiting(last)))
  {
    hide Leads, Locked;
    Begins(s, BeginStop);
    var r := s.(stopping := true, running := false, stopper := Cancelling(last));
    Continues(s, BeginStop, r, StopCancel);
    r := r.(runs := s.runs[last := Run(Looping, true)], stopper := Awaiting(last));
    Continues(s, BeginStop, r, RunExit(last));
    assert Apply(r, RunExit(last)) == r.(runs := s.runs[last := Run(Resetting(Enter), true)]);
  }

  /** Stop cancels the looping run, waits for its end and leaves everything clean. */
  lemma StopAlone(s: State)
    requires Quiet(s) && s.running && s.activeOps == 0 && s.runs != [] && s.runs[|s.runs|-1].phase.Looping?
    ensures Leads(s, BeginStop,
                  s.(running := false, runs := s.runs[|s.runs|-1 := Run(Closed, true)],
                     paused := false, pauseCh := None, trigger := false))
  {
    hide Leads, Locked;
    var last := |s.runs| - 1;
    StopCancels(s, last);
    var r := s.(stopping := true, running := false, runs := s.runs[last := Run(Resetting(Enter), true)],
                stopper := Awaiting(last));
    ResetUnlocked(s, r, last);
    RunResets(s, BeginStop, r, last);
    r := Moved(Restored(r), last, Returned);
    RunCloses(s, BeginStop, r, last);
    r := Moved(r.(running := false), last, Closed);
    Continues(s, BeginStop, r, StopAwait);
    r := r.(stopper := Draining);
    Continues(s, BeginStop, r, StopDrained);
    r := r.(stopper := Restoring(Enter));
    ResetUnlocked(s, r, last);
    StopResets(s, BeginStop, r);
    assert Restored(r).(stopping := false, stopper := NoStop) ==
           s.(running := false, runs := s.runs[last := Run(Closed, true)],
              paused := false, pauseCh := None, trigger := false);
  }
}
