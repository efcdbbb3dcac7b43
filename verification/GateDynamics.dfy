/** What the gates do to a candidate as its results come in, under the default policy. */
module GateDynamics {
  import opened Base
  import opened Types
  import opened Score
  import opened History
  import opened Policy
  import opened StoreState
  import opened Retention
  import opened GatesOverRuns

  /** A run of events on a store that is already in use. */
  function RunFrom(env: Env, st: State, es: seq<Event>): (r: State)
    requires ConfigValid(env.config) && HistoriesValid(st)
    ensures HistoriesValid(r)
  {
    if es == [] then st else Step(env, RunFrom(env, st, es[..|es|-1]), es[|es|-1])
  }

  /** How often a candidate was probed. */
  function PutsTo(env: Env, es: seq<Event>, k: Bytes): nat {
    if es == [] then 0
    else PutsTo(env, es[..|es|-1], k) + if Puts(env, es[|es|-1], k) then 1 else 0
  }

  predicate Passes(env: Env, r: Result) {
    Completed(env, r).status == PASSED
  }

  /** A failure of the probe itself, of a category that the default policy weighs at most 0.1. */
  predicate FailsLow(env: Env, r0: Result) {
    var r := Completed(env, r0);
    r.status == FAILED && OutcomeWeight(DEFAULT_WEIGHTS, r.status, r.category) <= 0.1
  }

  /** The probe leaves this status, and a sample with this property. */
  ghost predicate Leaves(env: Env, e: Event, status: Bytes, p: Sample -> bool)
    requires e.Put?
  {
    && Completed(env, e.result).status == status
    && forall id :: p(SampleFrom(Completed(env, e.result), e.claude, id, e.at))
  }

  /** A record after `n` probes in a row that left samples with a property; it may have been evicted and
      created again in between. */
  ghost predicate EndsAfter(st: State, k: Bytes, status: Bytes, p: Sample -> bool, n: nat)
    requires HistoriesValid(st)
  {
    k in st.records ==> RecordEnds(st.records[k], status, p, n)
  }

  ghost predicate RecordEnds(rec: Record, status: Bytes, p: Sample -> bool, n: nat)
    requires HistValid(rec.history)
  {
    EndsIn(p, View(rec.history), n) && (n > 0 ==> rec.history.count > 0 && rec.latest.status == status)
  }

  lemma RecordedEnds(env: Env, rec: Record, r: Result, m: Sample, p: Sample -> bool, n: nat)
    requires ConfigValid(env.config) && HistValid(rec.history) && EndsIn(p, View(rec.history), n) && p(m)
    ensures RecordEnds(Recorded(env.config, rec, r, m), r.status, p, n + 1)
  {
    hide ScoreUnder, LastPassedLatency, PreviouslyPassed, ConsecutiveInconclusive, Normalized;
    PushedEndsIn(p, rec.history, m, n);
    PushedView(rec.history, m);
  }

  lemma PutEnds(env: Env, st: State, k: Bytes, e: Event, status: Bytes, p: Sample -> bool, n: nat)
    requires ConfigValid(env.config) && HistoriesValid(st) && EndsAfter(st, k, status, p, n)
    requires Puts(env, e, k) && Leaves(env, e, status, p)
    ensures EndsAfter(Step(env, st, e), k, status, p, n + 1)
  {
    hide Recorded, Completed, SampleFrom, RecordEnds;
    CompletedKeepsLink(env, e.result);
    var r := Completed(env, e.result);
    var m := SampleFrom(r, e.claude, st.cycleID, e.at);
    var rec := if k in st.records then st.records[k] else NewRecord(env.config, k, r.link);
    assert EndsIn(p, View(rec.history), n) by {
      if k in st.records { assert RecordEnds(rec, status, p, n); }
      EndsOfRecord(rec, status, p, n);
    }
    RecordedEnds(env, rec, r, m, p, n);
  }

  lemma EndsOfRecord(rec: Record, status: Bytes, p: Sample -> bool, n: nat)
    requires HistValid(rec.history) && (RecordEnds(rec, status, p, n) || View(rec.history) == [])
    ensures EndsIn(p, View(rec.history), n)
  {
  }

  /** Starts, finishes and the probes of other candidates leave a record's history and latest result alone. */
  lemma OtherKeepsRecord(env: Env, st: State, k: Bytes, e: Event)
    requires ConfigValid(env.config) && HistoriesValid(st) && !Puts(env, e, k) && k in Step(env, st, e).records
    ensures k in st.records
    ensures Step(env, st, e).records[k].history == st.records[k].history
    ensures Step(env, st, e).records[k].latest == st.records[k].latest
  {
    hide Recorded, Completed, SampleFrom, NewRecord;
    match e
    case Start(_) =>
    case Put(result, _, _) => CompletedKeepsLink(env, result);
    case Finish(_) =>
  }

  lemma {:induction false} RunEnds(env: Env, st: State, k: Bytes, es: seq<Event>, status: Bytes, p: Sample -> bool)
    requires EnvOk(env) && StateOk(env, st) && HistoriesValid(st)
    requires forall i :: 0 <= i < |es| && Puts(env, es[i], k) ==> Leaves(env, es[i], status, p)
    ensures StateOk(env, RunFrom(env, st, es)) && EndsAfter(RunFrom(env, st, es), k, status, p, PutsTo(env, es, k))
  {
    hide Step, StateOk, Leaves, Puts;
    if es != [] {
      var init, e := es[..|es|-1], es[|es|-1];
      RunEnds(env, st, k, init, status, p);
      var mid := RunFrom(env, st, init);
      StepKeepsStateOk(env, mid, e);
      if Puts(env, e, k) {
        PutEnds(env, mid, k, e, status, p, PutsTo(env, init, k));
      } else if k in Step(env, mid, e).records {
        OtherKeepsRecord(env, mid, k, e);
      }
    }
  }

  /** A record that shows four passes last. */
  lemma PassedRecordServable(env: Env, st: State, k: Bytes, rec: Record)
    requires ConfigValid(env.config) && env.config == DEFAULT_CONFIG && RecordOk(env, k, rec)
    requires rec.history.count > 0 && EndsIn(IsPassed, View(rec.history), 4)
    ensures AbsentGate(st, rec).None? ==> ServabilityGate(env.config, st, rec) == Servable
    ensures AbsentGate(st, rec).Some? ==> !IsServable(env.config, st, rec) && !NetworkState(env.config, st, rec).0
  {
    hide ScoreUnder;
    FourPassesReachThreshold(rec.history);
    LastWhereIs(IsConclusive, View(rec.history), rec.history.count - 1);
    StatusesDiffer();
  }

  lemma FailedRecordNotServable(env: Env, st: State, k: Bytes, rec: Record)
    requires ConfigValid(env.config) && env.config == DEFAULT_CONFIG && RecordOk(env, k, rec)
    requires rec.latest.status == FAILED && rec.history.count > 0
    requires EndsIn(IsLowFailure, View(rec.history), 2)
    ensures !IsServable(env.config, st, rec)
  {
    hide ScoreUnder, IsLowFailure;
    TwoFailuresMissThreshold(rec.history);
    StatusesDiffer();
  }

  /** The record is absent: pending as such in the cycle that is under way, or missed before and not touched
      since. */
  predicate PendingOrMissed(st: State, k: Bytes)
    requires k in st.records
  {
    k in st.pendingAbsent || (st.records[k].absentCycles > 0 && k !in st.pendingPresent)
  }

  lemma AbsentGateMeans(env: Env, st: State, k: Bytes)
    requires ConfigValid(env.config) && k in st.records && RecordOk(env, k, st.records[k])
    ensures AbsentGate(st, st.records[k]).Some? <==> PendingOrMissed(st, k)
  {
  }

  /** Any four consecutive passes of a candidate open its gates, whatever state the store was in before, and
      however they are spread over cycles and mixed with the probes of other candidates: from then on, until
      the next probe, it is served exactly while it is not absent. */
  lemma FourPassesOpenGates(env: Env, st: State, k: Bytes, es: seq<Event>)
    requires EnvOk(env) && env.config == DEFAULT_CONFIG && StateOk(env, st) && HistoriesValid(st)
    requires PutsTo(env, es, k) >= 4
    requires forall i :: 0 <= i < |es| && Puts(env, es[i], k) ==> Passes(env, es[i].result)
    ensures var after := RunFrom(env, st, es);
            k in after.records ==>
              (IsServable(env.config, after, after.records[k]) <==> !PendingOrMissed(after, k))
              && (NetworkState(env.config, after, after.records[k]).0 <==> !PendingOrMissed(after, k))
  {
    hide RunFrom, ServabilityGate, RecordOk, NetworkState, AbsentGate, PendingOrMissed;
    forall i | 0 <= i < |es| && Puts(env, es[i], k) ensures Leaves(env, es[i], PASSED, IsPassed) {
      SampleStatus(env, es[i]);
    }
    RunEnds(env, st, k, es, PASSED, IsPassed);
    var after := RunFrom(env, st, es);
    if k in after.records {
      PassedRecordServable(env, after, k, after.records[k]);
      NetworkStateServable(env.config, after, after.records[k]);
      AbsentGateMeans(env, after, k);
    }
  }

  lemma {:induction false} RunContinued(env: Env, before: seq<Event>, es: seq<Event>)
    requires ConfigValid(env.config)
    ensures RunFrom(env, Run(env, before), es) == Run(env, before + es)
  {
    hide Step;
    if es == [] {
      assert before + es == before;
    } else {
      RunContinued(env, before, es[..|es|-1]);
      assert (before + es)[..|before + es|-1] == before + es[..|es|-1];
    }
  }

  /** In any run of a new store, four passes in a row make a candidate servable and network-healthy, unless it
      was neither listed nor probed since the last start or finish of a cycle, and a cycle is under way or it
      was missed before. */
  lemma FourPassesServe(env: Env, before: seq<Event>, es: seq<Event>, k: Bytes)
    requires EnvOk(env) && env.config == DEFAULT_CONFIG && PutsTo(env, es, k) >= 4
    requires forall i :: 0 <= i < |es| && Puts(env, es[i], k) ==> Passes(env, es[i].result)
    ensures var after := Run(env, before + es);
            k in after.records ==>
              (IsServable(env.config, after, after.records[k]) <==> !Absent(env, before + es, k))
              && (NetworkState(env.config, after, after.records[k]).0 <==> !Absent(env, before + es, k))
  {
    hide Passes, PutsTo, RunFrom, IsServable, NetworkState, PendingOrMissed, Absent, RecordOk, AbsentGate;
    var after := Run(env, before + es);
    RunContinued(env, before, es);
    RunStateOk(env, before);
    RunStateOk(env, before + es);
    FourPassesOpenGates(env, Run(env, before), k, es);
    if k in after.records {
      AbsentGateSays(env, before + es, k);
      AbsentGateMeans(env, after, k);
    }
  }

  lemma SampleStatus(env: Env, e: Event)
    requires e.Put?
    ensures var r := Completed(env, e.result);
            && (forall id :: SampleFrom(r, e.claude, id, e.at).status == r.status)
            && (forall id :: SampleFrom(r, e.claude, id, e.at).category == r.category)
  {
  }

  /** Any two consecutive low failures of a candidate close them, present or not. */
  lemma TwoFailuresCloseGates(env: Env, st: State, k: Bytes, es: seq<Event>)
    requires EnvOk(env) && env.config == DEFAULT_CONFIG && StateOk(env, st) && HistoriesValid(st)
    requires PutsTo(env, es, k) >= 2
    requires forall i :: 0 <= i < |es| && Puts(env, es[i], k) ==> FailsLow(env, es[i].result)
    ensures var after := RunFrom(env, st, es);
            k in after.records ==> !IsServable(env.config, after, after.records[k])
  {
    hide RunFrom, ServabilityGate, RecordOk;
    forall i | 0 <= i < |es| && Puts(env, es[i], k) ensures Leaves(env, es[i], FAILED, IsLowFailure) {
      SampleStatus(env, es[i]);
    }
    RunEnds(env, st, k, es, FAILED, IsLowFailure);
    var after := RunFrom(env, st, es);
    if k in after.records {
      FailedRecordNotServable(env, after, k, after.records[k]);
    }
  }
}
