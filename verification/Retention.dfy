/** Retention over whole runs: the absence counters that StartCycle, PutWithTransition and
    FinishCycle keep through the pending sets, against a definition that only looks at the events. */
module Retention {
  import opened Base
  import opened Types
  import opened History
  import opened Policy
  import opened StoreState

  /** A call on the store. The links of a cycle are given in canonical form. */
  datatype Event =
    | Start(present: set<Bytes>)
    | Put(result: Result, claude: Option<ServiceResult>, at: Time)
    | Finish(at: Time)

  function Step(env: Env, st: State, e: Event): (r: State)
    requires ConfigValid(env.config) && HistoriesValid(st)
    ensures HistoriesValid(r)
  {
    match e
    case Start(present) => StartState(st, present)
    case Put(result, claude, now) => PutState(env, st, result, claude, now)
    case Finish(now) => FinishState(env.config, st, now)
  }

  /** The state after a run of a new store. */
  function Run(env: Env, es: seq<Event>): (r: State)
    requires ConfigValid(env.config)
    ensures HistoriesValid(r)
  {
    if es == [] then NEW_STATE else Step(env, Run(env, es[..|es|-1]), es[|es|-1])
  }

  lemma StepKeepsStateOk(env: Env, st: State, e: Event)
    requires EnvOk(env) && StateOk(env, st) && HistoriesValid(st)
    ensures StateOk(env, Step(env, st, e))
  {
    hide RecordOk;
    match e
    case Start(_) =>
    case Put(result, claude, now) => PutKeepsStateOk(env, st, result, claude, now);
    case Finish(now) => FinishKeepsStateOk(env, st, now);
  }

  /** In every reachable store each cached field is what the history of its record gives. */
  lemma {:induction false} RunStateOk(env: Env, es: seq<Event>)
    requires EnvOk(env)
    ensures StateOk(env, Run(env, es))
  {
    if es != [] {
      RunStateOk(env, es[..|es|-1]);
      StepKeepsStateOk(env, Run(env, es[..|es|-1]), es[|es|-1]);
    }
  }

  // ----- what the events alone say -----

  predicate Puts(env: Env, e: Event, k: Bytes) {
    e.Put? && env.canon(e.result.link) == k
  }

  /** Whether the cycle that is under way was started. */
  predicate Started(es: seq<Event>) {
    es != [] && match es[|es|-1]
      case Start(_) => true
      case Put(_, _, _) => Started(es[..|es|-1])
      case Finish(_) => false
  }

  /** Whether a candidate was listed or probed since the last start or finish. */
  predicate Touched(env: Env, es: seq<Event>, k: Bytes) {
    es != [] && match es[|es|-1]
      case Start(present) => k in present
      case Put(_, _, _) => Puts(env, es[|es|-1], k) || Touched(env, es[..|es|-1], k)
      case Finish(_) => false
  }

  /** The number of started cycles that were finished without the candidate since it was created or
      last touched in a finished cycle; nothing if it was never probed, or was missed too often. */
  function Misses(env: Env, es: seq<Event>, k: Bytes): Option<nat> {
    if es == [] then None
    else
      var init, e := es[..|es|-1], es[|es|-1];
      var before := Misses(env, init, k);
      if Puts(env, e, k) then (if before.None? then Some(0) else before)
      else if !e.Finish? || before.None? then before
      else if Touched(env, init, k) then Some(0)
      else if !Started(init) then before
      else if before.value + 1 > env.config.maxAbsentCycles then None
      else Some(before.value + 1)
  }

  /** The state agrees with the events: which records there are, what they count, and what is
      pending in the cycle that is under way. */
  ghost predicate Agrees(env: Env, es: seq<Event>, st: State) {
    && (forall k :: k in st.records <==> Misses(env, es, k).Some?)
    && (forall k :: k in st.records ==> st.records[k].absentCycles == Misses(env, es, k).value)
    && (forall k :: k in st.pendingPresent <==> Touched(env, es, k))
    && st.pendingAbsent == if Started(es) then st.records.Keys - st.pendingPresent else {}
  }

  lemma RecordedKeepsCounter(c: Config, rec: Record, r: Result, m: Sample)
    requires c.weights.Some? && HistValid(rec.history)
    ensures Recorded(c, rec, r, m).absentCycles == rec.absentCycles
  {
  }

  lemma PutAgrees(env: Env, init: seq<Event>, st: State, e: Event)
    requires ConfigValid(env.config) && HistoriesValid(st) && Agrees(env, init, st) && e.Put?
    ensures Agrees(env, init + [e], Step(env, st, e))
  {
    hide Recorded, Completed, SampleFrom;
    var es, after := init + [e], Step(env, st, e);
    assert es[..|es|-1] == init;
    var r := Completed(env, e.result);
    assert r.link == e.result.link by { CompletedKeepsLink(env, e.result); }
    var k0 := env.canon(r.link);
    var rec := if k0 in st.records then st.records[k0] else NewRecord(env.config, k0, r.link);
    RecordedKeepsCounter(env.config, rec, r, SampleFrom(r, e.claude, st.cycleID, e.at));
    assert forall k :: k in st.pendingAbsent ==> Started(init);
    assert after.pendingAbsent == if Started(es) then after.records.Keys - after.pendingPresent else {};
  }

  lemma CompletedKeepsLink(env: Env, r: Result)
    ensures Completed(env, r).link == r.link
  {
  }

  lemma StartAgrees(env: Env, init: seq<Event>, st: State, e: Event)
    requires ConfigValid(env.config) && HistoriesValid(st) && Agrees(env, init, st) && e.Start?
    ensures Agrees(env, init + [e], Step(env, st, e))
  {
    var es := init + [e];
    assert es[..|es|-1] == init;
    assert forall k :: Misses(env, es, k) == Misses(env, init, k);
  }

  lemma FinishAgrees(env: Env, init: seq<Event>, st: State, e: Event)
    requires ConfigValid(env.config) && HistoriesValid(st) && Agrees(env, init, st) && e.Finish?
    ensures Agrees(env, init + [e], Step(env, st, e))
  {
    var es, after := init + [e], Step(env, st, e);
    assert es[..|es|-1] == init;
    forall k
      ensures k in after.records <==> Misses(env, es, k).Some?
      ensures k in after.records ==> after.records[k].absentCycles == Misses(env, es, k).value
    {
      assert k in st.records <==> Misses(env, init, k).Some?;
      assert k in st.pendingPresent <==> Touched(env, init, k);
    }
  }

  /** In every run of a new store the records, their counters and the pending sets are what the
      events say: abandoned cycles leave no trace, and eviction happens at exactly the first
      finish where the misses exceed the limit. */
  lemma {:induction false} RunAgrees(env: Env, es: seq<Event>)
    requires ConfigValid(env.config)
    ensures Agrees(env, es, Run(env, es))
  {
    if es != [] {
      var init, e := es[..|es|-1], es[|es|-1];
      RunAgrees(env, init);
      assert es == init + [e];
      match e
      case Start(_) => StartAgrees(env, init, Run(env, init), e);
      case Put(_, _, _) => PutAgrees(env, init, Run(env, init), e);
      case Finish(_) => FinishAgrees(env, init, Run(env, init), e);
    }
  }

  /** During a started cycle the pending sets are disjoint and cover all records. */
  lemma PendingSetsPartition(env: Env, es: seq<Event>)
    requires ConfigValid(env.config)
    ensures var st := Run(env, es);
            && st.pendingAbsent !! st.pendingPresent && st.pendingAbsent <= st.records.Keys
            && (Started(es) ==> st.records.Keys <= st.pendingAbsent + st.pendingPresent)
  {
    RunAgrees(env, es);
  }

  // ----- abandoned cycles -----

  /** What a run knows about a candidate for the rest of its life. */
  ghost predicate SameOutlook(env: Env, a: seq<Event>, b: seq<Event>, k: Bytes) {
    Misses(env, a, k) == Misses(env, b, k) && Touched(env, a, k) == Touched(env, b, k) && Started(a) == Started(b)
  }

  lemma {:induction false} SameFuture(env: Env, a: seq<Event>, b: seq<Event>, k: Bytes, rest: seq<Event>)
    requires SameOutlook(env, a, b, k)
    ensures SameOutlook(env, a + rest, b + rest, k)
  {
    if rest == [] {
      assert a + rest == a && b + rest == b;
    } else {
      var init := rest[..|rest|-1];
      SameFuture(env, a, b, k, init);
      assert (a + rest)[..|a + rest|-1] == a + init && (b + rest)[..|b + rest|-1] == b + init;
    }
  }

  /** A part of a run without a finish that does not create the candidate. */
  ghost predicate NoFinish(env: Env, es: seq<Event>, k: Bytes, exists0: bool) {
    forall i :: 0 <= i < |es| ==> !es[i].Finish? && (Puts(env, es[i], k) ==> exists0)
  }

  lemma {:induction false} AbandonedKeepsMisses(env: Env, es: seq<Event>, abandoned: seq<Event>, k: Bytes)
    requires NoFinish(env, abandoned, k, Misses(env, es, k).Some?)
    ensures Misses(env, es + abandoned, k) == Misses(env, es, k)
  {
    if abandoned == [] {
      assert es + abandoned == es;
    } else {
      var init, e := abandoned[..|abandoned|-1], abandoned[|abandoned|-1];
      AbandonedKeepsMisses(env, es, init, k);
      assert (es + abandoned)[..|es + abandoned|-1] == es + init;
      assert e == abandoned[|abandoned|-1] && !e.Finish?;
    }
  }

  /** A cycle that was given up, starts and probes alike, can be left out of any run in front of the
      next start: the counters of the candidates it did not create never show it. */
  lemma AbandonedLeavesNoTrace(env: Env, es: seq<Event>, abandoned: seq<Event>, present: set<Bytes>, rest: seq<Event>,
                               k: Bytes)
    requires ConfigValid(env.config) && NoFinish(env, abandoned, k, Misses(env, es, k).Some?)
    ensures var with := Run(env, es + abandoned + [Start(present)] + rest);
            var without := Run(env, es + [Start(present)] + rest);
            && (k in with.records <==> k in without.records)
            && (k in with.records ==> with.records[k].absentCycles == without.records[k].absentCycles)
  {
    var a, b := es + abandoned + [Start(present)], es + [Start(present)];
    AbandonedKeepsMisses(env, es, abandoned, k);
    assert a[..|a|-1] == es + abandoned && b[..|b|-1] == es;
    SameFuture(env, a, b, k, rest);
    RunAgrees(env, a + rest);
    RunAgrees(env, b + rest);
  }

  // ----- eviction -----

  /** The number of started cycles finished in the last part of a run. */
  function FinishedIn(es: seq<Event>, tail: seq<Event>): nat {
    if tail == [] then 0
    else
      var init := tail[..|tail|-1];
      FinishedIn(es, init) + if tail[|tail|-1].Finish? && Started(es + init) then 1 else 0
  }

  /** No event of this part lists or probes the candidate. */
  predicate Quiet(env: Env, tail: seq<Event>, k: Bytes) {
    forall i :: 0 <= i < |tail| ==> !Puts(env, tail[i], k) && (tail[i].Start? ==> k !in tail[i].present)
  }

  lemma {:induction false} QuietUntouched(env: Env, es: seq<Event>, tail: seq<Event>, k: Bytes)
    requires Quiet(env, tail, k) && !Touched(env, es, k)
    ensures !Touched(env, es + tail, k)
  {
    if tail == [] {
      assert es + tail == es;
    } else {
      QuietUntouched(env, es, tail[..|tail|-1], k);
      assert (es + tail)[..|es + tail|-1] == es + tail[..|tail|-1];
      assert !Puts(env, tail[|tail|-1], k);
    }
  }

  lemma {:induction false} QuietMisses(env: Env, es: seq<Event>, tail: seq<Event>, k: Bytes)
    requires Quiet(env, tail, k) && !Touched(env, es, k) && Misses(env, es, k) == Some(0)
    requires env.config.maxAbsentCycles > 0
    ensures Misses(env, es + tail, k) ==
            if FinishedIn(es, tail) <= env.config.maxAbsentCycles then Some(FinishedIn(es, tail)) else None
  {
    if tail == [] {
      assert es + tail == es;
    } else {
      var init := tail[..|tail|-1];
      QuietMisses(env, es, init, k);
      QuietUntouched(env, es, init, k);
      assert (es + tail)[..|es + tail|-1] == es + init;
      assert !Puts(env, tail[|tail|-1], k);
    }
  }

  /** A candidate that was touched in the cycle just finished, and not since: its record counts the
      started cycles finished since then, and is gone once these exceed the limit. */
  lemma EvictedExactly(env: Env, es: seq<Event>, tail: seq<Event>, k: Bytes, now: Time)
    requires ConfigValid(env.config) && k in Run(env, es).records && Touched(env, es, k) && Quiet(env, tail, k)
    ensures var st := Run(env, es + [Finish(now)] + tail);
            var n := FinishedIn(es + [Finish(now)], tail);
            && (k in st.records <==> n <= env.config.maxAbsentCycles)
            && (k in st.records ==> st.records[k].absentCycles == n)
  {
    var begin := es + [Finish(now)];
    assert begin[..|begin|-1] == es;
    RunAgrees(env, es);
    QuietMisses(env, begin, tail, k);
    RunAgrees(env, begin + tail);
  }
}
