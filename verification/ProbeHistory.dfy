/** What the records of a store know, said by the events of its run alone: the probes of a candidate since
    its record was created, of which the history keeps the last ones and the latest result the last one. */
module ProbeHistory {
  import opened Base
  import opened Types
  import opened Score
  import opened History
  import opened Policy
  import opened StoreState
  import opened Retention

  /** A probe, and the number of cycles that were finished before it. */
  datatype Probe = Probe(result: Result, claude: Option<ServiceResult>, at: Time, cycle: nat)

  function Finishes(es: seq<Event>): nat {
    if es == [] then 0 else Finishes(es[..|es|-1]) + if es[|es|-1].Finish? then 1 else 0
  }

  function ProbeOf(e: Event, cycle: nat): Probe
    requires e.Put?
  {
    Probe(e.result, e.claude, e.at, cycle)
  }

  /** The probes of a candidate since its record was created; a record that was evicted starts again. */
  function Probes(env: Env, es: seq<Event>, k: Bytes): seq<Probe> {
    if es == [] then []
    else
      var init, e := es[..|es|-1], es[|es|-1];
      var before := Probes(env, init, k);
      if !Puts(env, e, k) then before
      else (if Misses(env, init, k).None? then [] else before) + [ProbeOf(e, Finishes(init))]
  }

  /** Those of them that the history holds. */
  function Window(env: Env, es: seq<Event>, k: Bytes): seq<Probe>
    requires env.config.historyCapacity > 0
  {
    LastOf(Probes(env, es, k), env.config.historyCapacity)
  }

  function SampleOf(env: Env): Probe -> Sample {
    (p: Probe) => SampleFrom(Completed(env, p.result), p.claude, p.cycle, p.at)
  }

  /** What a latest result takes over from the result of a probe. */
  predicate SameOutcome(l: Result, r: Result) {
    && l.link == r.link && l.status == r.status && l.reason == r.reason && l.category == r.category
    && l.statusCode == r.statusCode && l.latency == r.latency && l.testedAt == r.testedAt && l.attempts == r.attempts
    && l.transportOK == r.transportOK && l.transportLatency == r.transportLatency
    && l.transportEvidenceKnown == r.transportEvidenceKnown && l.jitter == r.jitter
  }

  ghost predicate HistoryAgrees(env: Env, h: Hist, ps: seq<Probe>)
    requires env.config.historyCapacity > 0
  {
    && HistValid(h) && h.capacity == env.config.historyCapacity
    && View(h) == MapSeq(SampleOf(env), LastOf(ps, env.config.historyCapacity))
  }

  ghost predicate RecordAgrees(env: Env, rec: Record, ps: seq<Probe>)
    requires env.config.historyCapacity > 0
  {
    && ps != [] && HistoryAgrees(env, rec.history, ps) && rec.activeLink == ps[|ps|-1].result.link
    && SameOutcome(rec.latest, Completed(env, ps[|ps|-1].result))
  }

  lemma LastOfMapped<T, U>(f: T -> U, s: seq<T>, n: nat)
    ensures LastOf(MapSeq(f, s), n) == MapSeq(f, LastOf(s, n))
  {
  }

  lemma LastOfGrows<T>(s: seq<T>, x: T, n: nat)
    ensures LastOf(LastOf(s, n) + [x], n) == LastOf(s + [x], n)
  {
    LastOfAppended(s, x, [], n);
    assert s + ([x] + []) == s + [x] && LastOf(s + [x], n) + [] == LastOf(s + [x], n);
    if |s| > n {
      assert (s[|s| - n..] + [x])[1..] == (s + [x])[|s| + 1 - n..];
    }
  }

  lemma MappedGrows<T, U>(f: T -> U, s: seq<T>, x: T, n: nat)
    ensures LastOf(MapSeq(f, s) + [f(x)], n) == MapSeq(f, LastOf(s + [x], n))
  {
    hide LastOf;
    MapSeqConcat(f, s, [x]);
    assert MapSeq(f, [x]) == [f(x)];
    LastOfMapped(f, s + [x], n);
  }

  lemma HistoryGrows(env: Env, h: Hist, ps: seq<Probe>, p: Probe)
    requires env.config.historyCapacity > 0 && HistoryAgrees(env, h, ps)
    ensures HistoryAgrees(env, Pushed(h, SampleOf(env)(p)), ps + [p])
  {
    hide Normalized, PushValid, LastOf, View, SampleOf;
    var n := env.config.historyCapacity;
    PushedView(h, SampleOf(env)(p));
    assert Ready(h) == h;
    MappedGrows(SampleOf(env), LastOf(ps, n), p, n);
    LastOfGrows(ps, p, n);
  }

  lemma RecordedAgrees(env: Env, rec: Record, ps: seq<Probe>, p: Probe)
    requires ConfigValid(env.config) && HistoryAgrees(env, rec.history, ps)
    ensures RecordAgrees(env, Recorded(env.config, rec, Completed(env, p.result), SampleOf(env)(p)), ps + [p])
  {
    hide HistoryAgrees, SampleFrom, View, ScoreUnder, LastPassedLatency, PreviouslyPassed, ConsecutiveInconclusive;
    hide NormalStatus, NormalCategory;
    HistoryGrows(env, rec.history, ps, p);
  }

  lemma NewAgrees(env: Env, k: Bytes, link: Bytes)
    requires ConfigValid(env.config)
    ensures HistoryAgrees(env, NewRecord(env.config, k, link).history, [])
  {
  }

  lemma {:induction false} CyclesCounted(env: Env, es: seq<Event>)
    requires ConfigValid(env.config)
    ensures Run(env, es).cycleID == Finishes(es)
  {
    hide PutState;
    if es != [] {
      CyclesCounted(env, es[..|es|-1]);
      var st, e := Run(env, es[..|es|-1]), es[|es|-1];
      if e.Put? {
        PutKeepsCycle(env, st, e.result, e.claude, e.at);
      }
    }
  }

  lemma PutKeepsCycle(env: Env, st: State, r: Result, claude: Option<ServiceResult>, now: Time)
    requires ConfigValid(env.config) && HistoriesValid(st)
    ensures PutState(env, st, r, claude, now).cycleID == st.cycleID
  {
  }

  lemma PutRecord(env: Env, st: State, e: Event, k: Bytes)
    requires ConfigValid(env.config) && HistoriesValid(st) && Puts(env, e, k)
    ensures k in Step(env, st, e).records
    ensures var rec := if k in st.records then st.records[k] else NewRecord(env.config, k, e.result.link);
            Step(env, st, e).records[k] ==
            Recorded(env.config, rec, Completed(env, e.result), SampleOf(env)(ProbeOf(e, st.cycleID)))
  {
    hide Recorded, NewRecord, SampleFrom, Completed;
    CompletedKeepsLink(env, e.result);
  }

  /** Starts, finishes and the probes of other candidates leave what a record knows alone. */
  lemma OtherStep(env: Env, st: State, e: Event, k: Bytes)
    requires ConfigValid(env.config) && HistoriesValid(st) && !Puts(env, e, k) && k in Step(env, st, e).records
    ensures k in st.records
    ensures var r, rec := Step(env, st, e).records[k], st.records[k];
            r.history == rec.history && r.latest == rec.latest && r.activeLink == rec.activeLink
  {
    hide Recorded, NewRecord, SampleFrom, Completed;
    match e
    case Start(_) =>
    case Put(result, _, _) => CompletedKeepsLink(env, result);
    case Finish(_) =>
  }

  lemma PutAgreesRecord(env: Env, st: State, e: Event, k: Bytes, ps: seq<Probe>)
    requires ConfigValid(env.config) && HistoriesValid(st) && Puts(env, e, k)
    requires k in st.records ==> RecordAgrees(env, st.records[k], ps)
    ensures k in Step(env, st, e).records
    ensures RecordAgrees(env, Step(env, st, e).records[k],
                         (if k in st.records then ps else []) + [ProbeOf(e, st.cycleID)])
  {
    hide Step, HistoryAgrees, SameOutcome, Recorded, NewRecord, Completed, SampleOf;
    PutRecord(env, st, e, k);
    if k in st.records {
      RecordedAgrees(env, st.records[k], ps, ProbeOf(e, st.cycleID));
    } else {
      NewAgrees(env, k, e.result.link);
      RecordedAgrees(env, NewRecord(env.config, k, e.result.link), [], ProbeOf(e, st.cycleID));
    }
  }

  /** In every run of a new store the history of a record holds the samples of the last probes since its
      creation, and its latest result is that of the last one. */
  lemma {:induction false} RunRecords(env: Env, es: seq<Event>, k: Bytes)
    requires ConfigValid(env.config) && k in Run(env, es).records
    ensures RecordAgrees(env, Run(env, es).records[k], Probes(env, es, k))
  {
    hide Step, RecordAgrees, Puts;
    if es == [] {
      assert false;
    } else {
      var init, e := es[..|es|-1], es[|es|-1];
      var st := Run(env, init);
      if Puts(env, e, k) {
        RunAgrees(env, init);
        if k in st.records {
          RunRecords(env, init, k);
        }
        PutAgreesRecord(env, st, e, k, Probes(env, init, k));
        CyclesCounted(env, init);
      } else {
        OtherStep(env, st, e, k);
        RunRecords(env, init, k);
        SameAgrees(env, st.records[k], Run(env, es).records[k], Probes(env, init, k));
      }
    }
  }

  lemma SameAgrees(env: Env, a: Record, b: Record, ps: seq<Probe>)
    requires env.config.historyCapacity > 0 && RecordAgrees(env, a, ps)
    requires b.history == a.history && b.latest == a.latest && b.activeLink == a.activeLink
    ensures RecordAgrees(env, b, ps)
  {
  }

  // ----- the last probe -----

  /** The status of a result that says none is read off its flag. */
  function StatusOf(r: Result): Bytes {
    if r.status != "" then r.status else if r.passed then PASSED else FAILED
  }

  function CategoryOf(env: Env, r: Result): Bytes {
    if r.category != "" then r.category else Completed(env, r).category
  }

  /** The last probe of a record is the last one of its candidate in the run. */
  lemma {:induction false} LastProbe(env: Env, es: seq<Event>, k: Bytes) returns (i: nat)
    requires ConfigValid(env.config) && k in Run(env, es).records
    ensures i < |es| && Puts(env, es[i], k) && forall j :: i < j < |es| ==> !Puts(env, es[j], k)
    ensures var ps := Probes(env, es, k); ps != [] && ps[|ps|-1] == ProbeOf(es[i], Finishes(es[..i]))
  {
    hide Step;
    if es == [] {
      assert false;
    } else {
      var init, e := es[..|es|-1], es[|es|-1];
      if Puts(env, e, k) {
        i := |es| - 1;
      } else {
        OtherStep(env, Run(env, init), e, k);
        i := LastProbe(env, init, k);
        assert init[..i] == es[..i];
      }
    }
  }

  /** The probe failed on the way to the target, whichever service was asked for. */
  predicate FailedBefore(env: Env, r: Result) {
    || (r.transportEvidenceKnown && !r.transportOK)
    || (StatusOf(r) == FAILED && !IsTargetSpecific(CategoryOf(env, r)))
  }

  /** What a sample says of a probe. */
  predicate Tells(env: Env, m: Sample, p: Probe) {
    var r := p.result;
    && m.cycleID == p.cycle && m.status == StatusOf(r) && m.category == CategoryOf(env, r)
    && m.statusCode == r.statusCode && m.latency == r.latency && m.transportOK == r.transportOK
    && m.transportLatency == r.transportLatency && m.transportEvidenceKnown == r.transportEvidenceKnown
    && m.jitter == r.jitter && m.testedAt == (if r.testedAt == ZERO_TIME then p.at else r.testedAt)
    && m.attempts == (if r.attempts > 0 then r.attempts else 1)
    && (p.claude.Some? ==>
          ServiceResult(m.claudeStatus, m.claudeCategory, m.claudeLatency) == p.claude.value)
    && (p.claude.None? && FailedBefore(env, r) ==>
          m.claudeStatus == StatusOf(r) && m.claudeCategory == CategoryOf(env, r) && m.claudeLatency == r.latency)
    && (p.claude.None? && !FailedBefore(env, r) ==>
          m.claudeStatus == "" && m.claudeCategory == "" && m.claudeLatency == 0)
  }

  predicate SampleAgrees(m: Sample, l: Result) {
    && m.status == l.status && m.category == l.category && m.statusCode == l.statusCode && m.latency == l.latency
    && m.transportOK == l.transportOK && m.transportLatency == l.transportLatency
    && m.transportEvidenceKnown == l.transportEvidenceKnown && m.jitter == l.jitter
  }

  lemma ProbeTells(env: Env, p: Probe)
    ensures Tells(env, SampleOf(env)(p), p) && SampleAgrees(SampleOf(env)(p), Completed(env, p.result))
  {
  }

  /** The newest sample of a record is that of the candidate's last probe: it agrees with the latest result,
      and says what the probe returned, and how many cycles were finished before it. */
  lemma NewestSampleIsLatest(env: Env, es: seq<Event>, k: Bytes) returns (i: nat)
    requires ConfigValid(env.config) && k in Run(env, es).records
    ensures i < |es| && Puts(env, es[i], k) && forall j :: i < j < |es| ==> !Puts(env, es[j], k)
    ensures var rec := Run(env, es).records[k];
            var v := View(rec.history);
            && v != [] && Tells(env, v[|v|-1], ProbeOf(es[i], Finishes(es[..i])))
            && SampleAgrees(v[|v|-1], rec.latest)
            && rec.activeLink == es[i].result.link
  {
    hide SampleFrom, Completed, SameOutcome, SampleAgrees, Tells;
    RunRecords(env, es, k);
    i := LastProbe(env, es, k);
    var ps := Probes(env, es, k);
    var p := ps[|ps|-1];
    ProbeTells(env, p);
    var rec := Run(env, es).records[k];
    assert View(rec.history)[|View(rec.history)|-1] == SampleOf(env)(p);
    OutcomeAgrees(SampleOf(env)(p), rec.latest, Completed(env, p.result));
  }

  lemma OutcomeAgrees(m: Sample, l: Result, r: Result)
    requires SameOutcome(l, r) && SampleAgrees(m, r)
    ensures SampleAgrees(m, l)
  {
  }

  // ----- what the last probe decides -----

  /** What the last probe makes of the network latency of a candidate: its transport evidence decides; without
      any, a pass or a block by the target shows a working network and any other failure a broken one, and an
      inconclusive probe leaves what was there before. */
  lemma LastProbeLatency(env: Env, es: seq<Event>, k: Bytes) returns (i: nat)
    requires ConfigValid(env.config) && k in Run(env, es).records
    ensures i < |es| && Puts(env, es[i], k) && forall j :: i < j < |es| ==> !Puts(env, es[j], k)
    ensures var r, v := es[i].result, View(Run(env, es).records[k].history);
            var status, blocked := StatusOf(r), IsTargetSpecific(CategoryOf(env, r));
            var latency := LastNetworkHealthyLatency(v);
            && v != []
            && (r.transportEvidenceKnown && !r.transportOK ==> latency == None)
            && (r.transportEvidenceKnown && r.transportOK ==>
                  latency == Some(if r.transportLatency > 0 then r.transportLatency
                                  else if r.latency > 0 then r.latency else 0))
            && (!r.transportEvidenceKnown && (status == PASSED || (status == FAILED && blocked)) ==>
                  latency == Some(if r.latency > 0 then r.latency else 0))
            && (!r.transportEvidenceKnown && status == FAILED && !blocked ==> latency == None)
            && (!r.transportEvidenceKnown && status != PASSED && status != FAILED ==>
                  latency == LastNetworkHealthyLatency(v[..|v|-1]))
  {
    hide SampleFrom, View, RecordAgrees, Run, Completed;
    i := NewestSampleIsLatest(env, es, k);
    StatusesDiffer();
    var v := View(Run(env, es).records[k].history);
    NewestSettles(v);
  }

  lemma NewestSettles(v: seq<Sample>)
    requires v != []
    ensures LastNetworkHealthyLatency(v) == if SettlesNetwork(v[|v|-1]) then NetworkLatency(v[|v|-1])
                                            else LastNetworkHealthyLatency(v[..|v|-1])
  {
    hide NetworkLatency;
  }

  /** What a probe weighs in the claude score: what it said about Claude, or else a failure on the way to
      the target; if it says nothing, as much as a timeout. */
  function ClaudeWeight(env: Env, weights: map<Bytes, real>, p: Probe): real {
    if p.claude.Some? && p.claude.value.status != "" then
      OutcomeWeight(weights, p.claude.value.status, p.claude.value.category)
    else if FailedBefore(env, p.result) then
      OutcomeWeight(weights, StatusOf(p.result), CategoryOf(env, p.result))
    else OutcomeWeight(weights, INCONCLUSIVE, TIMEOUT)
  }

  function ClaudeWeights(env: Env, weights: map<Bytes, real>, ps: seq<Probe>): (ws: seq<real>)
    ensures |ws| == |ps| && forall i :: 0 <= i < |ps| ==> ws[i] == ClaudeWeight(env, weights, ps[i])
  {
    seq(|ps|, i requires 0 <= i < |ps| => ClaudeWeight(env, weights, ps[i]))
  }

  lemma ClaudeShows(env: Env, weights: map<Bytes, real>, p: Probe)
    ensures SampleWeight(weights, "claude", SampleOf(env)(p)) == ClaudeWeight(env, weights, p)
  {
    hide OutcomeWeight, SampleOf;
    ProbeTells(env, p);
    StatusesDiffer();
  }

  /** The claude score of a record is that of the last probes of its candidate. */
  lemma ClaudeScoreOverRuns(env: Env, es: seq<Event>, k: Bytes)
    requires ConfigValid(env.config) && k in Run(env, es).records
    ensures var rec, weights := Run(env, es).records[k], env.config.weights.value;
            HistoryScore(env.config.decayLambda, weights, "claude", View(rec.history)) ==
            ScoreOf(env.config.decayLambda, ClaudeWeights(env, weights, Window(env, es, k)))
  {
    hide SampleOf, SampleWeight, ClaudeWeight, View, ScoreOf, Run, Probes, LastOf;
    RunRecords(env, es, k);
    var v, ps, weights := View(Run(env, es).records[k].history), Window(env, es, k), env.config.weights.value;
    forall i | 0 <= i < |ps| ensures SampleWeight(weights, "claude", v[i]) == ClaudeWeight(env, weights, ps[i]) {
      ClaudeShows(env, weights, ps[i]);
    }
    assert WeightsOf(weights, "claude", v) == ClaudeWeights(env, weights, ps);
  }
}
