/** Which candidates the gates let through, said by the events of a run alone: who was listed or probed in
    which cycle, and what the probes returned. */
module GatesOverRuns {
  import opened Base
  import opened Types
  import opened Score
  import opened History
  import opened Policy
  import opened StoreState
  import opened Retention
  import opened ProbeHistory
  import opened Ranking

  // ----- presence -----

  /** A candidate is absent when it was neither listed nor probed since the last start or finish of a cycle,
      and a cycle is under way or it was missed before. */
  predicate Absent(env: Env, es: seq<Event>, k: Bytes) {
    !Touched(env, es, k) && (Started(es) || (Misses(env, es, k).Some? && Misses(env, es, k).value > 0))
  }

  lemma AbsentGateSays(env: Env, es: seq<Event>, k: Bytes)
    requires EnvOk(env) && k in Run(env, es).records
    ensures AbsentGate(Run(env, es), Run(env, es).records[k]).Some? <==> Absent(env, es, k)
  {
    hide RecordOk;
    RunAgrees(env, es);
    RunStateOk(env, es);
    OwnKey(env, k, Run(env, es).records[k]);
  }

  lemma OwnKey(env: Env, k: Bytes, rec: Record)
    requires ConfigValid(env.config) && RecordOk(env, k, rec)
    ensures rec.canonicalLink == k
  {
  }

  /** An absent candidate is neither servable nor network-healthy. */
  lemma AbsentNotServed(env: Env, es: seq<Event>, k: Bytes)
    requires EnvOk(env) && k in Run(env, es).records && Absent(env, es, k)
    ensures var st := Run(env, es);
            !IsServable(env.config, st, st.records[k]) && NetworkState(env.config, st, st.records[k]) == (false, false)
  {
    hide AbsentGate;
    AbsentGateSays(env, es, k);
    AbsentGateRefuses(Run(env, es), Run(env, es).records[k]);
  }

  lemma AbsentGateRefuses(st: State, rec: Record)
    ensures AbsentGate(st, rec).Some? ==> !Serves(AbsentGate(st, rec).value)
  {
  }

  // ----- what the probes of the window say -----

  /** The status of a probe, and its category, where the store had to complete it. */
  function StatusIn(env: Env, p: Probe): Bytes {
    StatusOf(p.result)
  }

  function CategoryIn(env: Env, p: Probe): Bytes {
    CategoryOf(env, p.result)
  }

  predicate IsConclusiveProbe(env: Env, p: Probe) {
    StatusIn(env, p) == PASSED || StatusIn(env, p) == FAILED
  }

  /** The probe failed for a reason that lies with the target. */
  predicate IsBlocked(env: Env, p: Probe) {
    StatusIn(env, p) == FAILED && (CategoryIn(env, p) == REGION_BLOCKED || CategoryIn(env, p) == TARGET_DENIED)
  }

  predicate NewestConclusive(env: Env, ps: seq<Probe>, j: nat) {
    && j < |ps| && IsConclusiveProbe(env, ps[j])
    && forall i :: j < i < |ps| ==> !IsConclusiveProbe(env, ps[i])
  }

  function ProbeWeight(env: Env, weights: map<Bytes, real>, p: Probe): real {
    OutcomeWeight(weights, StatusIn(env, p), CategoryIn(env, p))
  }

  function ProbeWeights(env: Env, weights: map<Bytes, real>, ps: seq<Probe>): (ws: seq<real>)
    ensures |ws| == |ps| && forall i :: 0 <= i < |ps| ==> ws[i] == ProbeWeight(env, weights, ps[i])
  {
    seq(|ps|, i requires 0 <= i < |ps| => ProbeWeight(env, weights, ps[i]))
  }

  /** The newest conclusive probe of the window was blocked by the target. */
  ghost predicate TargetRefuses(env: Env, ps: seq<Probe>) {
    exists j: nat :: NewestConclusive(env, ps, j) && IsBlocked(env, ps[j])
  }

  /** The window has enough probes that weigh enough, and its newest conclusive one was not blocked. */
  ghost predicate ProbesServe(env: Env, ps: seq<Probe>)
    requires ConfigValid(env.config)
  {
    && |ps| >= env.config.minObservations
    && ScoreOf(env.config.decayLambda, ProbeWeights(env, env.config.weights.value, ps)) >= env.config.minServableScore
    && !TargetRefuses(env, ps)
  }

  /** A probe shows that the transport works by its evidence or, without any, by having been blocked. */
  predicate ShowsTransport(env: Env, p: Probe) {
    if p.result.transportEvidenceKnown then p.result.transportOK else IsBlocked(env, p)
  }

  /** The last probe decides by its transport evidence. Without any, the newest conclusive one decides: by its
      own evidence, or by having been blocked by the target. */
  ghost predicate TransportWorks(env: Env, ps: seq<Probe>)
    requires ps != []
  {
    var last := ps[|ps|-1].result;
    if last.transportEvidenceKnown then last.transportOK
    else exists j: nat :: NewestConclusive(env, ps, j) && ShowsTransport(env, ps[j])
  }

  // ----- the same, said by the samples -----

  lemma SampleShows(env: Env, p: Probe)
    requires env.config.weights.Some?
    ensures var m := SampleOf(env)(p);
            && m.status == StatusIn(env, p) && m.category == CategoryIn(env, p)
            && m.transportEvidenceKnown == p.result.transportEvidenceKnown && m.transportOK == p.result.transportOK
            && IsConclusive(m) == IsConclusiveProbe(env, p)
            && ((m.status == FAILED && IsTargetSpecific(m.category)) == IsBlocked(env, p))
            && SampleWeight(env.config.weights.value, "gemini", m) == ProbeWeight(env, env.config.weights.value, p)
  {
    hide OutcomeWeight;
  }

  lemma WindowScore(env: Env, ps: seq<Probe>, h: Hist)
    requires ConfigValid(env.config) && HistValid(h) && View(h) == MapSeq(SampleOf(env), ps)
    ensures ScoreUnder(env.config, h) ==
            ScoreOf(env.config.decayLambda, ProbeWeights(env, env.config.weights.value, ps))
  {
    hide SampleOf, SampleWeight, ProbeWeight, View, ScoreOf;
    var ws := ProbeWeights(env, env.config.weights.value, ps);
    forall i | 0 <= i < |ps|
      ensures SampleWeight(env.config.weights.value, "gemini", View(h)[i]) ==
              ProbeWeight(env, env.config.weights.value, ps[i])
    {
      SampleShows(env, ps[i]);
    }
    assert WeightsOf(env.config.weights.value, "gemini", View(h)) == ws;
  }

  /** The newest conclusive sample of a view is that of the newest conclusive probe. */
  lemma ConclusiveAt(env: Env, ps: seq<Probe>, v: seq<Sample>, j: nat)
    requires env.config.weights.Some? && v == MapSeq(SampleOf(env), ps)
    ensures NewestConclusive(env, ps, j) <==> LastWhere(IsConclusive, v) == Some(j)
  {
    hide SampleOf, IsConclusiveProbe, IsConclusive;
    forall i | 0 <= i < |ps| ensures IsConclusive(v[i]) == IsConclusiveProbe(env, ps[i]) {
      SampleShows(env, ps[i]);
    }
    if NewestConclusive(env, ps, j) {
      LastWhereIs(IsConclusive, v, j);
    }
  }

  lemma ConclusiveShows(env: Env, ps: seq<Probe>, v: seq<Sample>)
    requires env.config.weights.Some? && v == MapSeq(SampleOf(env), ps)
    ensures forall j: nat :: NewestConclusive(env, ps, j) <==> LastWhere(IsConclusive, v) == Some(j)
    ensures LatestConclusive(v) ==
            match LastWhere(IsConclusive, v) case None => None case Some(j) => Some(v[j])
  {
    hide NewestConclusive, LastWhere, SampleOf;
    forall j: nat ensures NewestConclusive(env, ps, j) <==> LastWhere(IsConclusive, v) == Some(j) {
      ConclusiveAt(env, ps, v, j);
    }
  }

  // ----- what a record shows -----

  /** The record of a candidate and its window, in a run. */
  ghost predicate Shows(env: Env, rec: Record, ps: seq<Probe>) {
    && HistValid(rec.history) && ps != [] && View(rec.history) == MapSeq(SampleOf(env), ps)
    && SameOutcome(rec.latest, Completed(env, ps[|ps|-1].result))
  }

  lemma RunShows(env: Env, es: seq<Event>, k: Bytes)
    requires EnvOk(env) && k in Run(env, es).records
    ensures Shows(env, Run(env, es).records[k], Window(env, es, k))
    ensures Run(env, es).records[k].activeLink == Probes(env, es, k)[|Probes(env, es, k)|-1].result.link
    ensures Window(env, es, k) != [] && Probes(env, es, k) != []
  {
    hide Run, Probes, RecordAgrees, Shows, LastOf;
    RunRecords(env, es, k);
    AgreesShows(env, Run(env, es).records[k], Probes(env, es, k));
  }

  lemma AgreesShows(env: Env, rec: Record, ps: seq<Probe>)
    requires ConfigValid(env.config) && RecordAgrees(env, rec, ps)
    ensures ps != [] && Shows(env, rec, LastOf(ps, env.config.historyCapacity))
    ensures rec.activeLink == ps[|ps|-1].result.link
  {
    hide SameOutcome, SampleOf, View, Completed;
    var last := LastOf(ps, env.config.historyCapacity);
    assert last[|last|-1] == ps[|ps|-1];
  }

  lemma PolicyShows(env: Env, rec: Record, ps: seq<Probe>)
    requires ConfigValid(env.config) && Shows(env, rec, ps)
    ensures PolicyGate(rec).Some? <==> TargetRefuses(env, ps)
  {
    hide SampleOf, LatestConclusive, View, IsBlocked, NewestConclusive, IsConclusiveProbe;
    var v := View(rec.history);
    ConclusiveShows(env, ps, v);
    var at := LastWhere(IsConclusive, v);
    if at.Some? {
      SampleShows(env, ps[at.value]);
      assert NewestConclusive(env, ps, at.value);
    } else {
      LastInconclusive(env, rec, ps);
    }
  }

  /** Without a conclusive sample the latest result is not conclusive either. */
  lemma LastInconclusive(env: Env, rec: Record, ps: seq<Probe>)
    requires ConfigValid(env.config) && Shows(env, rec, ps) && LastWhere(IsConclusive, View(rec.history)).None?
    ensures rec.latest.status != FAILED && rec.latest.status != PASSED
  {
    hide SampleOf, View;
    var p := ps[|ps|-1];
    ProbeTells(env, p);
    assert View(rec.history)[|ps|-1] == SampleOf(env)(p);
    assert !IsConclusive(View(rec.history)[|ps|-1]);
  }

  /** A history with one sample that is inconclusive has no pass before it. */
  lemma NoGrace(env: Env, k: Bytes, rec: Record, ps: seq<Probe>)
    requires ConfigValid(env.config) && RecordOk(env, k, rec) && Shows(env, rec, ps)
    requires rec.latest.status == INCONCLUSIVE && rec.history.count == 1
    ensures !rec.latest.previouslyPassed
  {
    hide SampleOf, View, ScoreUnder, LastPassedLatency, ConsecutiveInconclusive;
    StatusesDiffer();
    var p := ps[|ps|-1];
    ProbeTells(env, p);
    assert View(rec.history)[|ps|-1] == SampleOf(env)(p);
    assert !IsConclusive(View(rec.history)[0]);
    assert LastWhere(IsConclusive, View(rec.history)).None?;
  }

  lemma PolicyRefuses(rec: Record)
    requires HistValid(rec.history)
    ensures PolicyGate(rec).Some? ==> !Serves(PolicyGate(rec).value)
  {
  }

  lemma RecordServes(env: Env, st: State, k: Bytes, rec: Record, ps: seq<Probe>)
    requires ConfigValid(env.config) && RecordOk(env, k, rec) && Shows(env, rec, ps)
    ensures IsServable(env.config, st, rec) <==> AbsentGate(st, rec).None? && ProbesServe(env, ps)
  {
    hide SampleOf, LatestConclusive, View, TargetRefuses, PolicyGate, AbsentGate, ProbeWeights, ScoreOf, SameOutcome;
    hide ScoreUnder, LastPassedLatency, PreviouslyPassed, ConsecutiveInconclusive;
    PolicyShows(env, rec, ps);
    WindowScore(env, ps, rec.history);
    CachedScore(env, k, rec);
    AbsentGateRefuses(st, rec);
    PolicyRefuses(rec);
    assert |View(rec.history)| == |ps|;
    if rec.latest.status == INCONCLUSIVE && rec.history.count == 1 {
      NoGrace(env, k, rec, ps);
    }
  }

  lemma CachedScore(env: Env, k: Bytes, rec: Record)
    requires ConfigValid(env.config) && RecordOk(env, k, rec)
    ensures HistValid(rec.history) && rec.score == ScoreUnder(env.config, rec.history)
  {
    hide ScoreUnder;
  }

  lemma EvidenceShows(env: Env, rec: Record, ps: seq<Probe>)
    requires ConfigValid(env.config) && Shows(env, rec, ps)
    ensures NetworkEvidence(rec) <==> TransportWorks(env, ps)
  {
    hide SampleOf, LatestConclusive, View, IsBlocked, NewestConclusive, IsConclusiveProbe;
    hide NormalStatus, NormalCategory;
    var v := View(rec.history);
    ConclusiveShows(env, ps, v);
    var at := LastWhere(IsConclusive, v);
    if at.Some? {
      SampleShows(env, ps[at.value]);
      assert NewestConclusive(env, ps, at.value);
    } else {
      LastInconclusive(env, rec, ps);
    }
  }

  lemma NewestIsOne(env: Env, ps: seq<Probe>)
    ensures forall i: nat, j: nat :: NewestConclusive(env, ps, i) && NewestConclusive(env, ps, j) ==> i == j
  {
  }

  // ----- the cached fields -----

  predicate NewestPass(env: Env, ps: seq<Probe>, j: nat) {
    j < |ps| && StatusIn(env, ps[j]) == PASSED && forall i :: j < i < |ps| ==> StatusIn(env, ps[i]) != PASSED
  }

  /** The last `n` probes of a window are inconclusive, and the one before them is not. */
  predicate InconclusiveFor(env: Env, ps: seq<Probe>, n: nat) {
    && n <= |ps| && (forall i :: |ps| - n <= i < |ps| ==> StatusIn(env, ps[i]) == INCONCLUSIVE)
    && (n < |ps| ==> StatusIn(env, ps[|ps| - 1 - n]) != INCONCLUSIVE)
  }

  ghost predicate SameStatuses(env: Env, ps: seq<Probe>, v: seq<Sample>) {
    && |v| == |ps|
    && forall i :: 0 <= i < |ps| ==> v[i].status == StatusIn(env, ps[i]) && v[i].latency == ps[i].result.latency
  }

  lemma StatusesSame(env: Env, ps: seq<Probe>, v: seq<Sample>)
    requires v == MapSeq(SampleOf(env), ps)
    ensures SameStatuses(env, ps, v)
  {
    hide SampleOf, StatusIn;
    forall i | 0 <= i < |ps|
      ensures v[i].status == StatusIn(env, ps[i]) && v[i].latency == ps[i].result.latency
    {
      StatusShows(env, ps[i]);
    }
  }

  lemma RunShown(env: Env, ps: seq<Probe>, v: seq<Sample>)
    requires SameStatuses(env, ps, v)
    ensures InconclusiveFor(env, ps, ConsecutiveInconclusive(v))
  {
    hide StatusIn, LastWhere;
  }

  lemma ConclusiveShown(env: Env, ps: seq<Probe>, v: seq<Sample>)
    requires SameStatuses(env, ps, v)
    ensures PreviouslyPassed(v) <==> exists j: nat :: NewestConclusive(env, ps, j) && StatusIn(env, ps[j]) == PASSED
  {
    hide StatusIn, LastWhere;
    var newest := LastWhere(IsConclusive, v);
    assert newest.Some? ==> NewestConclusive(env, ps, newest.value);
    NewestIsOne(env, ps);
  }

  lemma PassShown(env: Env, ps: seq<Probe>, v: seq<Sample>)
    requires SameStatuses(env, ps, v)
    ensures LastPassedLatency(v).Some? <==> exists j: nat :: NewestPass(env, ps, j)
    ensures forall j: nat :: NewestPass(env, ps, j) ==> LastPassedLatency(v) == Some(ps[j].result.latency)
  {
    hide StatusIn, LastWhere;
    var pass := LastWhere(IsPassed, v);
    assert pass.Some? ==> NewestPass(env, ps, pass.value);
  }

  lemma ViewShows(env: Env, ps: seq<Probe>, v: seq<Sample>)
    requires v == MapSeq(SampleOf(env), ps)
    ensures InconclusiveFor(env, ps, ConsecutiveInconclusive(v))
    ensures PreviouslyPassed(v) <==> exists j: nat :: NewestConclusive(env, ps, j) && StatusIn(env, ps[j]) == PASSED
    ensures LastPassedLatency(v).Some? <==> exists j: nat :: NewestPass(env, ps, j)
    ensures forall j: nat :: NewestPass(env, ps, j) ==> LastPassedLatency(v) == Some(ps[j].result.latency)
  {
    hide SampleOf, SameStatuses, InconclusiveFor, PreviouslyPassed, LastPassedLatency, NewestConclusive, NewestPass;
    StatusesSame(env, ps, v);
    RunShown(env, ps, v);
    ConclusiveShown(env, ps, v);
    PassShown(env, ps, v);
  }

  lemma StatusShows(env: Env, p: Probe)
    ensures SampleOf(env)(p).status == StatusIn(env, p) && SampleOf(env)(p).latency == p.result.latency
  {
  }

  lemma CachedFields(env: Env, k: Bytes, rec: Record)
    requires ConfigValid(env.config) && RecordOk(env, k, rec)
    ensures var latency := LastPassedLatency(View(rec.history));
            rec.hasPassed == latency.Some? && rec.lastPassedLatency == if latency.Some? then latency.value else 0
    ensures rec.history.count > 0 ==>
              rec.latest.previouslyPassed == PreviouslyPassed(View(rec.history))
              && rec.latest.consecutiveInconclusive == ConsecutiveInconclusive(View(rec.history))
  {
    hide ScoreUnder;
  }

  /** In every run each cached field of a record is what the last probes of its candidate say: the score, the
      newest pass and its latency, the last known outcome and the run of inconclusive probes. */
  lemma CachedOverRuns(env: Env, es: seq<Event>, k: Bytes)
    requires EnvOk(env) && k in Run(env, es).records
    ensures var rec, ps, c := Run(env, es).records[k], Window(env, es, k), env.config;
            && rec.score == ScoreOf(c.decayLambda, ProbeWeights(env, c.weights.value, ps))
            && (rec.hasPassed <==> exists j: nat :: NewestPass(env, ps, j))
            && (forall j: nat :: NewestPass(env, ps, j) ==> rec.lastPassedLatency == ps[j].result.latency)
            && (rec.latest.previouslyPassed <==>
                  exists j: nat :: NewestConclusive(env, ps, j) && StatusIn(env, ps[j]) == PASSED)
            && rec.latest.consecutiveInconclusive >= 0
            && InconclusiveFor(env, ps, rec.latest.consecutiveInconclusive)
  {
    hide RecordOk, View, SampleOf, Run, Window, ScoreOf, ProbeWeights, NewestPass, NewestConclusive, StatusIn;
    hide InconclusiveFor, SameOutcome, LastPassedLatency, PreviouslyPassed, ScoreUnder;
    RunStateOk(env, es);
    RunShows(env, es, k);
    var rec, ps := Run(env, es).records[k], Window(env, es, k);
    WindowScore(env, ps, rec.history);
    CachedScore(env, k, rec);
    CachedFields(env, k, rec);
    ViewShows(env, ps, View(rec.history));
    assert |View(rec.history)| == |ps|;
  }

  // ----- the gates over runs -----

  /** A candidate of any run is servable if and only if it is present and its last probes serve it. The grace
      period never applies. */
  lemma ServableExactly(env: Env, es: seq<Event>, k: Bytes)
    requires EnvOk(env) && k in Run(env, es).records
    ensures IsServable(env.config, Run(env, es), Run(env, es).records[k]) <==>
            !Absent(env, es, k) && ProbesServe(env, Window(env, es, k))
  {
    hide IsServable, AbsentGate, ProbesServe, Window, Shows, RecordOk, Absent;
    RunStateOk(env, es);
    RunShows(env, es, k);
    AbsentGateSays(env, es, k);
    RecordServes(env, Run(env, es), k, Run(env, es).records[k], Window(env, es, k));
  }

  /** It is network-healthy if and only if it is present, was probed often enough, and is servable or shows a
      working transport. */
  lemma NetworkHealthyExactly(env: Env, es: seq<Event>, k: Bytes)
    requires EnvOk(env) && k in Run(env, es).records
    ensures Window(env, es, k) != []
    ensures NetworkState(env.config, Run(env, es), Run(env, es).records[k]).0 <==>
            && !Absent(env, es, k) && |Window(env, es, k)| >= env.config.minObservations
            && (ProbesServe(env, Window(env, es, k)) || TransportWorks(env, Window(env, es, k)))
  {
    hide IsServable, AbsentGate, ProbesServe, Window, RecordOk, Absent, NetworkEvidence, TransportWorks, SampleOf;
    hide SameOutcome, View;
    RunShows(env, es, k);
    AbsentGateSays(env, es, k);
    ServableExactly(env, es, k);
    EvidenceShows(env, Run(env, es).records[k], Window(env, es, k));
    assert |View(Run(env, es).records[k].history)| == |Window(env, es, k)|;
  }

  /** A present candidate that is not servable and whose last probe had transport evidence is network-healthy
      if and only if that probe's transport worked. */
  lemma EvidenceDecides(env: Env, es: seq<Event>, k: Bytes) returns (i: nat)
    requires EnvOk(env) && k in Run(env, es).records && !Absent(env, es, k)
    requires |Window(env, es, k)| >= env.config.minObservations
    requires !IsServable(env.config, Run(env, es), Run(env, es).records[k])
    ensures i < |es| && Puts(env, es[i], k) && forall j :: i < j < |es| ==> !Puts(env, es[j], k)
    ensures es[i].result.transportEvidenceKnown ==>
      (NetworkState(env.config, Run(env, es), Run(env, es).records[k]).0 <==> es[i].result.transportOK)
  {
    hide IsServable, ProbesServe, Absent, NewestConclusive, NetworkState;
    i := LastProbe(env, es, k);
    ServableExactly(env, es, k);
    NetworkHealthyExactly(env, es, k);
    var ps, all := Window(env, es, k), Probes(env, es, k);
    assert ps[|ps|-1] == all[|all|-1];
  }

  /** If its last probe had no evidence, the newest conclusive probe of its window decides: by its own
      evidence, or else by having been blocked by the target. Without any it is not network-healthy. */
  lemma ConclusiveDecides(env: Env, es: seq<Event>, k: Bytes)
    requires EnvOk(env) && k in Run(env, es).records && !Absent(env, es, k)
    requires |Window(env, es, k)| >= env.config.minObservations
    requires !IsServable(env.config, Run(env, es), Run(env, es).records[k])
    ensures var ps := Window(env, es, k);
            var healthy := NetworkState(env.config, Run(env, es), Run(env, es).records[k]).0;
            && ps != []
            && (!ps[|ps|-1].result.transportEvidenceKnown ==>
                  && (forall j: nat :: NewestConclusive(env, ps, j) ==>
                        (healthy <==> if ps[j].result.transportEvidenceKnown then ps[j].result.transportOK
                                      else IsBlocked(env, ps[j])))
                  && ((forall j: nat :: !NewestConclusive(env, ps, j)) ==> !healthy))
  {
    hide IsServable, ProbesServe, Absent, NewestConclusive, NetworkState, IsBlocked, Window;
    ServableExactly(env, es, k);
    NetworkHealthyExactly(env, es, k);
    NewestIsOne(env, Window(env, es, k));
  }

  // ----- the lists over runs -----

  /** The link that a candidate was last probed with. */
  function LastLink(env: Env, es: seq<Event>, k: Bytes): Bytes
    requires Probes(env, es, k) != []
  {
    Probes(env, es, k)[|Probes(env, es, k)|-1].result.link
  }

  ghost predicate ServesLink(env: Env, es: seq<Event>, k: Bytes, l: Bytes)
    requires ConfigValid(env.config)
  {
    && Misses(env, es, k).Some? && !Absent(env, es, k) && ProbesServe(env, Window(env, es, k))
    && Probes(env, es, k) != [] && LastLink(env, es, k) == l
  }

  ghost predicate HealthyLink(env: Env, es: seq<Event>, k: Bytes, l: Bytes)
    requires ConfigValid(env.config)
  {
    && Misses(env, es, k).Some? && !Absent(env, es, k) && Window(env, es, k) != []
    && |Window(env, es, k)| >= env.config.minObservations
    && (ProbesServe(env, Window(env, es, k)) || TransportWorks(env, Window(env, es, k)))
    && Probes(env, es, k) != [] && LastLink(env, es, k) == l
  }

  lemma ServesRecord(env: Env, es: seq<Event>, k: Bytes, l: Bytes)
    requires EnvOk(env)
    ensures ServesLink(env, es, k, l) <==>
            && k in Run(env, es).records && IsServable(env.config, Run(env, es), Run(env, es).records[k])
            && Run(env, es).records[k].activeLink == l
    ensures HealthyLink(env, es, k, l) <==>
            && k in Run(env, es).records && NetworkState(env.config, Run(env, es), Run(env, es).records[k]).0
            && Run(env, es).records[k].activeLink == l
  {
    hide IsServable, NetworkState, ProbesServe, TransportWorks, Window, Absent, Misses, Shows;
    RunAgrees(env, es);
    if k in Run(env, es).records {
      ServableExactly(env, es, k);
      NetworkHealthyExactly(env, es, k);
      RunShows(env, es, k);
    }
  }

  /** Passing names exactly the links last used for candidates that are present and served by their probes,
      and NetworkPassing those of the network-healthy ones. */
  lemma ListsOverRuns(env: Env, es: seq<Event>, links: seq<Bytes>, l: Bytes)
    requires EnvOk(env)
    ensures IsPassing(env.config, Run(env, es), links) ==> (l in links <==> exists k :: ServesLink(env, es, k, l))
    ensures IsNetworkPassing(env.config, Run(env, es), links) ==>
      (l in links <==> exists k :: HealthyLink(env, es, k, l))
  {
    hide IsPassing, IsNetworkPassing, ServesLink, HealthyLink, IsServable, NetworkState;
    var c, st := env.config, Run(env, es);
    forall k ensures ServesLink(env, es, k, l) <==>
                     (k in st.records && IsServable(c, st, st.records[k]) && st.records[k].activeLink == l)
             ensures HealthyLink(env, es, k, l) <==>
                     (k in st.records && NetworkState(c, st, st.records[k]).0 && st.records[k].activeLink == l) {
      ServesRecord(env, es, k, l);
    }
    if IsPassing(c, st, links) {
      PassingLists(c, st, links, l);
    }
    if IsNetworkPassing(c, st, links) {
      NetworkPassingLists(c, st, links, l);
    }
  }
}
