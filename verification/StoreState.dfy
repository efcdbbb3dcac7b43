/** The state of the store, its gates, and what its operations do to the state as a whole. */
module StoreState {
  import opened Base
  import opened Types
  import opened Score
  import opened History
  import opened Policy

  /** The fields of a Store that its operations change. */
  datatype State = State(
    records: map<Bytes, Record>,
    pendingAbsent: set<Bytes>,
    pendingPresent: set<Bytes>,
    lastCycle: Time,
    cycleCount: int,
    cycleID: nat,
    revision: nat)

  const NEW_STATE := State(map[], {}, {}, ZERO_TIME, 0, 0, 0)

  /** What the store gets from elsewhere: its policy, CanonicalizeLink and deriveCategory. */
  datatype Env = Env(config: Config, canon: Bytes -> Bytes, derive: (Bytes, int) -> Bytes)

  ghost predicate EnvOk(env: Env) {
    ConfigValid(env.config) && env.canon("") == ""
  }

  // ----- gates -----

  /** The decision of the servability gate, with its reason. */
  datatype Gate =
    | AbsentInCycle
    | AbsentUpstream
    | TargetPolicy(category: Bytes)
    | ColdStart
    | BelowThreshold
    | GracePeriod
    | Servable

  predicate Serves(g: Gate) {
    g.GracePeriod? || g.Servable?
  }

  /** isAbsentLocked. */
  function AbsentGate(st: State, rec: Record): Option<Gate> {
    if rec.canonicalLink in st.pendingAbsent then Some(AbsentInCycle)
    else if rec.absentCycles > 0 && rec.canonicalLink !in st.pendingPresent then Some(AbsentUpstream)
    else None
  }

  /** Gate 2 for Gemini: the newest conclusive sample, or the latest result if there is none. */
  function PolicyGate(rec: Record): Option<Gate>
    requires HistValid(rec.history)
  {
    var sample := LatestConclusive(View(rec.history));
    var (status, category) :=
      if sample.Some? then (sample.value.status, sample.value.category)
      else (rec.latest.status, rec.latest.category);
    if status == FAILED && IsTargetSpecific(category) then Some(TargetPolicy(category)) else None
  }

  /** servabilityGateLockedFor with service "gemini". */
  function ServabilityGate(c: Config, st: State, rec: Record): Gate
    requires HistValid(rec.history)
  {
    var absent := AbsentGate(st, rec);
    var policy := PolicyGate(rec);
    if absent.Some? then absent.value
    else if policy.Some? then policy.value
    else if rec.history.count < c.minObservations then ColdStart
    else if rec.score >= c.minServableScore then Servable
    else if rec.latest.status == INCONCLUSIVE && rec.latest.previouslyPassed
         && rec.latest.consecutiveInconclusive <= c.maxAbsentCycles && rec.history.count == 1
    then GracePeriod
    else BelowThreshold
  }

  predicate IsServable(c: Config, st: State, rec: Record)
    requires HistValid(rec.history)
  {
    Serves(ServabilityGate(c, st, rec))
  }

  /** Tiers 2 and 3 of the network gate: explicit evidence of the latest result, then of the newest
      conclusive sample, then a failure that only the target caused. */
  predicate NetworkEvidence(rec: Record)
    requires HistValid(rec.history)
  {
    if rec.latest.transportEvidenceKnown then rec.latest.transportOK
    else
      var sample := LatestConclusive(View(rec.history));
      if sample.Some? && sample.value.transportEvidenceKnown then sample.value.transportOK
      else if sample.Some? then sample.value.status == FAILED && IsTargetSpecific(sample.value.category)
      else rec.latest.status == FAILED && IsTargetSpecific(rec.latest.category)
  }

  /** networkHealthyStateLocked: whether the record is network-healthy, and whether it is servable. */
  function NetworkState(c: Config, st: State, rec: Record): (bool, bool)
    requires HistValid(rec.history)
  {
    if AbsentGate(st, rec).Some? then (false, false)
    else if rec.history.count < c.minObservations then (false, false)
    else if IsServable(c, st, rec) then (true, true)
    else (NetworkEvidence(rec), false)
  }

  /** The second result of the network gate is the servability gate. */
  lemma NetworkStateServable(c: Config, st: State, rec: Record)
    requires HistValid(rec.history)
    ensures NetworkState(c, st, rec).1 == IsServable(c, st, rec)
    ensures IsServable(c, st, rec) ==> NetworkState(c, st, rec).0
  {
  }

  // ----- recording a result -----

  /** What PutWithTransition was told about Claude. */
  datatype ServiceResult = ServiceResult(status: Bytes, category: Bytes, latency: int)

  function NormalStatus(r: Result): Bytes {
    if r.status != "" then r.status else if r.passed then PASSED else FAILED
  }

  function NormalCategory(env: Env, r: Result, status: Bytes): Bytes {
    if r.category != "" then r.category
    else if status == PASSED then NO_ERROR
    else if r.reason != "" || r.statusCode != 0 then
      var category := env.derive(r.reason, r.statusCode);
      if status == INCONCLUSIVE && category == PROXY_ERROR then TIMEOUT else category
    else if status == INCONCLUSIVE then TIMEOUT
    else PROXY_ERROR
  }

  function Completed(env: Env, r: Result): Result {
    r.(status := NormalStatus(r), category := NormalCategory(env, r, NormalStatus(r)))
  }

  function ClaudeOutcome(r: Result, claude: Option<ServiceResult>): ServiceResult {
    if claude.Some? then claude.value
    else if (r.transportEvidenceKnown && !r.transportOK) || (r.status == FAILED && !IsTargetSpecific(r.category))
    then ServiceResult(r.status, r.category, r.latency)
    else ServiceResult("", "", 0)
  }

  /** The sample that a completed result leaves in the history. */
  function SampleFrom(r: Result, claude: Option<ServiceResult>, cycleID: nat, now: Time): Sample {
    var c := ClaudeOutcome(r, claude);
    Sample(cycleID, if r.testedAt == ZERO_TIME then now else r.testedAt, r.status, r.category, r.statusCode, r.latency,
           c.status, c.category, c.latency, if r.attempts <= 0 then 1 else r.attempts,
           r.transportOK, r.transportLatency, r.transportEvidenceKnown, r.jitter)
  }

  function NewHistory(capacity: int): (h: Hist)
    ensures HistValid(h) && View(h) == []
  {
    var size := if capacity <= 0 then DEFAULT_CAPACITY else capacity;
    Hist(size, 0, 0, Blank(size))
  }

  function NewRecord(c: Config, canonical: Bytes, link: Bytes): (rec: Record)
    ensures HistValid(rec.history)
  {
    NO_RECORD.(canonicalLink := canonical, activeLink := link, history := NewHistory(c.historyCapacity))
  }

  /** The fields of a record that are derived from its history. */
  function Derived(c: Config, rec: Record): Record
    requires c.weights.Some? && HistValid(rec.history)
  {
    var latency := LastPassedLatency(View(rec.history));
    rec.(score := ScoreUnder(c, rec.history),
         hasPassed := latency.Some?,
         lastPassedLatency := if latency.Some? then latency.value else 0)
  }

  /** The latest result of a record, with the projections of its history. */
  function Projected(r: Result, h: Hist, warnings: seq<Bytes>): Result
    requires HistValid(h)
  {
    r.(passed := r.status == PASSED,
       previouslyPassed := PreviouslyPassed(View(h)),
       consecutiveInconclusive := ConsecutiveInconclusive(View(h)),
       warnings := if r.warnings == [] then warnings else r.warnings)
  }

  function Recorded(c: Config, rec: Record, r: Result, m: Sample): Record
    requires c.weights.Some? && HistValid(rec.history)
  {
    var history := Pushed(rec.history, m);
    Derived(c, rec.(activeLink := r.link, history := history, latest := Projected(r, history, rec.latest.warnings)))
  }

  ghost predicate HistoriesValid(st: State) {
    forall k :: k in st.records ==> HistValid(st.records[k].history)
  }

  /** PutWithTransition. */
  function PutState(env: Env, st: State, r0: Result, claude: Option<ServiceResult>, now: Time): State
    requires ConfigValid(env.config) && HistoriesValid(st)
  {
    var r := Completed(env, r0);
    var canonical := env.canon(r.link);
    var rec := if canonical in st.records then st.records[canonical] else NewRecord(env.config, canonical, r.link);
    st.(records := st.records[canonical := Recorded(env.config, rec, r, SampleFrom(r, claude, st.cycleID, now))],
        pendingAbsent := st.pendingAbsent - {canonical},
        pendingPresent := st.pendingPresent + {canonical},
        revision := st.revision + 1)
  }

  // ----- cycles -----

  /** StartCycle, on the canonical forms of the links. */
  function StartState(st: State, present: set<Bytes>): State {
    st.(pendingPresent := present, pendingAbsent := st.records.Keys - present, revision := st.revision + 1)
  }

  /** The absence counter of a record after a finished cycle. */
  function AbsentAfter(st: State, k: Bytes): int
    requires k in st.records
  {
    if k in st.pendingPresent then 0
    else if k in st.pendingAbsent then st.records[k].absentCycles + 1
    else st.records[k].absentCycles
  }

  /** A record goes when it was pending absent and its counter exceeds the limit. */
  predicate Evicted(c: Config, st: State, k: Bytes)
    requires k in st.records
  {
    k in st.pendingAbsent && st.records[k].absentCycles + 1 > c.maxAbsentCycles
  }

  /** FinishCycle. */
  function FinishState(c: Config, st: State, now: Time): State {
    State(map k | k in st.records && !Evicted(c, st, k) :: st.records[k].(absentCycles := AbsentAfter(st, k)),
          {}, {}, now, st.cycleCount + 1, st.cycleID + 1, st.revision + 1)
  }

  // ----- loading -----

  /** The links of a loaded record, completed from each other. */
  function Relinked(env: Env, rec: Record): Record {
    var canonical :=
      if rec.canonicalLink == "" && rec.activeLink != "" then env.canon(rec.activeLink) else rec.canonicalLink;
    var active := if rec.activeLink == "" && canonical != "" then canonical else rec.activeLink;
    rec.(canonicalLink := canonical, activeLink := active,
         latest := rec.latest.(link := if rec.latest.link == "" then active else rec.latest.link))
  }

  /** What Load makes of one record of a snapshot. */
  function LoadedRecord(env: Env, rec0: Record): (r: Record)
    requires ConfigValid(env.config)
    ensures HistValid(r.history)
  {
    var rec := Relinked(env, rec0);
    var history := Normalized(rec.history, env.config.historyCapacity);
    var latest := rec.latest.(passed := rec.latest.status == PASSED);
    Derived(env.config, rec.(
      history := history,
      latest := if history.count == 0 then latest
                else latest.(previouslyPassed := PreviouslyPassed(View(history)),
                             consecutiveInconclusive := ConsecutiveInconclusive(View(history)))))
  }

  /** The records of a snapshot, the later ones in place of earlier ones with the same key. */
  function LoadedRecords(env: Env, rs: seq<Option<Record>>): (m: map<Bytes, Record>)
    requires ConfigValid(env.config)
    ensures forall k :: k in m ==> HistValid(m[k].history) && m[k].canonicalLink == k
  {
    if rs == [] then map[]
    else
      var earlier := LoadedRecords(env, rs[..|rs|-1]);
      match rs[|rs|-1]
      case None => earlier
      case Some(rec) => var r := LoadedRecord(env, rec); earlier[r.canonicalLink := r]
  }

  /** The in-memory part of Load for a version-2 snapshot. The pending-present set is left alone. */
  function LoadState(env: Env, st: State, snap: Snapshot): State
    requires ConfigValid(env.config)
  {
    State(LoadedRecords(env, snap.records), {}, st.pendingPresent, snap.lastCycle, snap.cycleCount,
          snap.cycleCount % 0x1_0000_0000_0000_0000, st.revision + 1)
  }

  // ----- invariants -----

  /** What every record of a store has in common: it stands under its own key, its history is a
      valid buffer within the limit, and every cached field is what its history gives. */
  predicate RecordOk(env: Env, k: Bytes, rec: Record)
    requires ConfigValid(env.config)
  {
    && rec.canonicalLink == k && HistValid(rec.history) && rec.history.capacity <= env.config.historyCapacity
    && (rec.activeLink == "" ==> k == "") && (k == "" && rec.activeLink != "" ==> env.canon(rec.activeLink) == "")
    && rec == Derived(env.config, rec)
    && rec.latest.passed == (rec.latest.status == PASSED)
    && (rec.history.count > 0 ==>
          && rec.latest.previouslyPassed == PreviouslyPassed(View(rec.history))
          && rec.latest.consecutiveInconclusive == ConsecutiveInconclusive(View(rec.history)))
  }

  ghost predicate StateOk(env: Env, st: State)
    requires ConfigValid(env.config)
  {
    forall k :: k in st.records ==> RecordOk(env, k, st.records[k])
  }

  lemma RecordedOk(env: Env, k: Bytes, rec: Record, r: Result, m: Sample)
    requires ConfigValid(env.config) && k == env.canon(r.link) && env.canon("") == ""
    requires rec.canonicalLink == k && HistValid(rec.history) && rec.history.capacity <= env.config.historyCapacity
    ensures RecordOk(env, k, Recorded(env.config, rec, r, m))
  {
  }

  lemma PutKeepsStateOk(env: Env, st: State, r: Result, claude: Option<ServiceResult>, now: Time)
    requires EnvOk(env) && StateOk(env, st)
    ensures HistoriesValid(st) && StateOk(env, PutState(env, st, r, claude, now))
    ensures HistoriesValid(PutState(env, st, r, claude, now))
  {
    hide Recorded;
    var done := Completed(env, r);
    var k := env.canon(done.link);
    var rec := if k in st.records then st.records[k] else NewRecord(env.config, k, done.link);
    RecordedOk(env, k, rec, done, SampleFrom(done, claude, st.cycleID, now));
  }

  lemma FinishKeepsStateOk(env: Env, st: State, now: Time)
    requires EnvOk(env) && StateOk(env, st)
    ensures StateOk(env, FinishState(env.config, st, now)) && HistoriesValid(FinishState(env.config, st, now))
  {
    forall k | k in FinishState(env.config, st, now).records
      ensures RecordOk(env, k, FinishState(env.config, st, now).records[k])
    {
      assert RecordOk(env, k, st.records[k]);
    }
  }

  lemma LoadedRecordOk(env: Env, rec: Record)
    requires EnvOk(env)
    ensures RecordOk(env, LoadedRecord(env, rec).canonicalLink, LoadedRecord(env, rec))
  {
  }

  lemma {:induction false} LoadedRecordsOk(env: Env, rs: seq<Option<Record>>)
    requires EnvOk(env)
    ensures forall k :: k in LoadedRecords(env, rs) ==> RecordOk(env, k, LoadedRecords(env, rs)[k])
  {
    if rs != [] {
      LoadedRecordsOk(env, rs[..|rs|-1]);
      if rs[|rs|-1].Some? {
        LoadedRecordOk(env, rs[|rs|-1].value);
      }
    }
  }

  /** Whatever a version-2 snapshot holds, loading it establishes the invariant. */
  lemma LoadEstablishesStateOk(env: Env, st: State, snap: Snapshot)
    requires EnvOk(env)
    ensures StateOk(env, LoadState(env, st, snap)) && HistoriesValid(LoadState(env, st, snap))
  {
    LoadedRecordsOk(env, snap.records);
  }
}
