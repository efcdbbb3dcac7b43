/** The store as an object: each operation is one critical section that changes the fields, with
    loops over maps in an order the program does not choose. */
module Store {
  import opened Base
  import opened Types
  import opened Score
  import opened History
  import opened Policy
  import opened StoreState
  import opened Ranking
  import opened SaveLoad
  import SnapshotCodec
  import Index = CandidateIndex

  /** sort.Slice and slices.SortFunc: some sorted arrangement. */
  method SortAny<T(!new)>(less: (T, T) -> bool, s: seq<T>) returns (r: seq<T>)
    requires StrictWeakOrder(less)
    ensures Sorted(less, r) && multiset(r) == multiset(s)
  {
    SortBySorts(less, s);
    r := SortBy(less, s);
  }

  predicate KeyLess(a: Record, b: Record) {
    LexLess(a.canonicalLink, b.canonicalLink)
  }

  lemma KeyLessOrders()
    ensures StrictWeakOrder(KeyLess)
  {
    forall x: Record, y: Record, z: Record
      ensures !KeyLess(x, x) && (KeyLess(x, y) && KeyLess(y, z) ==> KeyLess(x, z))
      ensures KeyLess(x, z) ==> KeyLess(x, y) || KeyLess(y, z)
    {
      LinkLessIsTotal(Ranked(x.canonicalLink, 0.0, 0, false), Ranked(y.canonicalLink, 0.0, 0, false),
                      Ranked(z.canonicalLink, 0.0, 0, false));
    }
  }

  lemma VisitsOnce(ks: seq<Bytes>, keys: set<Bytes>, k: Bytes)
    requires Visits(ks, keys)
    ensures multiset(ks)[k] <= 1
    decreases |ks|
  {
    if ks != [] {
      VisitsTail(ks, keys);
      VisitsOnce(ks[1..], keys - {ks[0]}, k);
      assert ks == [ks[0]] + ks[1..];
      if k == ks[0] {
        assert k !in ks[1..];
      }
    }
  }

  lemma VisitsPermuted(a: seq<Bytes>, b: seq<Bytes>, keys: set<Bytes>)
    requires Visits(a, keys) && multiset(a) == multiset(b)
    ensures Visits(b, keys)
  {
    forall k ensures k in keys <==> k in b {
      assert k in a <==> k in multiset(a);
      assert k in b <==> k in multiset(b);
    }
    forall i, j | 0 <= i < j < |b| ensures b[i] != b[j] {
      VisitsOnce(a, keys, b[i]);
      assert b == b[..j] + ([b[j]] + b[j+1..]);
      assert b[i] in b[..j];
      assert b[i] in multiset(b[..j]);
    }
  }

  function KeyOf(rec: Record): Bytes {
    rec.canonicalLink
  }

  /** Sorting the copied records gives a snapshot of the state. */
  lemma SortedCopies(st: State, ks: seq<Bytes>, copies: seq<Record>, sorted: seq<Record>)
    requires HistoriesValid(st) && Visits(ks, st.records.Keys)
    requires forall k :: k in st.records ==> st.records[k].canonicalLink == k
    requires |copies| == |ks|
    requires forall i :: 0 <= i < |ks| ==> ks[i] in st.records && copies[i] == SavedRecord(st.records[ks[i]])
    requires Sorted(KeyLess, sorted) && multiset(sorted) == multiset(copies)
    ensures IsSaved(st, Snapshot(2, st.lastCycle, st.cycleCount, SnapshotCodec.Present(sorted)))
  {
    hide SavedRecord, HistValid, LexLess, KeyLess, Sorted, Visits;
    var order := MapSeq(KeyOf, sorted);
    CopiedKeys(st, ks, copies, sorted);
    VisitedRecords(st, order);
    forall i | 0 <= i < |order| ensures sorted[i] == SavedRecord(st.records[order[i]]) {
      CopyAt(st, ks, copies, sorted, i);
    }
    var snap := Snapshot(2, st.lastCycle, st.cycleCount, SnapshotCodec.Present(sorted));
    assert snap.records == SnapshotOf(st, order).records;
    assert IsSnapshotOf(st, order, snap);
    KeysSorted(sorted);
  }

  lemma CopyAt(st: State, ks: seq<Bytes>, copies: seq<Record>, sorted: seq<Record>, i: nat)
    requires HistoriesValid(st) && multiset(sorted) == multiset(copies) && i < |sorted|
    requires forall k :: k in st.records ==> st.records[k].canonicalLink == k
    requires |copies| == |ks|
    requires forall i :: 0 <= i < |ks| ==> ks[i] in st.records && copies[i] == SavedRecord(st.records[ks[i]])
    ensures KeyOf(sorted[i]) in st.records && sorted[i] == SavedRecord(st.records[KeyOf(sorted[i])])
  {
    hide SavedRecord, HistValid;
    assert sorted[i] in multiset(copies);
    var j := IndexOf(sorted[i], copies);
    SavedKey(st.records[ks[j]]);
  }

  lemma CopiedKeys(st: State, ks: seq<Bytes>, copies: seq<Record>, sorted: seq<Record>)
    requires HistoriesValid(st) && Visits(ks, st.records.Keys) && multiset(sorted) == multiset(copies)
    requires forall k :: k in st.records ==> st.records[k].canonicalLink == k
    requires |copies| == |ks|
    requires forall i :: 0 <= i < |ks| ==> ks[i] in st.records && copies[i] == SavedRecord(st.records[ks[i]])
    ensures Visits(MapSeq(KeyOf, sorted), st.records.Keys)
  {
    hide SavedRecord, HistValid;
    MapMultiset(KeyOf, sorted, copies);
    assert MapSeq(KeyOf, copies) == ks by {
      forall i | 0 <= i < |ks| ensures KeyOf(copies[i]) == ks[i] { SavedKey(st.records[ks[i]]); }
    }
    VisitsPermuted(ks, MapSeq(KeyOf, sorted), st.records.Keys);
  }

  lemma KeysSorted(sorted: seq<Record>)
    requires Sorted(KeyLess, sorted)
    ensures Sorted(LexLess, MapSeq(KeyOf, sorted))
  {
    var order := MapSeq(KeyOf, sorted);
    forall i, j | 0 <= i < j < |order| ensures !LexLess(order[j], order[i]) {
      assert !KeyLess(sorted[j], sorted[i]);
    }
  }

  lemma SavedKey(rec: Record)
    requires HistValid(rec.history)
    ensures SavedRecord(rec).canonicalLink == rec.canonicalLink
  {
  }

  lemma NothingVisited()
    ensures Visits([], {})
  {
  }

  /** The copy loop of Save. */
  method CompactSamples(h: Hist) returns (ms: seq<Sample>)
    requires HistValid(h)
    ensures ms == View(h)
  {
    var capacity := if h.capacity <= 0 || h.capacity > |h.samples| then |h.samples| else h.capacity;
    var start := if h.start < 0 || h.start >= capacity then 0 else h.start;
    ms := [];
    for j := 0 to h.count
      invariant ms == View(h)[..j]
    {
      WrapIsModulo(start + j, capacity);
      ms := ms + [h.samples[(start + j) % capacity]];
    }
    assert View(h)[..h.count] == View(h);
  }

  /** The copy that Save makes of a record. */
  method CopyRecord(rec: Record) returns (copy: Record)
    requires HistValid(rec.history)
    ensures copy == SavedRecord(rec)
  {
    if rec.history.count > 0 {
      var samples := CompactSamples(rec.history);
      copy := rec.(history := rec.history.(samples := samples, start := 0));
    } else {
      copy := rec.(history := rec.history.(samples := []));
    }
  }

  function CountedIf(absent: bool, rec: Record): Record {
    if absent then rec.(absentCycles := rec.absentCycles + 1) else rec
  }

  function ResetIf(present: bool, rec: Record): Record {
    if present then rec.(absentCycles := 0) else rec
  }

  /** The two loops of FinishCycle, one after the other. */
  lemma CommittedRecords(c: Config, st: State, now: Time, counted: map<Bytes, Record>, reset: map<Bytes, Record>)
    requires forall k :: k in counted <==> k in st.records && !Evicted(c, st, k)
    requires forall k :: k in counted ==> counted[k] == CountedIf(k in st.pendingAbsent, st.records[k])
    requires reset.Keys == counted.Keys
    requires forall k :: k in reset ==> reset[k] == ResetIf(k in st.pendingPresent, counted[k])
    ensures reset == FinishState(c, st, now).records
  {
  }

  class Store {
    const env: Env
    var records: map<Bytes, Record>
    var pendingAbsent: set<Bytes>
    var pendingPresent: set<Bytes>
    var lastCycle: Time
    var cycleCount: int
    var cycleID: nat
    var revision: nat

    function Value(): State
      reads this
    {
      State(records, pendingAbsent, pendingPresent, lastCycle, cycleCount, cycleID, revision)
    }

    ghost predicate Valid()
      reads this
    {
      EnvOk(env) && StateOk(env, Value()) && HistoriesValid(Value())
    }

    /** NewWithConfig. */
    constructor (config: Config, canon: Bytes -> Bytes, derive: (Bytes, int) -> Bytes)
      requires canon("") == ""
      ensures Valid() && Value() == NEW_STATE && env == Env(Sanitized(config), canon, derive)
    {
      var c := config;
      if c.historyCapacity <= 0 {
        c := c.(historyCapacity := 10);
      }
      if c.decayLambda <= 0.0 || c.decayLambda > 1.0 {
        c := c.(decayLambda := 0.75);
      }
      if c.minServableScore <= 0.0 {
        c := c.(minServableScore := 0.65);
      }
      if c.minObservations <= 0 {
        c := c.(minObservations := 1);
      }
      if c.maxAbsentCycles <= 0 {
        c := c.(maxAbsentCycles := 2);
      }
      if c.weights.None? {
        c := c.(weights := DEFAULT_CONFIG.weights);
      }
      env := Env(c, canon, derive);
      records, pendingAbsent, pendingPresent := map[], {}, {};
      lastCycle, cycleCount, cycleID, revision := ZERO_TIME, 0, 0, 0;
    }

    /** The derived fields of a record, scanned from its history. */
    method Rederive(history: BoundedHistory, rec0: Record) returns (rec: Record)
      requires ConfigValid(env.config) && history.Valid() && rec0.history == history.Value()
      ensures rec == Derived(env.config, rec0)
    {
      hide HistoryScore, LastPassedLatency, View;
      var score := history.ComputeScore(env.config.decayLambda, env.config.weights.value);
      var latency, found := history.FindLastPassedLatency();
      rec := rec0.(score := score);
      if found {
        rec := rec.(lastPassedLatency := latency, hasPassed := true);
      } else {
        rec := rec.(lastPassedLatency := 0, hasPassed := false);
      }
    }

    /** What PutWithTransition does to a record: the sample is pushed into its history, and everything
        that depends on the history is computed again. */
    method RecordProbe(rec0: Record, r0: Result, m: Sample) returns (rec: Record)
      requires ConfigValid(env.config) && HistValid(rec0.history)
      ensures rec == Recorded(env.config, rec0, r0, m)
    {
      hide HistoryScore, LastPassedLatency, View, PreviouslyPassed, ConsecutiveInconclusive, Normalized, PushValid;
      var history := new BoundedHistory.Of(rec0.history);
      history.Push(m);
      rec := rec0.(activeLink := r0.link, history := history.Value());
      rec := Rederive(history, rec);
      var passedBefore := history.ComputePreviouslyPassed();
      var run := history.CountInconclusive();
      var r := r0.(passed := r0.status == PASSED, previouslyPassed := passedBefore, consecutiveInconclusive := run);
      if r.warnings == [] && rec.latest.warnings != [] {
        r := r.(warnings := rec.latest.warnings);
      }
      rec := rec.(latest := r);
    }

    method RestoreLinks(rec0: Record) returns (rec: Record)
      ensures rec == Relinked(env, rec0)
    {
      rec := rec0;
      if rec.canonicalLink == "" && rec.activeLink != "" {
        rec := rec.(canonicalLink := env.canon(rec.activeLink));
      }
      if rec.activeLink == "" && rec.canonicalLink != "" {
        rec := rec.(activeLink := rec.canonicalLink);
      }
      if rec.latest.link == "" {
        rec := rec.(latest := rec.latest.(link := rec.activeLink));
      }
    }

    /** What Load does to a record of a snapshot. */
    method RestoreRecord(rec0: Record) returns (rec: Record)
      requires ConfigValid(env.config)
      ensures rec == LoadedRecord(env, rec0)
    {
      hide HistoryScore, LastPassedLatency, View, PreviouslyPassed, ConsecutiveInconclusive, Normalized, Relinked;
      rec := RestoreLinks(rec0);
      var history := new BoundedHistory.Of(rec.history);
      history.NormalizeAndValidate(env.config.historyCapacity);
      rec := rec.(history := history.Value());
      rec := Rederive(history, rec);
      rec := rec.(latest := rec.latest.(passed := rec.latest.status == PASSED));
      if history.count > 0 {
        var passedBefore := history.ComputePreviouslyPassed();
        var run := history.CountInconclusive();
        rec := rec.(latest := rec.latest.(previouslyPassed := passedBefore, consecutiveInconclusive := run));
      }
    }

    /** The status and category of a result, completed from what else it says. */
    method CompleteResult(r0: Result) returns (r: Result)
      ensures r == Completed(env, r0)
    {
      r := r0;
      if r.status == "" {
        if r.passed {
          r := r.(status := PASSED);
        } else {
          r := r.(status := FAILED);
        }
      }
      if r.category == "" {
        if r.status == PASSED {
          r := r.(category := NO_ERROR);
        } else if r.reason != "" || r.statusCode != 0 {
          var category := env.derive(r.reason, r.statusCode);
          if r.status == INCONCLUSIVE && category == PROXY_ERROR {
            category := TIMEOUT;
          }
          r := r.(category := category);
        } else if r.status == INCONCLUSIVE {
          r := r.(category := TIMEOUT);
        } else {
          r := r.(category := PROXY_ERROR);
        }
      }
    }

    /** The sample of a completed result. */
    method MakeSample(r: Result, claude: Option<ServiceResult>, now: Time) returns (m: Sample)
      ensures m == SampleFrom(r, claude, cycleID, now)
    {
      var testedAt := r.testedAt;
      if testedAt == ZERO_TIME {
        testedAt := now;
      }
      var attempts := r.attempts;
      if attempts <= 0 {
        attempts := 1;
      }
      m := NO_SAMPLE.(cycleID := cycleID, testedAt := testedAt, status := r.status, category := r.category,
                      statusCode := r.statusCode, latency := r.latency, attempts := attempts,
                      transportOK := r.transportOK, transportLatency := r.transportLatency,
                      transportEvidenceKnown := r.transportEvidenceKnown, jitter := r.jitter);
      if claude.Some? {
        m := m.(claudeStatus := claude.value.status, claudeCategory := claude.value.category,
                claudeLatency := claude.value.latency);
      } else if (r.transportEvidenceKnown && !r.transportOK)
             || (r.status == FAILED && !IsTargetSpecific(r.category)) {
        m := m.(claudeStatus := r.status, claudeCategory := r.category, claudeLatency := r.latency);
      }
    }

    /** isAbsentLocked. */
    method FindAbsence(rec: Record) returns (absence: Option<Gate>)
      ensures absence == AbsentGate(Value(), rec)
    {
      if pendingAbsent != {} {
        if rec.canonicalLink in pendingAbsent {
          return Some(AbsentInCycle);
        }
      }
      if rec.absentCycles > 0 {
        if rec.canonicalLink !in pendingPresent {
          return Some(AbsentUpstream);
        }
      }
      absence := None;
    }

    /** servabilityGateLockedFor with service "gemini". */
    method DecideServability(rec: Record) returns (gate: Gate)
      requires HistValid(rec.history)
      ensures gate == ServabilityGate(env.config, Value(), rec)
    {
      hide AbsentGate, LatestConclusive, View;
      var absence := FindAbsence(rec);
      if absence.Some? {
        return absence.value;
      }
      var history := new BoundedHistory.Of(rec.history);
      var sample, found := history.FindLatestConclusive();
      if found {
        if sample.status == FAILED && (sample.category == REGION_BLOCKED || sample.category == TARGET_DENIED) {
          return TargetPolicy(sample.category);
        }
      } else if rec.latest.status == FAILED
             && (rec.latest.category == REGION_BLOCKED || rec.latest.category == TARGET_DENIED) {
        return TargetPolicy(rec.latest.category);
      }
      if rec.history.count < env.config.minObservations {
        return ColdStart;
      }
      if rec.score < env.config.minServableScore {
        if rec.latest.status == INCONCLUSIVE && rec.latest.previouslyPassed
          && rec.latest.consecutiveInconclusive <= env.config.maxAbsentCycles && rec.history.count == 1 {
          return GracePeriod;
        }
        return BelowThreshold;
      }
      gate := Servable;
    }

    /** networkHealthyStateLocked. */
    method DecideNetwork(rec: Record) returns (healthy: bool, servable: bool)
      requires HistValid(rec.history)
      ensures (healthy, servable) == NetworkState(env.config, Value(), rec)
    {
      hide AbsentGate, LatestConclusive, View, ServabilityGate;
      var absence := FindAbsence(rec);
      if absence.Some? {
        return false, false;
      }
      if rec.history.count < env.config.minObservations {
        return false, false;
      }
      var gate := DecideServability(rec);
      if Serves(gate) {
        return true, true;
      }
      if rec.latest.transportEvidenceKnown {
        return rec.latest.transportOK, false;
      }
      var history := new BoundedHistory.Of(rec.history);
      var sample, found := history.FindLatestConclusive();
      if !found {
        sample := NO_SAMPLE.(status := rec.latest.status, category := rec.latest.category,
                             transportOK := rec.latest.transportOK,
                             transportLatency := rec.latest.transportLatency,
                             transportEvidenceKnown := rec.latest.transportEvidenceKnown);
      }
      if sample.transportEvidenceKnown {
        return sample.transportOK, false;
      }
      return sample.status == FAILED && IsTargetSpecific(sample.category), false;
    }

    /** The latency of a network-healthy record in NetworkPassingRanked. */
    method FindNetworkLatency(rec: Record, servable: bool) returns (latency: int)
      requires HistValid(rec.history)
      ensures latency == NetworkLatencyOf(rec, servable)
    {
      hide LastNetworkHealthyLatency, View;
      if servable {
        if rec.hasPassed && rec.lastPassedLatency > 0 {
          return rec.lastPassedLatency;
        } else if rec.latest.latency > 0 {
          return rec.latest.latency;
        }
        return MAX_LATENCY;
      }
      var history := new BoundedHistory.Of(rec.history);
      var l, found := history.FindLastNetworkHealthyLatency();
      if found && l > 0 {
        return l;
      } else if rec.latest.transportLatency > 0 {
        return rec.latest.transportLatency;
      } else if rec.latest.latency > 0 {
        return rec.latest.latency;
      }
      latency := MAX_LATENCY;
    }

    method PutWithTransition(r0: Result, claude: Option<ServiceResult>, now: Time)
      requires Valid()
      modifies this
      ensures Valid() && Value() == PutState(env, old(Value()), r0, claude, now)
    {
      hide Recorded, RecordOk, Completed, SampleFrom, HistValid, Blank;
      PutKeepsStateOk(env, Value(), r0, claude, now);
      var r := CompleteResult(r0);
      var canonical := env.canon(r.link);
      var rec;
      if canonical in records {
        rec := records[canonical];
      } else {
        var history := new BoundedHistory(env.config.historyCapacity);
        rec := NO_RECORD.(canonicalLink := canonical, activeLink := r.link, history := history.Value());
      }
      pendingAbsent := pendingAbsent - {canonical};
      pendingPresent := pendingPresent + {canonical};
      var sample := MakeSample(r, claude, now);
      rec := RecordProbe(rec, r, sample);
      records := records[canonical := rec];
      revision := revision + 1;
    }

    method CanonicalizeLinks(links: set<Bytes>) returns (present: set<Bytes>)
      ensures present == set l | l in links :: env.canon(l)
    {
      present := {};
      var todo := links;
      while todo != {}
        invariant todo <= links && present == set l | l in links - todo :: env.canon(l)
        decreases |todo|
      {
        var l :| l in todo;
        todo := todo - {l};
        present := present + {env.canon(l)};
      }
      assert links - todo == links;
    }

    /** The loop of startCycleLocked over the records. */
    method MarkAbsent()
      modifies this`pendingAbsent
      ensures pendingAbsent == records.Keys - pendingPresent
    {
      pendingAbsent := {};
      var keys := records.Keys;
      while keys != {}
        invariant keys <= records.Keys && pendingAbsent == (records.Keys - keys) - pendingPresent
        decreases |keys|
      {
        var k :| k in keys;
        keys := keys - {k};
        if k !in pendingPresent {
          pendingAbsent := pendingAbsent + {k};
        }
      }
    }

    method StartCycle(currentLinks: set<Bytes>)
      requires Valid()
      modifies this
      ensures Valid() && Value() == StartState(old(Value()), set l | l in currentLinks :: env.canon(l))
    {
      hide RecordOk;
      var present := CanonicalizeLinks(currentLinks);
      revision := revision + 1;
      pendingPresent := present;
      MarkAbsent();
    }

    /** The first loop of FinishCycle: counts absences and evicts. */
    method CommitAbsences()
      modifies this`records
      ensures forall k :: k in records <==> k in old(records) && !Evicted(env.config, old(Value()), k)
      ensures forall k :: k in records ==> records[k] == CountedIf(k in pendingAbsent, old(records)[k])
    {
      var todo := pendingAbsent;
      while todo != {}
        invariant todo <= pendingAbsent
        invariant forall k :: k in records <==>
          k in old(records) && (k !in todo ==> !Evicted(env.config, old(Value()), k))
        invariant forall k :: k in records ==> records[k] == CountedIf(k in pendingAbsent - todo, old(records)[k])
        decreases |todo|
      {
        var k :| k in todo;
        todo := todo - {k};
        if k in records {
          var rec := records[k];
          rec := rec.(absentCycles := rec.absentCycles + 1);
          records := records[k := rec];
          if rec.absentCycles > env.config.maxAbsentCycles {
            records := records - {k};
          }
        }
      }
    }

    /** The second loop of FinishCycle: resets the counters of candidates that were present. */
    method CommitPresences()
      modifies this`records
      ensures records.Keys == old(records).Keys
      ensures forall k :: k in records ==> records[k] == ResetIf(k in pendingPresent, old(records)[k])
    {
      var todo := pendingPresent;
      while todo != {}
        invariant todo <= pendingPresent && records.Keys == old(records).Keys
        invariant forall k :: k in records ==> records[k] == ResetIf(k in pendingPresent - todo, old(records)[k])
        decreases |todo|
      {
        var k :| k in todo;
        todo := todo - {k};
        if k in records {
          records := records[k := records[k].(absentCycles := 0)];
        }
      }
    }

    method FinishCycle(now: Time)
      requires Valid()
      modifies this
      ensures Valid() && Value() == FinishState(env.config, old(Value()), now)
    {
      hide RecordOk, HistValid, ConfigValid;
      FinishKeepsStateOk(env, Value(), now);
      CommitAbsences();
      ghost var counted := records;
      CommitPresences();
      pendingAbsent := {};
      pendingPresent := {};
      lastCycle := now;
      cycleCount := cycleCount + 1;
      cycleID := cycleID + 1;
      revision := revision + 1;
      CommittedRecords(env.config, old(Value()), now, counted, records);
    }

    /** Load, once a version-2 snapshot was decoded. */
    method Load(snap: Snapshot)
      requires Valid()
      modifies this
      ensures Valid() && Value() == LoadState(env, old(Value()), snap)
    {
      hide LoadedRecord, RecordOk;
      LoadEstablishesStateOk(env, Value(), snap);
      lastCycle := snap.lastCycle;
      cycleCount := snap.cycleCount;
      cycleID := snap.cycleCount % 0x1_0000_0000_0000_0000;
      revision := revision + 1;
      records := map[];
      pendingAbsent := {};
      for i := 0 to |snap.records|
        invariant records == LoadedRecords(env, snap.records[..i])
        invariant Value() == LoadState(env, old(Value()), snap).(records := records)
      {
        assert snap.records[..i+1][..i] == snap.records[..i];
        if snap.records[i].Some? {
          var rec := RestoreRecord(snap.records[i].value);
          records := records[rec.canonicalLink := rec];
        }
      }
      assert snap.records[..|snap.records|] == snap.records;
    }

    /** The in-memory part of Save: copies of the records, their histories compacted, sorted by key. */
    method Save() returns (snap: Snapshot)
      requires Valid()
      ensures IsSaved(Value(), snap)
    {
      hide StateOk, Visits, SavedRecord;
      var copies: seq<Record> := [];
      ghost var ks: seq<Bytes> := [];
      NothingVisited();
      var keys := records.Keys;
      assert records.Keys - keys == {};
      while keys != {}
        invariant keys <= records.Keys && Visits(ks, records.Keys - keys) && |copies| == |ks|
        invariant forall i :: 0 <= i < |ks| ==> ks[i] in records && copies[i] == SavedRecord(records[ks[i]])
        decreases |keys|
      {
        var k :| k in keys;
        VisitsExtended(ks, records.Keys - keys, k);
        assert records.Keys - (keys - {k}) == records.Keys - keys + {k};
        keys := keys - {k};
        ks := ks + [k];
        var copy := CopyRecord(records[k]);
        copies := copies + [copy];
      }
      assert records.Keys - keys == records.Keys;
      KeyLessOrders();
      var sorted := SortAny(KeyLess, copies);
      StateKeys(env, Value());
      SortedCopies(Value(), ks, copies, sorted);
      snap := Snapshot(2, lastCycle, cycleCount, SnapshotCodec.Present(sorted));
    }

    /** One turn of the loop of PassingFor and PassingForRanked. */
    method PassingLineOf(rec: Record) returns (line: Option<Ranked>)
      requires HistValid(rec.history)
      ensures line == PassingLine(env.config, Value(), rec)
    {
      hide ServabilityGate;
      var gate := DecideServability(rec);
      if !Serves(gate) {
        return None;
      }
      var latency := MAX_LATENCY;
      if rec.hasPassed {
        latency := rec.lastPassedLatency;
      }
      line := Some(Ranked(rec.activeLink, rec.score, latency, rec.hasPassed));
    }

    /** One turn of the loop of NetworkPassing and NetworkPassingRanked. */
    method NetworkLineOf(rec: Record) returns (line: Option<Ranked>)
      requires HistValid(rec.history)
      ensures line == NetworkLine(env.config, Value(), rec)
    {
      hide NetworkState, NetworkLatencyOf;
      var healthy, servable := DecideNetwork(rec);
      if !healthy {
        return None;
      }
      var latency := FindNetworkLatency(rec, servable);
      line := Some(Ranked(rec.activeLink, rec.score, latency, servable));
    }

    /** The loop of PassingFor and PassingForRanked over the records. */
    method CollectPassing() returns (lines: seq<Ranked>, ghost ks: seq<Bytes>)
      requires Valid()
      ensures Visits(ks, records.Keys) && lines == Collected(PassingChoice(env.config, Value()), ks)
    {
      hide PassingLine, StateOk, HistValid, Visits;
      lines, ks := [], [];
      NothingVisited();
      var keys := records.Keys;
      assert records.Keys - keys == {};
      while keys != {}
        invariant keys <= records.Keys && Visits(ks, records.Keys - keys)
        invariant lines == Collected(PassingChoice(env.config, Value()), ks)
        decreases |keys|
      {
        var k :| k in keys;
        VisitsExtended(ks, records.Keys - keys, k);
        assert records.Keys - (keys - {k}) == records.Keys - keys + {k};
        keys := keys - {k};
        assert (ks + [k])[..|ks|] == ks;
        ks := ks + [k];
        var line := PassingLineOf(records[k]);
        if line.Some? {
          lines := lines + [line.value];
        }
      }
      assert records.Keys - keys == records.Keys;
    }

    /** The loop of NetworkPassing and NetworkPassingRanked over the records. */
    method CollectNetworkPassing() returns (lines: seq<Ranked>, ghost ks: seq<Bytes>)
      requires Valid()
      ensures Visits(ks, records.Keys) && lines == Collected(NetworkChoice(env.config, Value()), ks)
    {
      hide NetworkLine, StateOk, HistValid, Visits;
      lines, ks := [], [];
      NothingVisited();
      var keys := records.Keys;
      assert records.Keys - keys == {};
      while keys != {}
        invariant keys <= records.Keys && Visits(ks, records.Keys - keys)
        invariant lines == Collected(NetworkChoice(env.config, Value()), ks)
        decreases |keys|
      {
        var k :| k in keys;
        VisitsExtended(ks, records.Keys - keys, k);
        assert records.Keys - (keys - {k}) == records.Keys - keys + {k};
        keys := keys - {k};
        assert (ks + [k])[..|ks|] == ks;
        ks := ks + [k];
        var line := NetworkLineOf(records[k]);
        if line.Some? {
          lines := lines + [line.value];
        }
      }
      assert records.Keys - keys == records.Keys;
    }

    /** The status letters of the first sixteen samples. */
    method StatusLetters(h: Hist) returns (letters: seq<char>)
      requires HistValid(h)
      ensures letters == Index.HistoryGlyphs(View(h))
    {
      letters := seq(16, i => 0 as char);
      var i := 0;
      while i < h.count && i < 16
        invariant 0 <= i <= 16 && i <= h.count && |letters| == 16
        invariant forall j :: 0 <= j < 16 ==>
          letters[j] == if j < i then Index.StatusGlyph(View(h)[j].status) else 0 as char
      {
        WrapIsModulo(h.start + i, h.capacity);
        var status := h.samples[(h.start + i) % h.capacity].status;
        if status == PASSED {
          letters := letters[i := 'P'];
        } else if status == FAILED {
          letters := letters[i := 'F'];
        } else if status == INCONCLUSIVE {
          letters := letters[i := 'I'];
        }
        i := i + 1;
      }
    }

    /** One turn of the loop of CandidateIndex. */
    method MakeEntry(rec: Record) returns (entry: Index.Entry)
      requires HistValid(rec.history)
      ensures entry == Index.EntryOf(env.config, Value(), rec)
    {
      hide NetworkState, Index.HistoryGlyphs;
      var healthy, servable := DecideNetwork(rec);
      var lastCycleID, lastStatus := 0, "";
      if rec.history.count > 0 {
        var h := rec.history;
        WrapIsModulo(h.start + (h.count - 1), h.capacity);
        var last := h.samples[(h.start + (h.count - 1)) % h.capacity];
        lastCycleID, lastStatus := last.cycleID, last.status;
      } else if rec.latest.status != "" {
        lastStatus := rec.latest.status;
      }
      var active := rec.activeLink;
      if active == "" {
        active := rec.canonicalLink;
      }
      var tier: Index.Tier := 3;
      if servable {
        tier := 1;
      } else if healthy {
        tier := 2;
      }
      var latency := rec.lastPassedLatency;
      if latency == 0 && rec.latest.transportLatency > 0 {
        latency := rec.latest.transportLatency;
      }
      var letters := StatusLetters(rec.history);
      entry := Index.Entry(rec.canonicalLink, active, servable, healthy, rec.hasPassed, rec.score,
                           rec.lastPassedLatency, rec.latest.transportLatency, rec.latest.transportEvidenceKnown,
                           rec.latest.transportOK, lastStatus, rec.latest.category, rec.history.count, lastCycleID,
                           tier, latency, letters, rec.history.capacity, rec.latest.jitter);
    }

    /** CandidateIndex: the entries of all records, in the order of the loop. */
    method CollectEntries() returns (entries: seq<Index.Entry>, ghost ks: seq<Bytes>)
      requires Valid()
      ensures Visits(ks, records.Keys) && entries == Collected(Index.EntryChoice(env.config, Value()), ks)
    {
      hide Index.EntryOf, StateOk, HistValid, Visits;
      entries, ks := [], [];
      NothingVisited();
      var keys := records.Keys;
      assert records.Keys - keys == {};
      while keys != {}
        invariant keys <= records.Keys && Visits(ks, records.Keys - keys)
        invariant entries == Collected(Index.EntryChoice(env.config, Value()), ks)
        decreases |keys|
      {
        var k :| k in keys;
        VisitsExtended(ks, records.Keys - keys, k);
        assert records.Keys - (keys - {k}) == records.Keys - keys + {k};
        keys := keys - {k};
        assert (ks + [k])[..|ks|] == ks;
        ks := ks + [k];
        var entry := MakeEntry(records[k]);
        entries := entries + [entry];
      }
      assert records.Keys - keys == records.Keys;
    }

    /** computeCandidateIndex, but for the presentation IDs: the sorted entries and the two filters. */
    method ComputeIndex() returns (index: Index.Index)
      requires Valid()
      ensures Index.IsFilteredIndex(env.config, Value(), index)
    {
      hide Index.EntryLess, Index.IsFilter, StateOk, Visits, Collected, Sorted;
      Index.EntryLessOrders();
      var entries, ks := CollectEntries();
      var sorted := SortAny(Index.EntryLess, entries);
      assert Index.IsRearranged(env.config, Value(), ks, sorted);
      var gemini, generic := Index.CountTiers(sorted);
      index := Index.Index(sorted, gemini, generic);
    }

    /** The links of the lines, sorted by a comparison. */
    method Rank(less: (Ranked, Ranked) -> bool, lines: seq<Ranked>) returns (links: seq<Bytes>)
      requires RanksLinks(less)
      ensures IsRanking(less, lines, links)
    {
      var sorted := SortAny(less, lines);
      links := [];
      for i := 0 to |sorted|
        invariant links == LinksOf(sorted)[..i]
      {
        links := links + [sorted[i].link];
      }
      assert links == LinksOf(sorted);
    }

    method Passing() returns (links: seq<Bytes>)
      requires Valid()
      ensures IsPassing(env.config, Value(), links)
    {
      var lines, ks := CollectPassing();
      ComparisonsRankLinks();
      links := Rank(LinkLess, lines);
    }

    method PassingRanked() returns (links: seq<Bytes>)
      requires Valid()
      ensures IsPassingRanked(env.config, Value(), links)
    {
      var lines, ks := CollectPassing();
      ComparisonsRankLinks();
      links := Rank(PassLess, lines);
    }

    method NetworkPassing() returns (links: seq<Bytes>)
      requires Valid()
      ensures IsNetworkPassing(env.config, Value(), links)
    {
      var lines, ks := CollectNetworkPassing();
      ComparisonsRankLinks();
      links := Rank(LinkLess, lines);
    }

    method NetworkPassingRanked() returns (links: seq<Bytes>)
      requires Valid()
      ensures IsNetworkPassingRanked(env.config, Value(), links)
    {
      var lines, ks := CollectNetworkPassing();
      ComparisonsRankLinks();
      links := Rank(NetLess, lines);
    }
  }

  lemma StateKeys(env: Env, st: State)
    requires ConfigValid(env.config) && StateOk(env, st)
    ensures forall k :: k in st.records ==> st.records[k].canonicalLink == k
  {
    forall k | k in st.records ensures st.records[k].canonicalLink == k {
      assert RecordOk(env, k, st.records[k]);
    }
  }
}
