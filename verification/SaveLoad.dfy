/** Saving at a cycle boundary and loading into a fresh store: what of each record survives the text of
    the snapshot. */
module SaveLoad {
  import opened Base
  import opened Types
  import opened Score
  import opened History
  import opened Policy
  import opened StoreState
  import opened Ranking
  import SnapshotCodec
  import RoundTrip = SnapshotRoundTrip

  // ----- saving -----

  /** The history as Save copies it: its samples in order, from position 0. */
  function Compacted(h: Hist): Hist
    requires HistValid(h)
  {
    if h.count > 0 then h.(samples := View(h), start := 0) else h.(samples := [])
  }

  function SavedRecord(rec: Record): Record
    requires HistValid(rec.history)
  {
    rec.(history := Compacted(rec.history))
  }

  function SnapshotOf(st: State, ks: seq<Bytes>): Snapshot
    requires forall i :: 0 <= i < |ks| ==> ks[i] in st.records && HistValid(st.records[ks[i]].history)
  {
    Snapshot(2, st.lastCycle, st.cycleCount,
             seq(|ks|, i requires 0 <= i < |ks| => Some(SavedRecord(st.records[ks[i]]))))
  }

  lemma VisitedRecords(st: State, ks: seq<Bytes>)
    requires HistoriesValid(st) && Visits(ks, st.records.Keys)
    ensures forall i :: 0 <= i < |ks| ==> ks[i] in st.records && HistValid(st.records[ks[i]].history)
  {
    forall i | 0 <= i < |ks| ensures ks[i] in st.records {
      assert ks[i] in ks;
    }
  }

  /** A snapshot of this state: every record once, sorted by key. */
  ghost predicate IsSaved(st: State, snap: Snapshot)
    requires HistoriesValid(st)
  {
    exists ks :: Visits(ks, st.records.Keys) && Sorted(LexLess, ks) && IsSnapshotOf(st, ks, snap)
  }

  ghost predicate IsSnapshotOf(st: State, ks: seq<Bytes>, snap: Snapshot)
    requires HistoriesValid(st) && Visits(ks, st.records.Keys)
  {
    VisitedRecords(st, ks);
    snap == SnapshotOf(st, ks)
  }

  // ----- one record -----

  /** A record after Save and Load. */
  function Reloaded(env: Env, rec: Record): (r: Record)
    requires ConfigValid(env.config) && HistValid(rec.history)
    ensures HistValid(r.history)
  {
    LoadedRecord(env, RoundTrip.StoredRecord(SavedRecord(rec)))
  }

  lemma ReloadedHistory(env: Env, h: Hist)
    requires ConfigValid(env.config) && HistValid(h) && h.capacity <= env.config.historyCapacity
    ensures var r := Normalized(RoundTrip.StoredHist(Compacted(h)), env.config.historyCapacity);
            r.capacity == h.capacity && View(r) == MapSeq(RoundTrip.StoredSample, View(h))
  {
    var s := RoundTrip.StoredHist(Compacted(h));
    NormalizedKeepsRecent(s, env.config.historyCapacity);
    var stored := MapSeq(RoundTrip.StoredSample, View(h));
    assert s.samples == stored;
    assert Readable(s) == stored;
  }

  lemma LastWhereSame(p: Sample -> bool, v: seq<Sample>, w: seq<Sample>)
    requires |v| == |w| && forall i :: 0 <= i < |v| ==> p(v[i]) == p(w[i])
    ensures LastWhere(p, v) == LastWhere(p, w)
  {
    var at := LastWhere(p, v);
    if at.Some? {
      LastWhereIs(p, w, at.value);
    }
  }

  /** What the scans see of a stored view. */
  lemma StoredScans(v: seq<Sample>, w: seq<Sample>)
    requires w == MapSeq(RoundTrip.StoredSample, v)
    ensures LastWhere(IsPassed, v) == LastWhere(IsPassed, w)
    ensures LastWhere(IsConclusive, v) == LastWhere(IsConclusive, w)
    ensures LastWhere(SettlesNetwork, v) == LastWhere(SettlesNetwork, w)
    ensures LastWhere(NotInconclusive, v) == LastWhere(NotInconclusive, w)
  {
    hide LastWhere;
    LastWhereSame(IsPassed, v, w);
    LastWhereSame(IsConclusive, v, w);
    LastWhereSame(SettlesNetwork, v, w);
    LastWhereSame(NotInconclusive, v, w);
  }

  lemma StoredOutcomes(v: seq<Sample>, w: seq<Sample>)
    requires w == MapSeq(RoundTrip.StoredSample, v)
    ensures PreviouslyPassed(v) == PreviouslyPassed(w)
    ensures ConsecutiveInconclusive(v) == ConsecutiveInconclusive(w)
    ensures LatestConclusive(w) ==
            match LatestConclusive(v) case None => None case Some(m) => Some(RoundTrip.StoredSample(m))
  {
    hide LastWhere;
    StoredScans(v, w);
  }

  lemma StoredLatency(m: Sample)
    ensures NetworkLatency(RoundTrip.StoredSample(m)) == NetworkLatency(m)
  {
  }

  lemma StoredNetworkLatency(v: seq<Sample>, w: seq<Sample>)
    requires w == MapSeq(RoundTrip.StoredSample, v)
    ensures LastNetworkHealthyLatency(v) == LastNetworkHealthyLatency(w)
  {
    hide LastWhere, NetworkLatency, RoundTrip.StoredSample;
    StoredScans(v, w);
    match LastWhere(SettlesNetwork, v)
    case None =>
    case Some(i) => StoredLatency(v[i]);
  }

  lemma StoredScore(c: Config, h: Hist, r: Hist)
    requires c.weights.Some? && HistValid(h) && HistValid(r) && View(r) == MapSeq(RoundTrip.StoredSample, View(h))
    ensures ScoreUnder(c, r) == ScoreUnder(c, h)
  {
    assert WeightsOf(c.weights.value, "gemini", View(r)) == WeightsOf(c.weights.value, "gemini", View(h));
  }

  /** What the gates and the lists read of a record is the same for both. */
  ghost predicate SameToGates(a: Record, b: Record)
    requires HistValid(a.history) && HistValid(b.history)
  {
    && b.canonicalLink == a.canonicalLink && b.activeLink == a.activeLink && b.score == a.score
    && (b.absentCycles > 0 <==> a.absentCycles > 0) && b.hasPassed == a.hasPassed
    && View(b.history) == MapSeq(RoundTrip.StoredSample, View(a.history))
    && b.latest.status == a.latest.status && b.latest.category == a.latest.category
    && b.latest.latency == a.latest.latency && b.latest.transportOK == a.latest.transportOK
    && b.latest.transportEvidenceKnown == a.latest.transportEvidenceKnown
    && b.latest.transportLatency == RoundTrip.Positive(a.latest.transportLatency)
    && (a.history.count > 0 ==>
          && b.latest.previouslyPassed == a.latest.previouslyPassed
          && b.latest.consecutiveInconclusive == a.latest.consecutiveInconclusive)
  }

  lemma ReloadedSame(env: Env, k: Bytes, rec: Record)
    requires EnvOk(env) && RecordOk(env, k, rec)
    ensures SameToGates(rec, Reloaded(env, rec))
  {
    hide ScoreUnder, LastPassedLatency, PreviouslyPassed, ConsecutiveInconclusive, Normalized;
    ReloadedHistory(env, rec.history);
    var r := Reloaded(env, rec);
    StoredOutcomes(View(rec.history), View(r.history));
    StoredScore(env.config, rec.history, r.history);
    HasPassedSame(View(rec.history), View(r.history));
  }

  lemma HasPassedSame(v: seq<Sample>, w: seq<Sample>)
    requires w == MapSeq(RoundTrip.StoredSample, v)
    ensures LastPassedLatency(v).Some? == LastPassedLatency(w).Some?
    ensures LastPassedLatency(v).Some? ==> LastPassedLatency(w).value == RoundTrip.Positive(LastPassedLatency(v).value)
  {
    StoredScans(v, w);
  }

  /** The cached latency of a record comes back if and only if it is not negative; every other
      cached field comes back in any case. */
  lemma CachedFieldsSurvive(env: Env, k: Bytes, rec: Record)
    requires EnvOk(env) && RecordOk(env, k, rec)
    ensures var r := Reloaded(env, rec);
            && r.score == rec.score && r.hasPassed == rec.hasPassed
            && (r.lastPassedLatency == rec.lastPassedLatency <==> rec.lastPassedLatency >= 0)
    ensures Reloaded(env, rec) == Derived(env.config, Reloaded(env, rec))
  {
    hide ScoreUnder, Normalized;
    ReloadedSame(env, k, rec);
    HasPassedSame(View(rec.history), View(Reloaded(env, rec).history));
  }

  // ----- the whole store -----

  lemma {:induction false} FlattenPresent(rs: seq<Option<Record>>)
    requires forall i :: 0 <= i < |rs| ==> rs[i].Some?
    ensures RoundTrip.Kept(rs) == seq(|rs|, i requires 0 <= i < |rs| => RoundTrip.StoredRecord(rs[i].value))
  {
    var stored := seq(|rs|, i requires 0 <= i < |rs| => RoundTrip.StoredRecord(rs[i].value));
    RoundTrip.FlattenSingles(RoundTrip.KeptPieces(rs), stored);
  }

  lemma ReloadedKey(env: Env, k: Bytes, rec: Record)
    requires EnvOk(env) && RecordOk(env, k, rec)
    ensures Reloaded(env, rec).canonicalLink == k
  {
    hide Reloaded;
    ReloadedSame(env, k, rec);
  }

  lemma {:induction false} ReloadedRecords(env: Env, st: State, ks: seq<Bytes>, rs: seq<Option<Record>>)
    requires EnvOk(env) && StateOk(env, st) && HistoriesValid(st) && |rs| == |ks|
    requires forall i, j :: 0 <= i < j < |ks| ==> ks[i] != ks[j]
    requires forall i :: 0 <= i < |ks| ==> ks[i] in st.records
    requires forall i :: 0 <= i < |ks| ==> rs[i] == Some(RoundTrip.StoredRecord(SavedRecord(st.records[ks[i]])))
    ensures forall k :: k in LoadedRecords(env, rs) <==> k in ks
    ensures forall k :: k in ks ==> LoadedRecords(env, rs)[k] == Reloaded(env, st.records[k])
  {
    hide LoadedRecord, RoundTrip.StoredRecord, SavedRecord, RecordOk, HistValid;
    if ks != [] {
      var n := |ks| - 1;
      ReloadedRecords(env, st, ks[..n], rs[..n]);
      var rec := st.records[ks[n]];
      assert RecordOk(env, ks[n], rec);
      ReloadedKey(env, ks[n], rec);
      assert LoadedRecord(env, rs[n].value) == Reloaded(env, rec);
      assert ks == ks[..n] + [ks[n]];
    }
  }

  /** The text of a snapshot, decoded and loaded into a fresh store. */
  function LoadedText(env: Env, rt: SnapshotCodec.Runtime, snap: Snapshot): State
    requires ConfigValid(env.config) && SnapshotCodec.FastDecode(rt, SnapshotCodec.SnapshotText(rt, snap)).Read?
  {
    LoadState(env, NEW_STATE, SnapshotCodec.FastDecode(rt, SnapshotCodec.SnapshotText(rt, snap)).snap)
  }

  /** The buffers of the histories are there, so slices of their size can be made. */
  ghost predicate BuffersMade(rt: SnapshotCodec.Runtime, st: State) {
    forall k :: k in st.records ==> st.records[k].history.capacity <= rt.maxCount
  }

  lemma SavedCount(rec: Record)
    requires HistValid(rec.history)
    ensures 0 <= SavedRecord(rec).history.count <= rec.history.capacity
  {
  }

  /** The text of a saved state decodes to its records as they were stored. */
  lemma DecodedText(rt: SnapshotCodec.Runtime, st: State, ks: seq<Bytes>, snap: Snapshot)
    returns (rs: seq<Option<Record>>)
    requires HistoriesValid(st) && Visits(ks, st.records.Keys) && IsSnapshotOf(st, ks, snap)
    requires RoundTrip.SnapshotOk(rt, snap) && BuffersMade(rt, st)
    ensures SnapshotCodec.FastDecode(rt, SnapshotCodec.SnapshotText(rt, snap)) ==
            SnapshotCodec.Read(Snapshot(2, st.lastCycle, st.cycleCount, rs))
    ensures |rs| == |ks| && forall i :: 0 <= i < |ks| ==>
      ks[i] in st.records && rs[i] == Some(RoundTrip.StoredRecord(SavedRecord(st.records[ks[i]])))
  {
    hide SnapshotCodec.FastDecode, SnapshotCodec.SnapshotText, RoundTrip.Kept, RoundTrip.StoredRecord, SavedRecord,
         RoundTrip.SnapshotOk;
    VisitedRecords(st, ks);
    forall i | 0 <= i < |snap.records| ensures SnapshotCodec.CanMake(rt, snap.records[i].value.history.count) {
      SavedCount(st.records[ks[i]]);
    }
    RoundTrip.SnapshotRoundTrips(rt, snap);
    FlattenPresent(snap.records);
    rs := SnapshotCodec.Present(RoundTrip.Kept(snap.records));
  }

  /** Decoding the text of a saved state and loading it gives every record, reloaded. */
  lemma LoadedFromText(env: Env, rt: SnapshotCodec.Runtime, st: State, snap: Snapshot)
    requires EnvOk(env) && StateOk(env, st) && HistoriesValid(st) && IsSaved(st, snap)
    requires RoundTrip.SnapshotOk(rt, snap) && BuffersMade(rt, st)
    ensures SnapshotCodec.FastDecode(rt, SnapshotCodec.SnapshotText(rt, snap)).Read?
    ensures var loaded := LoadedText(env, rt, snap);
            && loaded.records.Keys == st.records.Keys
            && (forall k :: k in st.records ==> loaded.records[k] == Reloaded(env, st.records[k]))
            && loaded.pendingAbsent == {} && loaded.pendingPresent == {}
            && loaded.lastCycle == st.lastCycle && loaded.cycleCount == st.cycleCount
  {
    hide SnapshotCodec.FastDecode, SnapshotCodec.SnapshotText, LoadedRecords, Reloaded, RoundTrip.StoredRecord,
         SavedRecord, RoundTrip.SnapshotOk, StateOk, IsSnapshotOf;
    var ks :| Visits(ks, st.records.Keys) && Sorted(LexLess, ks) && IsSnapshotOf(st, ks, snap);
    var rs := DecodedText(rt, st, ks, snap);
    ReloadedRecords(env, st, ks, rs);
  }

  /** Why the condition on latencies is needed: a pass of latency -1 comes back with latency 0. */
  lemma NegativeLatencyIsLost(env: Env)
    requires EnvOk(env)
    ensures var r := NO_RESULT.(status := PASSED, category := NO_ERROR, latency := -1);
            var rec := PutState(env, NEW_STATE, r, None, ZERO_TIME).records[""];
            HistValid(rec.history) && rec.lastPassedLatency == -1 && Reloaded(env, rec).lastPassedLatency == 0
  {
    hide ScoreUnder, Reloaded;
    var r := NO_RESULT.(status := PASSED, category := NO_ERROR, latency := -1);
    var st := PutState(env, NEW_STATE, r, None, ZERO_TIME);
    PutKeepsStateOk(env, NEW_STATE, r, None, ZERO_TIME);
    StatusesDiffer();
    var rec := st.records[""];
    var h := NewHistory(env.config.historyCapacity);
    var m := SampleFrom(Completed(env, r), None, 0, ZERO_TIME);
    PushedView(h, m);
    assert View(rec.history) == [m];
    LastWhereIs(IsPassed, View(rec.history), 0);
    ReloadedLatency(env, "", rec);
  }

  lemma ReloadedLatency(env: Env, k: Bytes, rec: Record)
    requires EnvOk(env) && RecordOk(env, k, rec) && rec.hasPassed
    ensures Reloaded(env, rec).lastPassedLatency == RoundTrip.Positive(rec.lastPassedLatency)
  {
    hide ScoreUnder, Normalized;
    ReloadedSame(env, k, rec);
    HasPassedSame(View(rec.history), View(Reloaded(env, rec).history));
  }
}
