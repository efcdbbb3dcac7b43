/** The served lists after a save at a cycle boundary and a load into a fresh store. */
module ReloadedLists {
  import opened Base
  import opened Types
  import opened Score
  import opened History
  import opened Policy
  import opened StoreState
  import opened Ranking
  import opened ClampedRanking
  import opened SaveLoad
  import GateDynamics
  import Retention
  import SnapshotCodec
  import RoundTrip = SnapshotRoundTrip

  // ----- the gates of a record -----

  lemma SameEvidence(c: Config, st: State, st': State, a: Record, b: Record)
    requires HistValid(a.history) && HistValid(b.history) && SameToGates(a, b)
    requires st'.pendingAbsent == st.pendingAbsent && st'.pendingPresent == st.pendingPresent
    ensures AbsentGate(st', b) == AbsentGate(st, a)
    ensures PolicyGate(b) == PolicyGate(a)
    ensures NetworkEvidence(b) == NetworkEvidence(a)
  {
    hide LatestConclusive, View, ScoreUnder;
    StoredOutcomes(View(a.history), View(b.history));
  }

  lemma SameGates(c: Config, st: State, st': State, a: Record, b: Record)
    requires ConfigValid(c) && HistValid(a.history) && HistValid(b.history) && SameToGates(a, b)
    requires st'.pendingAbsent == st.pendingAbsent && st'.pendingPresent == st.pendingPresent
    ensures ServabilityGate(c, st', b) == ServabilityGate(c, st, a)
    ensures NetworkState(c, st', b) == NetworkState(c, st, a)
  {
    hide AbsentGate, PolicyGate, NetworkEvidence;
    SameEvidence(c, st, st', a, b);
    assert |View(b.history)| == |View(a.history)|;
  }

  lemma SameLines(c: Config, st: State, st': State, a: Record, b: Record)
    requires ConfigValid(c) && HistValid(a.history) && HistValid(b.history) && SameToGates(a, b)
    requires st'.pendingAbsent == st.pendingAbsent && st'.pendingPresent == st.pendingPresent
    requires a.hasPassed ==> b.lastPassedLatency == RoundTrip.Positive(a.lastPassedLatency)
    ensures PassingLine(c, st', b) == ClampedLine(PassingLine(c, st, a))
    ensures NetworkLine(c, st', b) == NetworkLine(c, st, a)
  {
    hide ServabilityGate, NetworkState, LastNetworkHealthyLatency;
    SameGates(c, st, st', a, b);
    StoredNetworkLatency(View(a.history), View(b.history));
  }

  // ----- the collected lines -----

  lemma {:induction false} SameCollected(a: Bytes -> Option<Ranked>, b: Bytes -> Option<Ranked>, ks: seq<Bytes>)
    requires forall i :: 0 <= i < |ks| ==> a(ks[i]) == b(ks[i])
    ensures Collected(a, ks) == Collected(b, ks)
  {
    if ks != [] {
      SameCollected(a, b, ks[..|ks|-1]);
    }
  }

  lemma SameList(less: (Ranked, Ranked) -> bool, a: Bytes -> Option<Ranked>, b: Bytes -> Option<Ranked>,
                 keys: set<Bytes>, links: seq<Bytes>)
    requires forall k :: k in keys ==> a(k) == b(k)
    requires IsList(less, a, keys, links)
    ensures IsList(less, b, keys, links)
  {
    var ks :| Visits(ks, keys) && IsRanking(less, Collected(a, ks), links);
    forall i | 0 <= i < |ks| ensures a(ks[i]) == b(ks[i]) {
      assert ks[i] in ks;
    }
    SameCollected(a, b, ks);
  }

  /** What a store looks like to the gates and lists after a save at a cycle boundary and a load. */
  ghost predicate IsReloadOf(env: Env, st: State, loaded: State)
    requires ConfigValid(env.config) && HistoriesValid(st)
  {
    && st.pendingAbsent == {} && st.pendingPresent == {} && loaded.pendingAbsent == {} && loaded.pendingPresent == {}
    && loaded.records.Keys == st.records.Keys
    && forall k :: k in st.records ==> loaded.records[k] == Reloaded(env, st.records[k])
  }

  lemma ReloadedChoices(env: Env, st: State, loaded: State)
    requires EnvOk(env) && StateOk(env, st) && HistoriesValid(st) && IsReloadOf(env, st, loaded)
    ensures HistoriesValid(loaded)
    ensures forall k :: k in st.records ==>
      && PassingChoice(env.config, loaded)(k) == ClampedLine(PassingChoice(env.config, st)(k))
      && NetworkChoice(env.config, loaded)(k) == NetworkChoice(env.config, st)(k)
  {
    hide PassingLine, NetworkLine, Reloaded, ClampedLine;
    assert forall k :: k in loaded.records ==> HistValid(Reloaded(env, st.records[k]).history);
    forall k | k in st.records
      ensures PassingLine(env.config, loaded, loaded.records[k]) ==
              ClampedLine(PassingLine(env.config, st, st.records[k]))
      ensures NetworkLine(env.config, loaded, loaded.records[k]) == NetworkLine(env.config, st, st.records[k])
    {
      var rec := st.records[k];
      assert RecordOk(env, k, rec);
      ReloadedSame(env, k, rec);
      if rec.hasPassed {
        ReloadedLatency(env, k, rec);
      }
      SameLines(env.config, st, loaded, rec, loaded.records[k]);
    }
  }

  // ----- the lists -----

  /** Among candidates of one score, which of two passes comes first. */
  predicate Before(latency: int, link: Bytes, latency': int, link': Bytes) {
    latency < latency' || (latency == latency' && LexLess(link, link'))
  }

  predicate RanksByPass(c: Config, st: State, rec: Record)
    requires HistValid(rec.history)
  {
    IsServable(c, st, rec) && rec.hasPassed
  }

  /** Clamping two cached latencies at 0 does not change which of two different links comes first. */
  predicate LatenciesAgree(a: Record, b: Record) {
    a.activeLink != b.activeLink && a.score == b.score ==>
      (Before(a.lastPassedLatency, a.activeLink, b.lastPassedLatency, b.activeLink) <==>
       Before(RoundTrip.Positive(a.lastPassedLatency), a.activeLink,
              RoundTrip.Positive(b.lastPassedLatency), b.activeLink))
  }

  /** For every two servable candidates that have passed, the order shows after a reload. */
  ghost predicate RankingKept(c: Config, st: State)
    requires HistoriesValid(st)
  {
    forall j, k :: j in st.records && k in st.records
      && RanksByPass(c, st, st.records[j]) && RanksByPass(c, st, st.records[k])
      ==> LatenciesAgree(st.records[j], st.records[k])
  }

  /** In particular if no cached latency is negative. */
  lemma NonNegativeLatenciesKept(c: Config, st: State)
    requires HistoriesValid(st) && forall k :: k in st.records ==> st.records[k].lastPassedLatency >= 0
    ensures RankingKept(c, st)
  {
  }

  lemma LinesAgree(c: Config, st: State, a: Record, b: Record)
    requires HistValid(a.history) && HistValid(b.history) && IsServable(c, st, a) && IsServable(c, st, b)
    ensures OrderKept(PassingLine(c, st, a).value, PassingLine(c, st, b).value) <==>
            (RanksByPass(c, st, a) && RanksByPass(c, st, b) ==> LatenciesAgree(a, b))
  {
    hide ServabilityGate, LexLess;
  }

  /** The condition on records is the one on the lines of the ranking. */
  lemma KeptLines(c: Config, st: State, ks: seq<Bytes>)
    requires HistoriesValid(st) && Visits(ks, st.records.Keys)
    ensures RankingKept(c, st) <==> AllOrdersKept(Collected(PassingChoice(c, st), ks))
  {
    hide OrderKept, LatenciesAgree, RanksByPass;
    var choose := PassingChoice(c, st);
    var lines := Collected(choose, ks);
    if RankingKept(c, st) {
      forall x, y | x in lines && y in lines ensures OrderKept(x, y) {
        var j := CollectedKey(choose, ks, x);
        var k := CollectedKey(choose, ks, y);
        LinesAgree(c, st, st.records[j], st.records[k]);
      }
    }
    if AllOrdersKept(lines) {
      forall j, k | j in st.records && k in st.records
        && RanksByPass(c, st, st.records[j]) && RanksByPass(c, st, st.records[k])
        ensures LatenciesAgree(st.records[j], st.records[k])
      {
        ServableIfRanked(c, st, st.records[j]);
        ServableIfRanked(c, st, st.records[k]);
        KeyCollected(choose, ks, j);
        KeyCollected(choose, ks, k);
        LinesAgree(c, st, st.records[j], st.records[k]);
      }
    }
  }

  lemma ServableIfRanked(c: Config, st: State, rec: Record)
    requires HistValid(rec.history) && RanksByPass(c, st, rec)
    ensures IsServable(c, st, rec)
  {
  }

  /** A ranking by passes of the original state is one of the reloaded state if the orders are kept. */
  lemma KeptRankingReloads(env: Env, st: State, loaded: State, links: seq<Bytes>)
    requires EnvOk(env) && StateOk(env, st) && HistoriesValid(st) && IsReloadOf(env, st, loaded)
    requires RankingKept(env.config, st) && IsPassingRanked(env.config, st, links)
    ensures HistoriesValid(loaded) && IsPassingRanked(env.config, loaded, links)
  {
    hide PassingChoice, NetworkChoice, PassLess, Sorted, RankingKept, AllOrdersKept, ClampedLine, Reloaded;
    ReloadedChoices(env, st, loaded);
    var c, keys := env.config, st.records.Keys;
    var a, b := PassingChoice(c, st), PassingChoice(c, loaded);
    var ks :| Visits(ks, keys) && IsRanking(PassLess, Collected(a, ks), links);
    KeptLines(c, st, ks);
    var rs :| Sorted(PassLess, rs) && multiset(rs) == multiset(Collected(a, ks)) && links == LinksOf(rs);
    RearrangedKept(Collected(a, ks), rs);
    KeptStaysSorted(rs);
    ClampedList(PassLess, a, b, ks, keys, rs);
  }

  lemma SharedRankingIsKept(env: Env, st: State, loaded: State, links: seq<Bytes>)
    requires EnvOk(env) && StateOk(env, st) && HistoriesValid(st) && IsReloadOf(env, st, loaded)
    requires HistoriesValid(loaded)
    requires IsPassingRanked(env.config, st, links) && IsPassingRanked(env.config, loaded, links)
    ensures RankingKept(env.config, st)
  {
    hide PassingChoice, NetworkChoice, PassLess, Sorted, RankingKept, AllOrdersKept, ClampedLine, Reloaded;
    ReloadedChoices(env, st, loaded);
    var c, keys := env.config, st.records.Keys;
    var ks :| Visits(ks, keys) && IsRanking(PassLess, Collected(PassingChoice(c, st), ks), links);
    SharedRankingKeepsOrder(PassingChoice(c, st), PassingChoice(c, loaded), keys, ks, links);
    KeptLines(c, st, ks);
  }

  lemma SomeVisit(keys: set<Bytes>) returns (ks: seq<Bytes>)
    ensures Visits(ks, keys)
    decreases |keys|
  {
    if keys == {} {
      ks := [];
    } else {
      var k :| k in keys;
      var earlier := SomeVisit(keys - {k});
      VisitsExtended(earlier, keys - {k}, k);
      ks := earlier + [k];
      assert keys - {k} + {k} == keys;
    }
  }

  lemma SomePassingRanked(c: Config, st: State) returns (links: seq<Bytes>)
    requires HistoriesValid(st)
    ensures IsPassingRanked(c, st, links)
  {
    hide PassingChoice, PassLess, LinkLess, NetLess;
    ComparisonsRankLinks();
    var ks := SomeVisit(st.records.Keys);
    var lines := Collected(PassingChoice(c, st), ks);
    SortBySorts(PassLess, lines);
    links := LinksOf(SortBy(PassLess, lines));
    assert IsRanking(PassLess, lines, links);
  }

  /** The ranking by passes survives if and only if no two latencies change their order. */
  lemma ReloadedRanking(env: Env, st: State, loaded: State, links: seq<Bytes>)
    requires EnvOk(env) && StateOk(env, st) && HistoriesValid(st) && IsReloadOf(env, st, loaded)
    requires HistoriesValid(loaded)
    ensures if RankingKept(env.config, st)
            then IsPassingRanked(env.config, st, links) <==> IsPassingRanked(env.config, loaded, links)
            else !(IsPassingRanked(env.config, st, links) && IsPassingRanked(env.config, loaded, links))
  {
    hide RankingKept, IsPassingRanked, Reloaded;
    if RankingKept(env.config, st) {
      var own := SomePassingRanked(env.config, st);
      KeptRankingReloads(env, st, loaded, own);
      ListsDetermined(env.config, st, own, links);
      ListsDetermined(env.config, loaded, own, links);
    } else if IsPassingRanked(env.config, st, links) && IsPassingRanked(env.config, loaded, links) {
      SharedRankingIsKept(env, st, loaded, links);
    }
  }

  lemma ReloadedUnranked(env: Env, st: State, loaded: State, links: seq<Bytes>)
    requires EnvOk(env) && StateOk(env, st) && HistoriesValid(st) && IsReloadOf(env, st, loaded)
    requires HistoriesValid(loaded)
    ensures IsPassing(env.config, st, links) <==> IsPassing(env.config, loaded, links)
  {
    hide PassingChoice, NetworkChoice, LinkLess, PassLess, NetLess, IsList, Reloaded, ClampedLine;
    ReloadedChoices(env, st, loaded);
    var c, keys := env.config, st.records.Keys;
    var a, b := PassingChoice(c, st), PassingChoice(c, loaded);
    var own := SomePassing(c, st);
    ClampedUnranked(a, b, keys, own);
    ListsDetermined(c, st, own, links);
    ListsDetermined(c, loaded, own, links);
  }

  lemma SomePassing(c: Config, st: State) returns (links: seq<Bytes>)
    requires HistoriesValid(st)
    ensures IsPassing(c, st, links)
  {
    hide PassingChoice, PassLess, LinkLess, NetLess;
    ComparisonsRankLinks();
    var ks := SomeVisit(st.records.Keys);
    var lines := Collected(PassingChoice(c, st), ks);
    SortBySorts(LinkLess, lines);
    links := LinksOf(SortBy(LinkLess, lines));
    assert IsRanking(LinkLess, lines, links);
  }

  lemma ReloadedNetwork(env: Env, st: State, loaded: State, links: seq<Bytes>)
    requires EnvOk(env) && StateOk(env, st) && HistoriesValid(st) && IsReloadOf(env, st, loaded)
    requires HistoriesValid(loaded)
    ensures IsNetworkPassing(env.config, st, links) <==> IsNetworkPassing(env.config, loaded, links)
    ensures IsNetworkPassingRanked(env.config, st, links) <==> IsNetworkPassingRanked(env.config, loaded, links)
  {
    hide PassingChoice, NetworkChoice, LinkLess, PassLess, NetLess, IsList, Reloaded, ClampedLine;
    ReloadedChoices(env, st, loaded);
    var c, keys := env.config, st.records.Keys;
    SameLists(LinkLess, NetworkChoice(c, st), NetworkChoice(c, loaded), keys, links);
    SameLists(NetLess, NetworkChoice(c, st), NetworkChoice(c, loaded), keys, links);
  }

  /** What a save at a cycle boundary and a load into a fresh store with the same policy keep of the
      lists: three of them in any case, the ranking by passes if and only if clamping the negative
      latencies changes no order. */
  ghost predicate ListsSurvive(c: Config, st: State, loaded: State, links: seq<Bytes>)
    requires HistoriesValid(st) && HistoriesValid(loaded)
  {
    && (IsPassing(c, st, links) <==> IsPassing(c, loaded, links))
    && (IsNetworkPassing(c, st, links) <==> IsNetworkPassing(c, loaded, links))
    && (IsNetworkPassingRanked(c, st, links) <==> IsNetworkPassingRanked(c, loaded, links))
    && if RankingKept(c, st)
       then IsPassingRanked(c, st, links) <==> IsPassingRanked(c, loaded, links)
       else !(IsPassingRanked(c, st, links) && IsPassingRanked(c, loaded, links))
  }

  /** Saving at a cycle boundary and loading restores a store whose cached fields are again what their
      histories give, and keeps its lists as said above. */
  lemma SaveLoadKeepsLists(env: Env, rt: SnapshotCodec.Runtime, st: State, snap: Snapshot, links: seq<Bytes>)
    requires EnvOk(env) && StateOk(env, st) && HistoriesValid(st)
    requires st.pendingAbsent == {} && st.pendingPresent == {}
    requires IsSaved(st, snap) && RoundTrip.SnapshotOk(rt, snap) && BuffersMade(rt, st)
    ensures SnapshotCodec.FastDecode(rt, SnapshotCodec.SnapshotText(rt, snap)).Read?
    ensures var loaded := LoadedText(env, rt, snap);
            StateOk(env, loaded) && HistoriesValid(loaded) && ListsSurvive(env.config, st, loaded, links)
  {
    hide SnapshotCodec.FastDecode, SnapshotCodec.SnapshotText, RankingKept, Reloaded, LoadState, IsSaved,
         IsPassing, IsPassingRanked, IsNetworkPassing, IsNetworkPassingRanked, StateOk, RoundTrip.SnapshotOk;
    LoadedFromText(env, rt, st, snap);
    var decoded := SnapshotCodec.FastDecode(rt, SnapshotCodec.SnapshotText(rt, snap)).snap;
    LoadEstablishesStateOk(env, NEW_STATE, decoded);
    var loaded := LoadState(env, NEW_STATE, decoded);
    assert IsReloadOf(env, st, loaded);
    ReloadedUnranked(env, st, loaded, links);
    ReloadedNetwork(env, st, loaded, links);
    ReloadedRanking(env, st, loaded, links);
  }

  lemma SameLists(less: (Ranked, Ranked) -> bool, a: Bytes -> Option<Ranked>, b: Bytes -> Option<Ranked>,
                  keys: set<Bytes>, links: seq<Bytes>)
    requires forall k :: k in keys ==> a(k) == b(k)
    ensures IsList(less, a, keys, links) <==> IsList(less, b, keys, links)
  {
    hide IsList;
    if IsList(less, a, keys, links) {
      SameList(less, a, b, keys, links);
    }
    if IsList(less, b, keys, links) {
      SameList(less, b, a, keys, links);
    }
  }

  /** The same for every run of a new store that has just finished a cycle. */
  lemma ReachableStoreReloads(env: Env, rt: SnapshotCodec.Runtime, es: seq<Retention.Event>, now: Time,
                              snap: Snapshot, links: seq<Bytes>)
    requires EnvOk(env) && IsSaved(Retention.Run(env, es + [Retention.Finish(now)]), snap)
    requires RoundTrip.SnapshotOk(rt, snap) && BuffersMade(rt, Retention.Run(env, es + [Retention.Finish(now)]))
    ensures SnapshotCodec.FastDecode(rt, SnapshotCodec.SnapshotText(rt, snap)).Read?
    ensures var st := Retention.Run(env, es + [Retention.Finish(now)]);
            var loaded := LoadedText(env, rt, snap);
            StateOk(env, loaded) && HistoriesValid(loaded) && ListsSurvive(env.config, st, loaded, links)
  {
    hide SnapshotCodec.FastDecode, SnapshotCodec.SnapshotText, RoundTrip.SnapshotOk, LoadState, IsSaved,
         ListsSurvive, StateOk, BuffersMade;
    var all := es + [Retention.Finish(now)];
    var st := Retention.Run(env, all);
    Retention.RunStateOk(env, all);
    assert all[|all|-1] == Retention.Finish(now);
    assert st.pendingAbsent == {} && st.pendingPresent == {};
    SaveLoadKeepsLists(env, rt, st, snap, links);
  }

  // ----- a ranking that changes -----

  function PassOf(link: Bytes, latency: int): Result {
    NO_RESULT.(link := link, status := PASSED, category := NO_ERROR, latency := latency)
  }

  /** A record after its first probe, a pass. */
  lemma FirstPass(env: Env, k: Bytes, link: Bytes, latency: int, cycleID: nat, now: Time)
    requires EnvOk(env)
    ensures var r := PassOf(link, latency);
            var rec := Recorded(env.config, NewRecord(env.config, k, link), r, SampleFrom(r, None, cycleID, now));
            && HistValid(rec.history) && rec.history.count == 1 && EndsIn(IsPassed, View(rec.history), 4)
            && rec.activeLink == link && rec.canonicalLink == k && rec.absentCycles == 0
            && rec.hasPassed && rec.lastPassedLatency == latency && rec.score == 1.0
  {
    hide Normalized, PreviouslyPassed, ConsecutiveInconclusive;
    StatusesDiffer();
    var r := PassOf(link, latency);
    var m := SampleFrom(r, None, cycleID, now);
    var empty := NewRecord(env.config, k, link);
    PushedView(empty.history, m);
    var rec := Recorded(env.config, empty, r, m);
    assert View(rec.history) == [m];
    LastWhereIs(IsPassed, View(rec.history), 0);
    ScoreInRange(env.config, rec.history, 1.0, 1.0);
  }

  /** Two candidates that pass in one cycle, with latencies below zero. */
  const TWO_PASSES: seq<Retention.Event> :=
    [Retention.Start({"a", "b"}), Retention.Put(PassOf("a", -1), None, 1), Retention.Put(PassOf("b", -2), None, 1),
     Retention.Finish(1)]

  lemma RunAppended(env: Env, es: seq<Retention.Event>, e: Retention.Event)
    requires ConfigValid(env.config)
    ensures Retention.Run(env, es + [e]) == Retention.Step(env, Retention.Run(env, es), e)
  {
    assert (es + [e])[..|es + [e]|-1] == es;
  }

  lemma TwoPassesRun(env: Env)
    requires EnvOk(env)
    ensures HistoriesValid(NEW_STATE)
    ensures var st0 := Retention.Step(env, NEW_STATE, TWO_PASSES[0]);
            var st1 := Retention.Step(env, st0, TWO_PASSES[1]);
            var st2 := Retention.Step(env, st1, TWO_PASSES[2]);
            Retention.Run(env, TWO_PASSES) == Retention.Step(env, st2, TWO_PASSES[3])
  {
    hide Retention.Step;
    var es := TWO_PASSES;
    assert Retention.Run(env, []) == NEW_STATE;
    RunAppended(env, [], es[0]);
    RunAppended(env, [es[0]], es[1]);
    RunAppended(env, [es[0], es[1]], es[2]);
    RunAppended(env, [es[0], es[1], es[2]], es[3]);
    assert [] + [es[0]] == [es[0]] && [es[0]] + [es[1]] == [es[0], es[1]];
    assert [es[0], es[1]] + [es[2]] == [es[0], es[1], es[2]];
    assert [es[0], es[1], es[2]] + [es[3]] == es;
  }

  lemma TwoPassesRecords(env: Env)
    requires EnvOk(env) && env.canon("a") == "a" && env.canon("b") == "b"
    ensures var st := Retention.Run(env, TWO_PASSES);
            && st.records.Keys == {"a", "b"} && st.pendingAbsent == {} && st.pendingPresent == {}
            && PassedOnce(st.records["a"], "a", -1) && PassedOnce(st.records["b"], "b", -2)
  {
    hide Recorded, NewRecord, SampleFrom, PassedOnce;
    TwoPassesRun(env);
    StatusesDiffer();
    assert Completed(env, PassOf("a", -1)) == PassOf("a", -1);
    assert Completed(env, PassOf("b", -2)) == PassOf("b", -2);
    assert "a" != "b";
    var st0 := StartState(NEW_STATE, {"a", "b"});
    var st1 := PutState(env, st0, PassOf("a", -1), None, 1);
    var st2 := PutState(env, st1, PassOf("b", -2), None, 1);
    FirstPassedOnce(env, "a", -1, 0, 1);
    FirstPassedOnce(env, "b", -2, 0, 1);
    PassedOnceFinished(st2.records["a"], "a", -1);
    PassedOnceFinished(st2.records["b"], "b", -2);
  }

  ghost predicate PassedOnce(rec: Record, link: Bytes, latency: int) {
    && HistValid(rec.history) && rec.history.count == 1 && EndsIn(IsPassed, View(rec.history), 4)
    && rec.activeLink == link && rec.canonicalLink == link && rec.absentCycles == 0
    && rec.hasPassed && rec.lastPassedLatency == latency && rec.score == 1.0
  }

  lemma FirstPassedOnce(env: Env, link: Bytes, latency: int, cycleID: nat, now: Time)
    requires EnvOk(env)
    ensures var r := PassOf(link, latency);
            var rec := Recorded(env.config, NewRecord(env.config, link, link), r, SampleFrom(r, None, cycleID, now));
            PassedOnce(rec, link, latency)
  {
    hide Recorded, NewRecord, SampleFrom;
    FirstPass(env, link, link, latency, cycleID, now);
  }

  lemma PassedOnceFinished(rec: Record, link: Bytes, latency: int)
    requires PassedOnce(rec, link, latency)
    ensures PassedOnce(rec.(absentCycles := 0), link, latency)
  {
  }

  lemma PassedOnceLine(env: Env, st: State, rec: Record, link: Bytes, latency: int)
    requires ConfigValid(env.config) && env.config == DEFAULT_CONFIG && RecordOk(env, link, rec)
    requires PassedOnce(rec, link, latency) && st.pendingAbsent == {}
    ensures PassingLine(env.config, st, rec) == Some(Ranked(link, 1.0, latency, true))
    ensures RanksByPass(env.config, st, rec)
  {
    hide ServabilityGate, RecordOk;
    GateDynamics.PassedRecordServable(env, st, link, rec);
  }

  /** Under the default policy, two candidates that pass with latencies -1 and -2 are ranked the other way
      round after a save and a load. */
  lemma RankingChanges(env: Env)
    requires EnvOk(env) && env.config == DEFAULT_CONFIG && env.canon("a") == "a" && env.canon("b") == "b"
    ensures var st := Retention.Run(env, TWO_PASSES);
            && !RankingKept(env.config, st) && IsPassingRanked(env.config, st, ["b", "a"])
            && forall loaded :: HistoriesValid(loaded) && IsReloadOf(env, st, loaded) ==>
                 IsPassingRanked(env.config, loaded, ["a", "b"])
  {
    hide RecordOk, PassedOnce, IsServable, PassingLine, Reloaded, NetworkLine;
    var st := Retention.Run(env, TWO_PASSES);
    TwoPassesRecords(env);
    Retention.RunStateOk(env, TWO_PASSES);
    PassedOnceLine(env, st, st.records["a"], "a", -1);
    PassedOnceLine(env, st, st.records["b"], "b", -2);
    var a, b := PassingChoice(env.config, st)("a"), PassingChoice(env.config, st)("b");
    TwoLines(env.config, st, a.value, b.value);
    assert !OrderKept(a.value, b.value);
    LinesAgree(env.config, st, st.records["a"], st.records["b"]);
    forall loaded | HistoriesValid(loaded) && IsReloadOf(env, st, loaded)
      ensures IsPassingRanked(env.config, loaded, ["a", "b"])
    {
      ReloadedChoices(env, st, loaded);
      TwoLines(env.config, loaded, Clamped(a.value), Clamped(b.value));
    }
  }

  lemma TwoSorted(x: Ranked, y: Ranked)
    requires PassLess(x, y)
    ensures Sorted(PassLess, [x, y]) && LinksOf([x, y]) == [x.link, y.link]
  {
    hide PassLess;
    PassLessIsTotal(x, y, x);
  }

  lemma TwoLines(c: Config, st: State, x: Ranked, y: Ranked)
    requires HistoriesValid(st) && st.records.Keys == {"a", "b"} && x.link == "a" && y.link == "b"
    requires PassingChoice(c, st)("a") == Some(x) && PassingChoice(c, st)("b") == Some(y)
    ensures PassLess(y, x) ==> IsPassingRanked(c, st, ["b", "a"])
    ensures PassLess(x, y) ==> IsPassingRanked(c, st, ["a", "b"])
  {
    hide PassingChoice, PassLess;
    var ks: seq<Bytes>, choose := ["a", "b"], PassingChoice(c, st);
    assert "a" != "b";
    assert Visits(ks, st.records.Keys);
    assert ks[..1] == ["a"] && ks[..1][..0] == [];
    assert Collected(choose, ks[..1]) == [x] && Collected(choose, ks) == [x, y];
    if PassLess(y, x) {
      TwoSorted(y, x);
      assert multiset([y, x]) == multiset([x, y]);
      assert IsRanking(PassLess, Collected(choose, ks), ["b", "a"]);
    }
    if PassLess(x, y) {
      TwoSorted(x, y);
      assert IsRanking(PassLess, Collected(choose, ks), ["a", "b"]);
    }
  }
}
