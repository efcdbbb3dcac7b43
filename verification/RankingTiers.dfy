/** How the four lists relate: what serves Gemini is network-healthy, and leads the network ranking. */
module RankingTiers {
  import opened Base
  import opened Types
  import opened Score
  import opened History
  import opened Policy
  import opened StoreState
  import opened Ranking

  // ----- Passing is part of NetworkPassing -----

  lemma {:induction false} PassingLinesHealthy(c: Config, st: State, ks: seq<Bytes>)
    requires HistoriesValid(st)
    ensures multiset(LinksOf(Collected(PassingChoice(c, st), ks))) <=
            multiset(LinksOf(Collected(NetworkChoice(c, st), ks)))
  {
    if ks != [] {
      var k := ks[|ks|-1];
      PassingLinesHealthy(c, st, ks[..|ks|-1]);
      if k in st.records {
        NetworkStateServable(c, st, st.records[k]);
      }
      LinksAppended(PassingChoice(c, st), ks);
      LinksAppended(NetworkChoice(c, st), ks);
    }
  }

  lemma LinksAppended(choose: Bytes -> Option<Ranked>, ks: seq<Bytes>)
    requires ks != []
    ensures LinksOf(Collected(choose, ks)) ==
            LinksOf(Collected(choose, ks[..|ks|-1])) + match choose(ks[|ks|-1]) case None => [] case Some(x) => [x.link]
  {
    var line := choose(ks[|ks|-1]);
    var earlier := Collected(choose, ks[..|ks|-1]);
    if line.Some? {
      MapSeqConcat(LinkOf, earlier, [line.value]);
    }
  }

  /** Every candidate that Passing lists is listed by NetworkPassing as well. */
  lemma PassingIsHealthy(c: Config, st: State, passing: seq<Bytes>, healthy: seq<Bytes>)
    requires HistoriesValid(st) && IsPassing(c, st, passing) && IsNetworkPassing(c, st, healthy)
    ensures multiset(passing) <= multiset(healthy)
  {
    var p, n, keys := PassingChoice(c, st), NetworkChoice(c, st), st.records.Keys;
    var ka :| Visits(ka, keys) && IsRanking(LinkLess, Collected(p, ka), passing);
    var kb :| Visits(kb, keys) && IsRanking(LinkLess, Collected(n, kb), healthy);
    var ra :| Sorted(LinkLess, ra) && multiset(ra) == multiset(Collected(p, ka)) && passing == LinksOf(ra);
    var rb :| Sorted(LinkLess, rb) && multiset(rb) == multiset(Collected(n, kb)) && healthy == LinksOf(rb);
    CollectedSame(n, ka, kb, keys);
    MapMultiset(LinkOf, ra, Collected(p, ka));
    MapMultiset(LinkOf, rb, Collected(n, ka));
    PassingLinesHealthy(c, st, ka);
  }

  // ----- the upper tier of the network ranking -----

  function Tops(rs: seq<Ranked>): seq<Ranked> {
    if rs == [] then [] else (if rs[0].top then [rs[0]] else []) + Tops(rs[1..])
  }

  lemma TopsFirst(x: Ranked, rs: seq<Ranked>)
    ensures Tops([x] + rs) == (if x.top then [x] else []) + Tops(rs)
  {
    assert ([x] + rs)[1..] == rs;
  }

  lemma {:induction false} TopsConcat(a: seq<Ranked>, b: seq<Ranked>)
    ensures Tops(a + b) == Tops(a) + Tops(b)
  {
    if a == [] {
      assert a + b == b;
    } else {
      hide Tops;
      TopsConcat(a[1..], b);
      TopsFirst(a[0], a[1..]);
      TopsFirst(a[0], a[1..] + b);
      assert a == [a[0]] + a[1..] && a + b == [a[0]] + (a[1..] + b);
    }
  }

  lemma {:induction false} TopsMultiset(a: seq<Ranked>, b: seq<Ranked>)
    requires multiset(a) == multiset(b)
    ensures multiset(Tops(a)) == multiset(Tops(b))
    decreases |a|
  {
    if a == [] {
      assert |multiset(b)| == 0;
    } else {
      assert a[0] in multiset(a);
      var k := IndexOf(a[0], b);
      RemoveFromBoth(a, b, k);
      TopsMultiset(a[1..], b[..k] + b[k+1..]);
      TopsWithout(b, k);
    }
  }

  lemma TopsWithout(b: seq<Ranked>, k: nat)
    requires k < |b|
    ensures multiset(Tops(b)) == multiset(Tops([b[k]])) + multiset(Tops(b[..k] + b[k+1..]))
  {
    hide Tops;
    assert b == b[..k] + ([b[k]] + b[k+1..]);
    TopsConcat(b[..k], [b[k]] + b[k+1..]);
    TopsConcat([b[k]], b[k+1..]);
    TopsConcat(b[..k], b[k+1..]);
  }

  lemma {:induction false} NoTops(rs: seq<Ranked>)
    requires forall i :: 0 <= i < |rs| ==> !rs[i].top
    ensures Tops(rs) == []
  {
    if rs != [] {
      NoTops(rs[1..]);
    }
  }

  /** In a network ranking the upper tier comes first. */
  lemma {:induction false} TopsLead(rs: seq<Ranked>)
    requires Sorted(NetLess, rs)
    ensures |Tops(rs)| <= |rs| && Tops(rs) == rs[..|Tops(rs)|]
    ensures forall i :: 0 <= i < |Tops(rs)| ==> Tops(rs)[i].top
  {
    if rs != [] {
      if rs[0].top {
        TopsLead(rs[1..]);
      } else {
        forall i | 0 <= i < |rs| ensures !rs[i].top {
          assert i > 0 ==> !NetLess(rs[i], rs[0]);
        }
        NoTops(rs);
      }
    }
  }

  /** Every servable candidate has a pass in its history, with a positive latency. */
  ghost predicate ServablePassed(c: Config, st: State)
    requires HistoriesValid(st)
  {
    forall k :: k in st.records && IsServable(c, st, st.records[k]) ==>
      st.records[k].hasPassed && st.records[k].lastPassedLatency > 0
  }

  lemma {:induction false} UpperTierLines(c: Config, st: State, ks: seq<Bytes>)
    requires HistoriesValid(st) && ServablePassed(c, st)
    ensures Tops(Collected(NetworkChoice(c, st), ks)) == Collected(PassingChoice(c, st), ks)
  {
    if ks != [] {
      var k, init := ks[|ks|-1], ks[..|ks|-1];
      UpperTierLines(c, st, init);
      if k in st.records {
        var rec := st.records[k];
        NetworkStateServable(c, st, rec);
        var line := NetworkLine(c, st, rec);
        if line.Some? {
          TopsConcat(Collected(NetworkChoice(c, st), init), [line.value]);
          assert Tops([line.value]) == if line.value.top then [line.value] else [];
        }
      }
    }
  }

  /** Within the upper tier both comparisons agree. */
  lemma UpperTierSorted(rs: seq<Ranked>)
    requires Sorted(NetLess, rs)
    ensures Sorted(PassLess, Tops(rs)) && |Tops(rs)| <= |rs| && LinksOf(Tops(rs)) == LinksOf(rs)[..|Tops(rs)|]
  {
    TopsLead(rs);
    var upper := Tops(rs);
    forall i, j | 0 <= i < j < |upper| ensures !PassLess(upper[j], upper[i]) {
      assert !NetLess(rs[j], rs[i]);
    }
  }

  /** The upper tier of a network ranking, as a list of its own. */
  lemma UpperTierIsPassing(c: Config, st: State, network: seq<Bytes>) returns (upper: seq<Bytes>)
    requires HistoriesValid(st) && ServablePassed(c, st) && IsNetworkPassingRanked(c, st, network)
    ensures |upper| <= |network| && upper == network[..|upper|] && IsPassingRanked(c, st, upper)
  {
    hide PassLess, NetLess, PassingChoice, NetworkChoice;
    var p, n, keys := PassingChoice(c, st), NetworkChoice(c, st), st.records.Keys;
    var ks :| Visits(ks, keys) && IsRanking(NetLess, Collected(n, ks), network);
    var rs :| Sorted(NetLess, rs) && multiset(rs) == multiset(Collected(n, ks)) && network == LinksOf(rs);
    UpperTierSorted(rs);
    TopsMultiset(rs, Collected(n, ks));
    UpperTierLines(c, st, ks);
    upper := LinksOf(Tops(rs));
    assert IsRanking(PassLess, Collected(p, ks), upper);
    assert IsList(PassLess, p, keys, upper);
  }

  /** The first |Passing| entries of NetworkPassingRanked are exactly PassingRanked. */
  lemma NetworkRankingStartsWithPassing(c: Config, st: State, ranked: seq<Bytes>, network: seq<Bytes>)
    requires HistoriesValid(st) && ServablePassed(c, st)
    requires IsPassingRanked(c, st, ranked) && IsNetworkPassingRanked(c, st, network)
    ensures |ranked| <= |network| && network[..|ranked|] == ranked
  {
    hide IsPassingRanked, IsNetworkPassingRanked, ServablePassed, HistoriesValid;
    var upper := UpperTierIsPassing(c, st, network);
    ListsDetermined(c, st, ranked, upper);
  }

  // ----- when servable candidates have passed -----

  lemma {:induction false} Largest(ws: seq<real>) returns (i: nat)
    requires ws != []
    ensures i < |ws| && forall j :: 0 <= j < |ws| ==> ws[j] <= ws[i]
  {
    if |ws| == 1 {
      i := 0;
    } else {
      i := Largest(ws[..|ws|-1]);
      if ws[i] < ws[|ws|-1] {
        i := |ws| - 1;
      }
    }
  }

  /** A window without a pass scores below the threshold when everything but a pass weighs less. */
  lemma PassOrLowScore(c: Config, h: Hist)
    requires c.weights.Some? && HistValid(h) && h.count > 0 && LightUnlessPassed(c, h)
    ensures LastWhere(IsPassed, View(h)).Some? || ScoreUnder(c, h) < c.minServableScore
  {
    if LastWhere(IsPassed, View(h)).None? {
      var ws := WeightsOf(c.weights.value, "gemini", View(h));
      var most := Largest(ws);
      var least := Smallest(ws);
      assert !IsPassed(View(h)[most]);
      ScoreBetween(Decay(c.decayLambda), ws, ws[least], ws[most]);
    }
  }

  lemma {:induction false} Smallest(ws: seq<real>) returns (i: nat)
    requires ws != []
    ensures i < |ws| && forall j :: 0 <= j < |ws| ==> ws[i] <= ws[j]
  {
    if |ws| == 1 {
      i := 0;
    } else {
      i := Smallest(ws[..|ws|-1]);
      if ws[|ws|-1] < ws[i] {
        i := |ws| - 1;
      }
    }
  }

  predicate LightUnlessPassed(c: Config, h: Hist)
    requires c.weights.Some? && HistValid(h)
  {
    forall i :: 0 <= i < h.count && View(h)[i].status != PASSED ==>
      SampleWeight(c.weights.value, "gemini", View(h)[i]) < c.minServableScore
  }

  predicate PassesTakeTime(h: Hist)
    requires HistValid(h)
  {
    forall i :: 0 <= i < h.count && View(h)[i].status == PASSED ==> View(h)[i].latency > 0
  }

  /** A record of a version-2 store that is served in its grace period has passed. */
  lemma GraceMeansPassed(env: Env, st: State, k: Bytes, rec: Record)
    requires ConfigValid(env.config) && RecordOk(env, k, rec) && ServabilityGate(env.config, st, rec).GracePeriod?
    ensures LastWhere(IsPassed, View(rec.history)).Some?
  {
    var v := View(rec.history);
    assert PreviouslyPassed(v);
    assert IsPassed(LatestConclusive(v).value) && IsPassed(v[LastWhere(IsConclusive, v).value]);
  }

  /** Records of a version-2 store: whatever the gates let through has passed, unless a sample that
      is no pass reaches the threshold by its weight or a pass took no time. */
  lemma ServableHasPassed(env: Env, st: State)
    requires ConfigValid(env.config) && StateOk(env, st)
    requires forall k :: k in st.records ==>
      LightUnlessPassed(env.config, st.records[k].history) && PassesTakeTime(st.records[k].history)
    ensures HistoriesValid(st) && ServablePassed(env.config, st)
  {
    forall k | k in st.records && IsServable(env.config, st, st.records[k])
      ensures st.records[k].hasPassed && st.records[k].lastPassedLatency > 0
    {
      ServableRecordPassed(env, st, k, st.records[k]);
    }
  }

  lemma ServableRecordPassed(env: Env, st: State, k: Bytes, rec: Record)
    requires ConfigValid(env.config) && RecordOk(env, k, rec) && IsServable(env.config, st, rec)
    requires LightUnlessPassed(env.config, rec.history) && PassesTakeTime(rec.history)
    ensures rec.hasPassed && rec.lastPassedLatency > 0
  {
    hide ScoreUnder;
    if ServabilityGate(env.config, st, rec).GracePeriod? {
      GraceMeansPassed(env, st, k, rec);
    } else {
      PassOrLowScore(env.config, rec.history);
    }
    var v := View(rec.history);
    var at := LastWhere(IsPassed, v);
    assert at.Some? && v[at.value].latency > 0;
  }
}
