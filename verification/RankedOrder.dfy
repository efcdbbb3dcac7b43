/** The order of the ranked lists, said of the records that they name. */
module RankedOrder {
  import opened Base
  import opened Types
  import opened History
  import opened Policy
  import opened StoreState
  import opened Ranking

  predicate Distinct(ks: seq<Bytes>) {
    forall i, j :: 0 <= i < j < |ks| ==> ks[i] != ks[j]
  }

  /** The keys of the lines of a list, one by one: no other key is chosen. */
  ghost predicate Names<T>(choose: Bytes -> Option<T>, from: seq<Bytes>, ks: seq<Bytes>, rs: seq<T>) {
    && |ks| == |rs| && Distinct(ks)
    && (forall i :: 0 <= i < |ks| ==> ks[i] in from && choose(ks[i]) == Some(rs[i]))
    && forall k :: k in from && choose(k).Some? ==> k in ks
  }

  lemma {:induction false} NoneCollected<T>(choose: Bytes -> Option<T>, ks: seq<Bytes>)
    requires Collected(choose, ks) == []
    ensures forall k :: k in ks ==> choose(k).None?
  {
    if ks != [] {
      NoneCollected(choose, ks[..|ks|-1]);
    }
  }

  lemma {:induction false} CollectedPosition<T>(choose: Bytes -> Option<T>, ks: seq<Bytes>, x: T) returns (i: nat)
    requires x in Collected(choose, ks)
    ensures i < |ks| && choose(ks[i]) == Some(x)
  {
    var n := |ks| - 1;
    if choose(ks[n]) == Some(x) {
      i := n;
    } else {
      i := CollectedPosition(choose, ks[..n], x);
    }
  }

  lemma CollectedWithout<T>(choose: Bytes -> Option<T>, ks: seq<Bytes>, i: nat, x: T)
    requires i < |ks| && choose(ks[i]) == Some(x)
    ensures multiset(Collected(choose, ks)) == multiset(Collected(choose, ks[..i] + ks[i+1..])) + multiset{x}
  {
    assert ks == ks[..i] + [ks[i]] + ks[i+1..];
    CollectedMoved(choose, ks[..i], ks[i], ks[i+1..]);
    CollectedConcat(choose, [ks[i]], ks[..i] + ks[i+1..]);
    assert Collected(choose, [ks[i]]) == [x];
  }

  lemma DistinctWithout(ks: seq<Bytes>, i: nat)
    requires Distinct(ks) && i < |ks|
    ensures Distinct(ks[..i] + ks[i+1..])
    ensures forall k :: k in ks[..i] + ks[i+1..] <==> k in ks && k != ks[i]
  {
    var rest := ks[..i] + ks[i+1..];
    forall k | k in ks && k != ks[i] ensures k in rest {
      var j :| 0 <= j < |ks| && ks[j] == k;
      assert rest[if j < i then j else j - 1] == k;
    }
  }

  lemma SumCancels<T>(a: multiset<T>, b: multiset<T>, c: multiset<T>)
    requires a + c == b + c
    ensures a == b
  {
    assert a == (a + c) - c && b == (b + c) - c;
  }

  /** The lines of a list, in whatever order, are those of different keys. */
  lemma {:induction false} LinesNamed<T>(choose: Bytes -> Option<T>, from: seq<Bytes>, rs: seq<T>)
    returns (ks: seq<Bytes>)
    requires Distinct(from) && multiset(rs) == multiset(Collected(choose, from))
    ensures Names(choose, from, ks, rs)
    decreases |rs|
  {
    hide Collected, Names;
    if rs == [] {
      ks := [];
      assert |multiset(Collected(choose, from))| == 0;
      NoneCollected(choose, from);
      NothingNamed(choose, from);
    } else {
      var n := |rs| - 1;
      var x := rs[n];
      assert rs == rs[..n] + [x];
      assert x in multiset(rs);
      var i := CollectedPosition(choose, from, x);
      CollectedWithout(choose, from, i, x);
      DistinctWithout(from, i);
      assert multiset(rs) == multiset(rs[..n]) + multiset{x};
      SumCancels(multiset(rs[..n]), multiset(Collected(choose, from[..i] + from[i+1..])), multiset{x});
      var earlier := LinesNamed(choose, from[..i] + from[i+1..], rs[..n]);
      NamesExtended(choose, from, i, earlier, rs[..n], x);
      ks := earlier + [from[i]];
    }
  }

  lemma NothingNamed<T>(choose: Bytes -> Option<T>, from: seq<Bytes>)
    requires forall k :: k in from ==> choose(k).None?
    ensures Names(choose, from, [], [])
  {
  }

  lemma NamesExtended<T>(choose: Bytes -> Option<T>, from: seq<Bytes>, i: nat, ks: seq<Bytes>, rs: seq<T>, x: T)
    requires Distinct(from) && i < |from| && choose(from[i]) == Some(x)
    requires Names(choose, from[..i] + from[i+1..], ks, rs)
    ensures Names(choose, from, ks + [from[i]], rs + [x])
  {
    DistinctWithout(from, i);
    forall k | k in from && choose(k).Some? ensures k in ks + [from[i]] {
      assert k == from[i] || k in ks;
    }
  }

  /** The keys behind a list: exactly the chosen ones, each once, in the order of the comparison. */
  ghost predicate Ordered(less: (Ranked, Ranked) -> bool, choose: Bytes -> Option<Ranked>, keys: set<Bytes>,
                          links: seq<Bytes>, ks: seq<Bytes>) {
    && |ks| == |links| && Distinct(ks) && (forall k :: k in ks <==> k in keys && choose(k).Some?)
    && (forall i :: 0 <= i < |ks| ==> choose(ks[i]).Some? && choose(ks[i]).value.link == links[i])
    && forall i, j :: 0 <= i < j < |ks| ==> !less(choose(ks[j]).value, choose(ks[i]).value)
  }

  lemma ListOrdered(less: (Ranked, Ranked) -> bool, choose: Bytes -> Option<Ranked>, keys: set<Bytes>,
                    links: seq<Bytes>)
    returns (ks: seq<Bytes>)
    requires IsList(less, choose, keys, links)
    ensures Ordered(less, choose, keys, links, ks)
  {
    hide Collected;
    var from :| Visits(from, keys) && IsRanking(less, Collected(choose, from), links);
    var rs :| Sorted(less, rs) && multiset(rs) == multiset(Collected(choose, from)) && links == LinksOf(rs);
    ks := LinesNamed(choose, from, rs);
  }

  /** By latency, and by link where the latencies are equal. */
  predicate Faster(a: int, x: Bytes, b: int, y: Bytes) {
    a < b || (a == b && !LexLess(y, x))
  }

  /** The order of PassingRanked: candidates that have passed first, then by score, then by the latency of
      the newest pass, which ranks last if there is none, then by link. */
  predicate PassesBefore(a: Record, b: Record) {
    && (b.hasPassed ==> a.hasPassed)
    && (a.hasPassed == b.hasPassed ==> a.score >= b.score)
    && (a.hasPassed && b.hasPassed && a.score == b.score ==>
          Faster(a.lastPassedLatency, a.activeLink, b.lastPassedLatency, b.activeLink))
    && (!a.hasPassed && !b.hasPassed && a.score == b.score ==> !LexLess(b.activeLink, a.activeLink))
  }

  lemma PassingOrder(c: Config, st: State, links: seq<Bytes>) returns (ks: seq<Bytes>)
    requires HistoriesValid(st) && IsPassingRanked(c, st, links)
    ensures |ks| == |links| && Distinct(ks)
    ensures forall k :: k in ks <==> k in st.records && IsServable(c, st, st.records[k])
    ensures forall i :: 0 <= i < |ks| ==> ks[i] in st.records && st.records[ks[i]].activeLink == links[i]
    ensures forall i, j :: 0 <= i < j < |ks| ==> PassesBefore(st.records[ks[i]], st.records[ks[j]])
  {
    hide IsServable, IsList;
    ks := ListOrdered(PassLess, PassingChoice(c, st), st.records.Keys, links);
    forall i, j | 0 <= i < j < |ks| ensures PassesBefore(st.records[ks[i]], st.records[ks[j]]) {
      assert !PassLess(PassingChoice(c, st)(ks[j]).value, PassingChoice(c, st)(ks[i]).value);
    }
  }

  /** The order of NetworkPassingRanked: servable candidates first, by score, latency and link; then the other
      ones, by latency and link, whatever their score. */
  ghost predicate HealthyBefore(c: Config, st: State, a: Record, b: Record)
    requires HistValid(a.history) && HistValid(b.history)
  {
    var s, t := IsServable(c, st, a), IsServable(c, st, b);
    var l, m := NetworkLatencyOf(a, s), NetworkLatencyOf(b, t);
    && (t ==> s)
    && (s && t ==> a.score > b.score || (a.score == b.score && Faster(l, a.activeLink, m, b.activeLink)))
    && (!s && !t ==> Faster(l, a.activeLink, m, b.activeLink))
  }

  lemma NetworkOrder(c: Config, st: State, links: seq<Bytes>) returns (ks: seq<Bytes>)
    requires HistoriesValid(st) && IsNetworkPassingRanked(c, st, links)
    ensures |ks| == |links| && Distinct(ks)
    ensures forall k :: k in ks <==> k in st.records && NetworkState(c, st, st.records[k]).0
    ensures forall i :: 0 <= i < |ks| ==> ks[i] in st.records && st.records[ks[i]].activeLink == links[i]
    ensures forall i, j :: 0 <= i < j < |ks| ==> HealthyBefore(c, st, st.records[ks[i]], st.records[ks[j]])
  {
    hide NetworkState, IsServable, NetworkLatencyOf, IsList;
    ks := ListOrdered(NetLess, NetworkChoice(c, st), st.records.Keys, links);
    forall i, j | 0 <= i < j < |ks| ensures HealthyBefore(c, st, st.records[ks[i]], st.records[ks[j]]) {
      assert !NetLess(NetworkChoice(c, st)(ks[j]).value, NetworkChoice(c, st)(ks[i]).value);
      NetworkStateServable(c, st, st.records[ks[i]]);
      NetworkStateServable(c, st, st.records[ks[j]]);
    }
  }

  /** Among candidates that are not servable the latency that their history last showed for a working network
      decides. */
  lemma FasterNetworkFirst(c: Config, st: State, links: seq<Bytes>, k: Bytes, m: Bytes) returns (i: nat, j: nat)
    requires HistoriesValid(st) && IsNetworkPassingRanked(c, st, links) && k in st.records && m in st.records
    requires NetworkState(c, st, st.records[k]) == (true, false) && NetworkState(c, st, st.records[m]) == (true, false)
    requires var a, b := LastNetworkHealthyLatency(View(st.records[k].history)),
                         LastNetworkHealthyLatency(View(st.records[m].history));
             a.Some? && b.Some? && 0 < a.value < b.value
    ensures i < j < |links| && links[i] == st.records[k].activeLink && links[j] == st.records[m].activeLink
  {
    hide NetworkState, IsServable, LastNetworkHealthyLatency;
    var ks := NetworkOrder(c, st, links);
    NetworkStateServable(c, st, st.records[k]);
    NetworkStateServable(c, st, st.records[m]);
    i :| i < |ks| && ks[i] == k;
    j :| j < |ks| && ks[j] == m;
  }
}
