/** The four lists that are served: which records they name, in which order, and why neither the
    iteration order of the map nor the sorting algorithm can be seen in them. */
module Ranking {
  import opened Base
  import opened Types
  import opened History
  import opened Policy
  import opened StoreState

  const MAX_LATENCY: int := 0x7fff_ffff_ffff_ffff

  // ----- iteration orders -----

  /** One of the orders in which a loop over a map may visit the keys. */
  ghost predicate Visits(ks: seq<Bytes>, keys: set<Bytes>) {
    (forall i, j :: 0 <= i < j < |ks| ==> ks[i] != ks[j]) && forall k :: k in keys <==> k in ks
  }

  lemma VisitsTail(ks: seq<Bytes>, keys: set<Bytes>)
    requires Visits(ks, keys) && ks != []
    ensures ks[0] in keys && Visits(ks[1..], keys - {ks[0]})
  {
    forall k ensures k in keys - {ks[0]} <==> k in ks[1..] {
      if k in ks && k != ks[0] {
        var i :| 0 <= i < |ks| && ks[i] == k;
        assert ks[1..][i-1] == k;
      }
      if k in ks[1..] {
        var i :| 0 <= i < |ks[1..]| && ks[1..][i] == k;
        assert ks[i+1] == k;
      }
    }
  }

  lemma VisitsExtended(ks: seq<Bytes>, keys: set<Bytes>, k: Bytes)
    requires Visits(ks, keys) && k !in keys
    ensures Visits(ks + [k], keys + {k})
  {
    assert forall i :: 0 <= i < |ks| ==> ks[i] in ks;
  }

  /** What a loop over the keys in this order collects: the image of the keys that are chosen. */
  function Collected<T>(choose: Bytes -> Option<T>, ks: seq<Bytes>): seq<T> {
    if ks == [] then []
    else
      var earlier := Collected(choose, ks[..|ks|-1]);
      match choose(ks[|ks|-1])
      case None => earlier
      case Some(x) => earlier + [x]
  }

  lemma {:induction false} CollectedConcat<T>(choose: Bytes -> Option<T>, a: seq<Bytes>, b: seq<Bytes>)
    ensures Collected(choose, a + b) == Collected(choose, a) + Collected(choose, b)
  {
    if b == [] {
      assert a + b == a;
    } else {
      assert (a + b)[..|a + b|-1] == a + b[..|b|-1];
      CollectedConcat(choose, a, b[..|b|-1]);
    }
  }

  lemma CollectedMoved<T>(choose: Bytes -> Option<T>, a: seq<Bytes>, k: Bytes, b: seq<Bytes>)
    ensures multiset(Collected(choose, a + [k] + b)) == multiset(Collected(choose, [k] + (a + b)))
  {
    CollectedConcat(choose, a + [k], b);
    CollectedConcat(choose, a, [k]);
    CollectedConcat(choose, [k], a + b);
    CollectedConcat(choose, a, b);
  }

  lemma VisitsWithout(ks: seq<Bytes>, keys: set<Bytes>, i: nat)
    requires Visits(ks, keys) && i < |ks|
    ensures Visits(ks[..i] + ks[i+1..], keys - {ks[i]})
  {
    var rest := ks[..i] + ks[i+1..];
    forall k ensures k in keys - {ks[i]} <==> k in rest {
      if k in ks && k != ks[i] {
        var j :| 0 <= j < |ks| && ks[j] == k;
        assert rest[if j < i then j else j - 1] == k;
      }
      if k in rest {
        var j :| 0 <= j < |rest| && rest[j] == k;
        assert ks[if j < i then j else j + 1] == k;
      }
    }
  }

  lemma {:induction false} VisitsLength(ks: seq<Bytes>, keys: set<Bytes>)
    requires Visits(ks, keys)
    ensures |ks| == |keys|
    decreases |ks|
  {
    if ks == [] {
      assert keys == {};
    } else {
      VisitsTail(ks, keys);
      VisitsLength(ks[1..], keys - {ks[0]});
    }
  }

  /** Two iteration orders collect the same elements. */
  lemma {:induction false} CollectedSame<T>(choose: Bytes -> Option<T>, a: seq<Bytes>, b: seq<Bytes>, keys: set<Bytes>)
    requires Visits(a, keys) && Visits(b, keys)
    ensures multiset(Collected(choose, a)) == multiset(Collected(choose, b))
    decreases |a|
  {
    hide Collected;
    VisitsLength(a, keys);
    VisitsLength(b, keys);
    if a == [] {
      assert a == b;
    } else {
      var k := a[0];
      assert k in keys;
      var i :| 0 <= i < |b| && b[i] == k;
      VisitsTail(a, keys);
      VisitsWithout(b, keys, i);
      CollectedSame(choose, a[1..], b[..i] + b[i+1..], keys - {k});
      assert b == b[..i] + [k] + b[i+1..] && a == [k] + a[1..];
      CollectedMoved(choose, b[..i], k, b[i+1..]);
      CollectedConcat(choose, [k], a[1..]);
      CollectedConcat(choose, [k], b[..i] + b[i+1..]);
    }
  }

  // ----- orders of ranking -----

  /** A line of a ranked list. `top` is what ranks first: a pass in the history for PassingRanked,
      servability for NetworkPassingRanked. */
  datatype Ranked = Ranked(link: Bytes, score: real, latency: int, top: bool)

  predicate LinkLess(a: Ranked, b: Ranked) {
    LexLess(a.link, b.link)
  }

  /** The comparison of PassingForRanked. */
  predicate PassLess(a: Ranked, b: Ranked) {
    if a.top != b.top then a.top
    else if a.score != b.score then a.score > b.score
    else if a.latency != b.latency then a.latency < b.latency
    else LexLess(a.link, b.link)
  }

  /** The comparison of NetworkPassingRanked: the score does not count in the lower tier. */
  predicate NetLess(a: Ranked, b: Ranked) {
    if a.top != b.top then a.top
    else if a.top && a.score != b.score then a.score > b.score
    else if a.latency != b.latency then a.latency < b.latency
    else LexLess(a.link, b.link)
  }

  lemma PassLessIsTotal(x: Ranked, y: Ranked, z: Ranked)
    ensures !PassLess(x, x)
    ensures PassLess(x, y) && PassLess(y, z) ==> PassLess(x, z)
    ensures PassLess(x, z) ==> PassLess(x, y) || PassLess(y, z)
    ensures !PassLess(x, y) && !PassLess(y, x) ==> x == y
  {
    LexTotal(x.link, y.link);
    LexTotal(y.link, z.link);
    LexTotal(x.link, z.link);
    if LexLess(x.link, y.link) && LexLess(y.link, z.link) {
      LexTransitive(x.link, y.link, z.link);
    }
    if LexLess(x.link, z.link) && LexLess(y.link, x.link) {
      LexTransitive(y.link, x.link, z.link);
    }
  }

  lemma NetLessIsTotal(x: Ranked, y: Ranked, z: Ranked)
    ensures !NetLess(x, x)
    ensures NetLess(x, y) && NetLess(y, z) ==> NetLess(x, z)
    ensures NetLess(x, z) ==> NetLess(x, y) || NetLess(y, z)
    ensures !NetLess(x, y) && !NetLess(y, x) ==> x.link == y.link
  {
    LexTotal(x.link, y.link);
    LexTotal(y.link, z.link);
    LexTotal(x.link, z.link);
    if LexLess(x.link, y.link) && LexLess(y.link, z.link) {
      LexTransitive(x.link, y.link, z.link);
    }
    if LexLess(x.link, z.link) && LexLess(y.link, x.link) {
      LexTransitive(y.link, x.link, z.link);
    }
  }

  lemma LinkLessIsTotal(x: Ranked, y: Ranked, z: Ranked)
    ensures !LinkLess(x, x)
    ensures LinkLess(x, y) && LinkLess(y, z) ==> LinkLess(x, z)
    ensures LinkLess(x, z) ==> LinkLess(x, y) || LinkLess(y, z)
    ensures !LinkLess(x, y) && !LinkLess(y, x) ==> x.link == y.link
  {
    LexTotal(x.link, y.link);
    LexTotal(y.link, z.link);
    LexTotal(x.link, z.link);
    if LexLess(x.link, y.link) && LexLess(y.link, z.link) {
      LexTransitive(x.link, y.link, z.link);
    }
    if LexLess(x.link, z.link) && LexLess(y.link, x.link) {
      LexTransitive(y.link, x.link, z.link);
    }
  }

  /** A comparison that leaves no tie between different links. */
  ghost predicate RanksLinks(less: (Ranked, Ranked) -> bool) {
    StrictWeakOrder(less) && forall x, y :: !less(x, y) && !less(y, x) ==> x.link == y.link
  }

  lemma ComparisonsRankLinks()
    ensures RanksLinks(PassLess) && RanksLinks(NetLess) && RanksLinks(LinkLess)
  {
    forall x, y, z
      ensures !PassLess(x, x) && (PassLess(x, y) && PassLess(y, z) ==> PassLess(x, z))
      ensures PassLess(x, z) ==> PassLess(x, y) || PassLess(y, z)
    { PassLessIsTotal(x, y, z); }
    forall x, y ensures !PassLess(x, y) && !PassLess(y, x) ==> x.link == y.link { PassLessIsTotal(x, y, y); }
    forall x, y, z
      ensures !NetLess(x, x) && (NetLess(x, y) && NetLess(y, z) ==> NetLess(x, z))
      ensures NetLess(x, z) ==> NetLess(x, y) || NetLess(y, z)
    { NetLessIsTotal(x, y, z); }
    forall x, y ensures !NetLess(x, y) && !NetLess(y, x) ==> x.link == y.link { NetLessIsTotal(x, y, y); }
    forall x, y, z
      ensures !LinkLess(x, x) && (LinkLess(x, y) && LinkLess(y, z) ==> LinkLess(x, z))
      ensures LinkLess(x, z) ==> LinkLess(x, y) || LinkLess(y, z)
    { LinkLessIsTotal(x, y, z); }
    forall x, y ensures !LinkLess(x, y) && !LinkLess(y, x) ==> x.link == y.link { LinkLessIsTotal(x, y, y); }
  }

  function LinkOf(r: Ranked): Bytes {
    r.link
  }

  function LinksOf(rs: seq<Ranked>): (ls: seq<Bytes>)
    ensures |ls| == |rs| && forall i :: 0 <= i < |rs| ==> ls[i] == rs[i].link
  {
    MapSeq(LinkOf, rs)
  }

  /** The result of sorting the collected lines, by any algorithm, and taking their links. */
  ghost predicate IsRanking(less: (Ranked, Ranked) -> bool, collected: seq<Ranked>, links: seq<Bytes>) {
    exists rs :: Sorted(less, rs) && multiset(rs) == multiset(collected) && links == LinksOf(rs)
  }

  /** A ranking is determined by the collected elements alone. */
  lemma RankingUnique(less: (Ranked, Ranked) -> bool, a: seq<Ranked>, b: seq<Ranked>, la: seq<Bytes>, lb: seq<Bytes>)
    requires RanksLinks(less) && multiset(a) == multiset(b) && IsRanking(less, a, la) && IsRanking(less, b, lb)
    ensures la == lb
  {
    var ra :| Sorted(less, ra) && multiset(ra) == multiset(a) && la == LinksOf(ra);
    var rb :| Sorted(less, rb) && multiset(rb) == multiset(b) && lb == LinksOf(rb);
    SortedUnique(less, LinkOf, ra, rb);
  }

  // ----- the lists -----

  /** The line of a record in Passing and PassingRanked. */
  function PassingLine(c: Config, st: State, rec: Record): Option<Ranked>
    requires HistValid(rec.history)
  {
    if IsServable(c, st, rec) then
      var latency := if rec.hasPassed then rec.lastPassedLatency else MAX_LATENCY;
      Some(Ranked(rec.activeLink, rec.score, latency, rec.hasPassed))
    else None
  }

  function NetworkLatencyOf(rec: Record, servable: bool): int
    requires HistValid(rec.history)
  {
    if servable then
      if rec.hasPassed && rec.lastPassedLatency > 0 then rec.lastPassedLatency
      else if rec.latest.latency > 0 then rec.latest.latency
      else MAX_LATENCY
    else
      var latency := LastNetworkHealthyLatency(View(rec.history));
      if latency.Some? && latency.value > 0 then latency.value
      else if rec.latest.transportLatency > 0 then rec.latest.transportLatency
      else if rec.latest.latency > 0 then rec.latest.latency
      else MAX_LATENCY
  }

  /** The line of a record in NetworkPassing and NetworkPassingRanked. */
  function NetworkLine(c: Config, st: State, rec: Record): Option<Ranked>
    requires HistValid(rec.history)
  {
    var (healthy, servable) := NetworkState(c, st, rec);
    if healthy then Some(Ranked(rec.activeLink, rec.score, NetworkLatencyOf(rec, servable), servable)) else None
  }

  ghost function PassingChoice(c: Config, st: State): Bytes -> Option<Ranked>
    requires HistoriesValid(st)
  {
    k => if k in st.records then PassingLine(c, st, st.records[k]) else None
  }

  ghost function NetworkChoice(c: Config, st: State): Bytes -> Option<Ranked>
    requires HistoriesValid(st)
  {
    k => if k in st.records then NetworkLine(c, st, st.records[k]) else None
  }

  /** The list is what a loop over the records in some order and some sort of its lines give. */
  ghost predicate IsList(less: (Ranked, Ranked) -> bool, choose: Bytes -> Option<Ranked>, keys: set<Bytes>,
                         links: seq<Bytes>) {
    exists ks :: Visits(ks, keys) && IsRanking(less, Collected(choose, ks), links)
  }

  ghost predicate IsPassing(c: Config, st: State, links: seq<Bytes>)
    requires HistoriesValid(st)
  {
    IsList(LinkLess, PassingChoice(c, st), st.records.Keys, links)
  }

  ghost predicate IsPassingRanked(c: Config, st: State, links: seq<Bytes>)
    requires HistoriesValid(st)
  {
    IsList(PassLess, PassingChoice(c, st), st.records.Keys, links)
  }

  ghost predicate IsNetworkPassing(c: Config, st: State, links: seq<Bytes>)
    requires HistoriesValid(st)
  {
    IsList(LinkLess, NetworkChoice(c, st), st.records.Keys, links)
  }

  ghost predicate IsNetworkPassingRanked(c: Config, st: State, links: seq<Bytes>)
    requires HistoriesValid(st)
  {
    IsList(NetLess, NetworkChoice(c, st), st.records.Keys, links)
  }

  /** Whatever the order of the loop and the sort, the list is the same. */
  lemma ListUnique(less: (Ranked, Ranked) -> bool, choose: Bytes -> Option<Ranked>, keys: set<Bytes>, a: seq<Bytes>,
                   b: seq<Bytes>)
    requires RanksLinks(less) && IsList(less, choose, keys, a) && IsList(less, choose, keys, b)
    ensures a == b
  {
    var ka :| Visits(ka, keys) && IsRanking(less, Collected(choose, ka), a);
    var kb :| Visits(kb, keys) && IsRanking(less, Collected(choose, kb), b);
    CollectedSame(choose, ka, kb, keys);
    RankingUnique(less, Collected(choose, ka), Collected(choose, kb), a, b);
  }

  /** Each of the four lists is determined by the records. */
  lemma ListsDetermined(c: Config, st: State, a: seq<Bytes>, b: seq<Bytes>)
    requires HistoriesValid(st)
    ensures IsPassing(c, st, a) && IsPassing(c, st, b) ==> a == b
    ensures IsPassingRanked(c, st, a) && IsPassingRanked(c, st, b) ==> a == b
    ensures IsNetworkPassing(c, st, a) && IsNetworkPassing(c, st, b) ==> a == b
    ensures IsNetworkPassingRanked(c, st, a) && IsNetworkPassingRanked(c, st, b) ==> a == b
  {
    ComparisonsRankLinks();
    if IsPassing(c, st, a) && IsPassing(c, st, b) {
      ListUnique(LinkLess, PassingChoice(c, st), st.records.Keys, a, b);
    }
    if IsPassingRanked(c, st, a) && IsPassingRanked(c, st, b) {
      ListUnique(PassLess, PassingChoice(c, st), st.records.Keys, a, b);
    }
    if IsNetworkPassing(c, st, a) && IsNetworkPassing(c, st, b) {
      ListUnique(LinkLess, NetworkChoice(c, st), st.records.Keys, a, b);
    }
    if IsNetworkPassingRanked(c, st, a) && IsNetworkPassingRanked(c, st, b) {
      ListUnique(NetLess, NetworkChoice(c, st), st.records.Keys, a, b);
    }
  }

  // ----- which links are listed -----

  lemma {:induction false} CollectedKey(choose: Bytes -> Option<Ranked>, ks: seq<Bytes>, x: Ranked) returns (k: Bytes)
    requires x in Collected(choose, ks)
    ensures k in ks && choose(k) == Some(x)
  {
    var n := |ks| - 1;
    if choose(ks[n]) == Some(x) {
      k := ks[n];
    } else {
      k := CollectedKey(choose, ks[..n], x);
    }
  }

  lemma {:induction false} KeyCollected(choose: Bytes -> Option<Ranked>, ks: seq<Bytes>, k: Bytes)
    requires k in ks && choose(k).Some?
    ensures choose(k).value in Collected(choose, ks)
  {
    var n := |ks| - 1;
    if k != ks[n] {
      KeyCollected(choose, ks[..n], k);
    }
  }

  /** A list names exactly the links of the chosen lines. */
  lemma ListNames(less: (Ranked, Ranked) -> bool, choose: Bytes -> Option<Ranked>, keys: set<Bytes>, links: seq<Bytes>,
                  l: Bytes)
    requires IsList(less, choose, keys, links)
    ensures l in links <==> exists k :: k in keys && choose(k).Some? && choose(k).value.link == l
  {
    hide Collected, Sorted;
    var ks :| Visits(ks, keys) && IsRanking(less, Collected(choose, ks), links);
    var lines := Collected(choose, ks);
    var rs :| Sorted(less, rs) && multiset(rs) == multiset(lines) && links == LinksOf(rs);
    if l in links {
      var i :| 0 <= i < |links| && links[i] == l;
      assert rs[i] in multiset(lines);
      var k := CollectedKey(choose, ks, rs[i]);
      assert k in keys && choose(k).Some? && choose(k).value.link == l;
    }
    if k :| k in keys && choose(k).Some? && choose(k).value.link == l {
      KeyCollected(choose, ks, k);
      assert choose(k).value in multiset(rs);
      var i :| 0 <= i < |rs| && rs[i] == choose(k).value;
      assert links[i] == l;
    }
  }

  lemma PassingLists(c: Config, st: State, links: seq<Bytes>, l: Bytes)
    requires HistoriesValid(st) && IsPassing(c, st, links)
    ensures l in links <==>
            exists k :: k in st.records && IsServable(c, st, st.records[k]) && st.records[k].activeLink == l
  {
    hide IsServable, IsList;
    ListNames(LinkLess, PassingChoice(c, st), st.records.Keys, links, l);
    forall k | k in st.records
      ensures PassingChoice(c, st)(k).Some? <==> IsServable(c, st, st.records[k])
      ensures PassingChoice(c, st)(k).Some? ==> PassingChoice(c, st)(k).value.link == st.records[k].activeLink
    {
    }
  }

  lemma NetworkPassingLists(c: Config, st: State, links: seq<Bytes>, l: Bytes)
    requires HistoriesValid(st) && IsNetworkPassing(c, st, links)
    ensures l in links <==>
            exists k :: k in st.records && NetworkState(c, st, st.records[k]).0 && st.records[k].activeLink == l
  {
    hide NetworkState, IsList, NetworkLatencyOf;
    ListNames(LinkLess, NetworkChoice(c, st), st.records.Keys, links, l);
    forall k | k in st.records
      ensures NetworkChoice(c, st)(k).Some? <==> NetworkState(c, st, st.records[k]).0
      ensures NetworkChoice(c, st)(k).Some? ==> NetworkChoice(c, st)(k).value.link == st.records[k].activeLink
    {
    }
  }

  // ----- permutations -----

  lemma ListsPermuted(lessA: (Ranked, Ranked) -> bool, lessB: (Ranked, Ranked) -> bool, choose: Bytes -> Option<Ranked>,
                      keys: set<Bytes>, a: seq<Bytes>, b: seq<Bytes>)
    requires IsList(lessA, choose, keys, a) && IsList(lessB, choose, keys, b)
    ensures multiset(a) == multiset(b)
  {
    var ka :| Visits(ka, keys) && IsRanking(lessA, Collected(choose, ka), a);
    var kb :| Visits(kb, keys) && IsRanking(lessB, Collected(choose, kb), b);
    CollectedSame(choose, ka, kb, keys);
    var ra :| Sorted(lessA, ra) && multiset(ra) == multiset(Collected(choose, ka)) && a == LinksOf(ra);
    var rb :| Sorted(lessB, rb) && multiset(rb) == multiset(Collected(choose, kb)) && b == LinksOf(rb);
    MapMultiset(LinkOf, ra, rb);
  }

  /** The ranked lists are permutations of the unranked ones. */
  lemma RankedArePermutations(c: Config, st: State, plain: seq<Bytes>, ranked: seq<Bytes>)
    requires HistoriesValid(st)
    ensures IsPassing(c, st, plain) && IsPassingRanked(c, st, ranked) ==> multiset(plain) == multiset(ranked)
    ensures IsNetworkPassing(c, st, plain) && IsNetworkPassingRanked(c, st, ranked)
            ==> multiset(plain) == multiset(ranked)
  {
    if IsPassing(c, st, plain) && IsPassingRanked(c, st, ranked) {
      ListsPermuted(LinkLess, PassLess, PassingChoice(c, st), st.records.Keys, plain, ranked);
    }
    if IsNetworkPassing(c, st, plain) && IsNetworkPassingRanked(c, st, ranked) {
      ListsPermuted(LinkLess, NetLess, NetworkChoice(c, st), st.records.Keys, plain, ranked);
    }
  }
}
