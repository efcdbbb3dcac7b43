/** What becomes of a ranking by passes when its latencies are clamped at 0, as a snapshot does with
    those it leaves out. */
module ClampedRanking {
  import opened Base
  import opened Ranking
  import RoundTrip = SnapshotRoundTrip

  function Clamped(x: Ranked): Ranked {
    x.(latency := RoundTrip.Positive(x.latency))
  }

  function ClampedLine(line: Option<Ranked>): Option<Ranked> {
    match line
    case None => None
    case Some(x) => Some(Clamped(x))
  }

  lemma {:induction false} CollectedClamped(a: Bytes -> Option<Ranked>, b: Bytes -> Option<Ranked>, ks: seq<Bytes>)
    requires forall i :: 0 <= i < |ks| ==> b(ks[i]) == ClampedLine(a(ks[i]))
    ensures Collected(b, ks) == MapSeq(Clamped, Collected(a, ks))
  {
    if ks != [] {
      var init := ks[..|ks|-1];
      CollectedClamped(a, b, init);
      var line := a(ks[|ks|-1]);
      if line.Some? {
        MapSeqConcat(Clamped, Collected(a, init), [line.value]);
        assert MapSeq(Clamped, [line.value]) == [Clamped(line.value)];
      }
    }
  }

  /** A list of clamped lines: the sort that gave the original one gives it again, if the clamped lines
      are still sorted. */
  lemma ClampedList(less: (Ranked, Ranked) -> bool, a: Bytes -> Option<Ranked>, b: Bytes -> Option<Ranked>,
                    ks: seq<Bytes>, keys: set<Bytes>, rs: seq<Ranked>)
    requires Visits(ks, keys) && forall k :: k in keys ==> b(k) == ClampedLine(a(k))
    requires multiset(rs) == multiset(Collected(a, ks)) && Sorted(less, MapSeq(Clamped, rs))
    ensures IsList(less, b, keys, LinksOf(rs))
  {
    forall i | 0 <= i < |ks| ensures b(ks[i]) == ClampedLine(a(ks[i])) {
      assert ks[i] in ks;
    }
    CollectedClamped(a, b, ks);
    MapMultiset(Clamped, rs, Collected(a, ks));
    var ss := MapSeq(Clamped, rs);
    assert LinksOf(ss) == LinksOf(rs);
    assert IsRanking(less, Collected(b, ks), LinksOf(ss));
  }

  lemma ClampedByLink(rs: seq<Ranked>)
    ensures Sorted(LinkLess, MapSeq(Clamped, rs)) <==> Sorted(LinkLess, rs)
  {
    var ss := MapSeq(Clamped, rs);
    forall i, j | 0 <= i < |rs| && 0 <= j < |rs| ensures LinkLess(ss[j], ss[i]) == LinkLess(rs[j], rs[i]) {
    }
  }

  /** The unranked list does not show the latencies. */
  lemma ClampedUnranked(a: Bytes -> Option<Ranked>, b: Bytes -> Option<Ranked>, keys: set<Bytes>, links: seq<Bytes>)
    requires forall k :: k in keys ==> b(k) == ClampedLine(a(k))
    requires IsList(LinkLess, a, keys, links)
    ensures IsList(LinkLess, b, keys, links)
  {
    var ks :| Visits(ks, keys) && IsRanking(LinkLess, Collected(a, ks), links);
    var rs :| Sorted(LinkLess, rs) && multiset(rs) == multiset(Collected(a, ks)) && links == LinksOf(rs);
    ClampedByLink(rs);
    ClampedList(LinkLess, a, b, ks, keys, rs);
  }

  /** Clamping does not change which of two lines with different links comes first. */
  predicate OrderKept(x: Ranked, y: Ranked) {
    x.link != y.link ==> (PassLess(x, y) <==> PassLess(Clamped(x), Clamped(y)))
  }

  ghost predicate AllOrdersKept(rs: seq<Ranked>) {
    forall x, y :: x in rs && y in rs ==> OrderKept(x, y)
  }

  lemma SameLinkKept(x: Ranked, y: Ranked)
    requires x.link == y.link && !PassLess(y, x)
    ensures !PassLess(Clamped(y), Clamped(x))
  {
    LexTotal(x.link, x.link);
  }

  lemma KeptStaysSorted(rs: seq<Ranked>)
    requires Sorted(PassLess, rs) && AllOrdersKept(rs)
    ensures Sorted(PassLess, MapSeq(Clamped, rs))
  {
    forall i, j | 0 <= i < j < |rs| ensures !PassLess(Clamped(rs[j]), Clamped(rs[i])) {
      assert rs[i] in rs && rs[j] in rs;
      assert OrderKept(rs[j], rs[i]) && !PassLess(rs[j], rs[i]);
      if rs[i].link == rs[j].link {
        SameLinkKept(rs[i], rs[j]);
      }
    }
  }

  /** The comparison without the links. */
  predicate RankLess(a: Ranked, b: Ranked) {
    if a.top != b.top then a.top
    else if a.score != b.score then a.score > b.score
    else a.latency < b.latency
  }

  function RankOf(x: Ranked): Ranked {
    x.(link := "")
  }

  lemma RankLessOrders()
    ensures StrictWeakOrder(RankLess)
  {
    forall x, y, z ensures RankLess(x, y) && RankLess(y, z) ==> RankLess(x, z) {
    }
    forall x, y, z ensures RankLess(x, z) ==> RankLess(x, y) || RankLess(y, z) {
    }
  }

  lemma ClampedByRank(rs: seq<Ranked>)
    requires Sorted(PassLess, rs)
    ensures Sorted(RankLess, rs) && Sorted(RankLess, MapSeq(Clamped, rs))
  {
    forall i, j | 0 <= i < j < |rs| ensures !RankLess(rs[j], rs[i]) && !RankLess(Clamped(rs[j]), Clamped(rs[i])) {
      assert !PassLess(rs[j], rs[i]);
    }
  }

  /** When the clamped lines are ranked to the same links, they are the lines of the ranking one by one. */
  lemma SameLinksSameLines(rs: seq<Ranked>, ss: seq<Ranked>)
    requires Sorted(PassLess, rs) && Sorted(PassLess, ss) && multiset(ss) == multiset(MapSeq(Clamped, rs))
    requires LinksOf(rs) == LinksOf(ss)
    ensures ss == MapSeq(Clamped, rs)
  {
    hide PassLess, Sorted, StrictWeakOrder;
    var cs := MapSeq(Clamped, rs);
    RankLessOrders();
    ClampedByRank(rs);
    ClampedByRank(ss);
    SortedUnique(RankLess, RankOf, cs, ss);
    forall i | 0 <= i < |ss| ensures ss[i] == cs[i] {
      assert LinksOf(rs)[i] == LinksOf(ss)[i];
      assert MapSeq(RankOf, cs)[i] == MapSeq(RankOf, ss)[i];
      RankAndLink(ss[i], cs[i]);
    }
  }

  lemma RankAndLink(x: Ranked, y: Ranked)
    requires RankOf(x) == RankOf(y) && x.link == y.link
    ensures x == y
  {
  }

  lemma SortedKeepsOrder(rs: seq<Ranked>)
    requires Sorted(PassLess, rs) && Sorted(PassLess, MapSeq(Clamped, rs))
    ensures AllOrdersKept(rs)
  {
    var cs := MapSeq(Clamped, rs);
    forall x, y | x in rs && y in rs ensures OrderKept(x, y) {
      var i :| 0 <= i < |rs| && rs[i] == x;
      var j :| 0 <= j < |rs| && rs[j] == y;
      PassLessIsTotal(x, y, x);
      PassLessIsTotal(y, x, y);
      PassLessIsTotal(Clamped(x), Clamped(y), Clamped(x));
      PassLessIsTotal(Clamped(y), Clamped(x), Clamped(y));
      if i < j {
        assert !PassLess(rs[j], rs[i]) && !PassLess(cs[j], cs[i]);
      } else if j < i {
        assert !PassLess(rs[i], rs[j]) && !PassLess(cs[i], cs[j]);
      }
    }
  }

  /** A ranking that serves clamped lines as well keeps the order of every two of them. */
  lemma SharedRankingKeepsOrder(a: Bytes -> Option<Ranked>, b: Bytes -> Option<Ranked>, keys: set<Bytes>,
                                ks: seq<Bytes>, links: seq<Bytes>)
    requires Visits(ks, keys) && forall k :: k in keys ==> b(k) == ClampedLine(a(k))
    requires IsRanking(PassLess, Collected(a, ks), links) && IsList(PassLess, b, keys, links)
    ensures AllOrdersKept(Collected(a, ks))
  {
    hide PassLess, Sorted, AllOrdersKept;
    var js :| Visits(js, keys) && IsRanking(PassLess, Collected(b, js), links);
    var rs :| Sorted(PassLess, rs) && multiset(rs) == multiset(Collected(a, ks)) && links == LinksOf(rs);
    var ss :| Sorted(PassLess, ss) && multiset(ss) == multiset(Collected(b, js)) && links == LinksOf(ss);
    CollectedSame(b, js, ks, keys);
    forall i | 0 <= i < |ks| ensures b(ks[i]) == ClampedLine(a(ks[i])) {
      assert ks[i] in ks;
    }
    CollectedClamped(a, b, ks);
    MapMultiset(Clamped, rs, Collected(a, ks));
    SameLinksSameLines(rs, ss);
    SortedKeepsOrder(rs);
    RearrangedKept(rs, Collected(a, ks));
  }

  lemma RearrangedKept(rs: seq<Ranked>, ls: seq<Ranked>)
    requires multiset(rs) == multiset(ls) && AllOrdersKept(rs)
    ensures AllOrdersKept(ls)
  {
    forall x | x in ls ensures x in rs {
      assert x in multiset(ls);
    }
  }
}
