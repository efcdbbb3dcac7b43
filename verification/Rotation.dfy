/** Least-recently-tested rotation: which candidates a limited cycle probes, and that none starves. */
module Rotation {
  import opened Base
  import opened Types

  // ----- the policy -----

  datatype Meta = Meta(link: Bytes, canonical: Bytes, lastTested: Time, origIndex: nat)

  /** The comparison of SelectCandidates. */
  predicate MetaLess(a: Meta, b: Meta) {
    if a.lastTested != b.lastTested then a.lastTested < b.lastTested
    else if a.canonical != b.canonical then LexLess(a.canonical, b.canonical)
    else a.origIndex < b.origIndex
  }

  lemma MetaLessIsTotal(x: Meta, y: Meta, z: Meta)
    ensures !MetaLess(x, x)
    ensures MetaLess(x, y) && MetaLess(y, z) ==> MetaLess(x, z)
    ensures MetaLess(x, z) ==> MetaLess(x, y) || MetaLess(y, z)
  {
    LexTotal(x.canonical, y.canonical);
    LexTotal(y.canonical, z.canonical);
    LexTotal(x.canonical, z.canonical);
    if LexLess(x.canonical, y.canonical) && LexLess(y.canonical, z.canonical) {
      LexTransitive(x.canonical, y.canonical, z.canonical);
    }
    if LexLess(x.canonical, z.canonical) && LexLess(y.canonical, x.canonical) {
      LexTransitive(y.canonical, x.canonical, z.canonical);
    }
  }

  lemma MetaLessOrders()
    ensures StrictWeakOrder(MetaLess)
  {
    forall x, y, z
      ensures !MetaLess(x, x) && (MetaLess(x, y) && MetaLess(y, z) ==> MetaLess(x, z))
      ensures MetaLess(x, z) ==> MetaLess(x, y) || MetaLess(y, z)
    {
      MetaLessIsTotal(x, y, z);
    }
  }

  /** When a link was last tested; the zero time if never. */
  function LastTested(last: map<Bytes, Time>, canonical: Bytes): Time {
    if canonical in last then last[canonical] else ZERO_TIME
  }

  function MetaOf(canon: Bytes -> Bytes, cs: seq<Bytes>, last: map<Bytes, Time>, i: nat): Meta
    requires i < |cs|
  {
    Meta(cs[i], canon(cs[i]), LastTested(last, canon(cs[i])), i)
  }

  function Metas(canon: Bytes -> Bytes, cs: seq<Bytes>, last: map<Bytes, Time>): (ms: seq<Meta>)
    ensures |ms| == |cs| && forall i :: 0 <= i < |cs| ==> ms[i] == MetaOf(canon, cs, last, i)
  {
    seq(|cs|, i requires 0 <= i < |cs| => MetaOf(canon, cs, last, i))
  }

  function Limit(probeLimit: int, n: nat): (k: nat)
    ensures k <= n
  {
    if 0 < probeLimit < n then probeLimit else n
  }

  predicate Precedes(canon: Bytes -> Bytes, cs: seq<Bytes>, last: map<Bytes, Time>, i: nat, j: nat)
    requires i < |cs| && j < |cs|
  {
    MetaLess(MetaOf(canon, cs, last, i), MetaOf(canon, cs, last, j))
  }

  /** The positions of the least recently tested candidates, in order. */
  ghost predicate IsSelection(canon: Bytes -> Bytes, cs: seq<Bytes>, last: map<Bytes, Time>, probeLimit: int,
                              sel: seq<nat>) {
    && |sel| == Limit(probeLimit, |cs|)
    && (forall p :: 0 <= p < |sel| ==> sel[p] < |cs|)
    && (forall p, q :: 0 <= p < q < |sel| ==> Precedes(canon, cs, last, sel[p], sel[q]))
    && (forall p, j :: 0 <= p < |sel| && 0 <= j < |cs| && j !in sel ==> Precedes(canon, cs, last, sel[p], j))
  }

  /** RecordTested. */
  function Recorded(canon: Bytes -> Bytes, last: map<Bytes, Time>, link: Bytes, testedAt: Time): map<Bytes, Time> {
    if link == "" || testedAt == ZERO_TIME then last
    else if canon(link) !in last || testedAt > last[canon(link)] then last[canon(link) := testedAt]
    else last
  }

  /** PruneStale. */
  function Pruned(last: map<Bytes, Time>, present: set<Bytes>): map<Bytes, Time> {
    map k | k in last && k in present :: last[k]
  }

  class CandidateRotator {
    const canon: Bytes -> Bytes
    var lastTested: map<Bytes, Time>

    constructor (canon: Bytes -> Bytes)
      ensures this.canon == canon && lastTested == map[]
    {
      this.canon := canon;
      lastTested := map[];
    }

    method RecordTested(link: Bytes, testedAt: Time)
      modifies this
      ensures lastTested == Recorded(canon, old(lastTested), link, testedAt)
    {
      if link == "" || testedAt == ZERO_TIME { return; }
      var canonical := canon(link);
      if canonical !in lastTested || testedAt > lastTested[canonical] {
        lastTested := lastTested[canonical := testedAt];
      }
    }

    method PruneStale(linkSet: set<Bytes>)
      modifies this
      ensures lastTested == Pruned(old(lastTested), set l | l in linkSet :: canon(l))
    {
      var present := set l | l in linkSet :: canon(l);
      var keys := lastTested.Keys;
      while keys != {}
        invariant keys <= old(lastTested).Keys
        invariant forall k :: k in lastTested <==> k in old(lastTested) && (k in keys || k in present)
        invariant forall k :: k in lastTested ==> lastTested[k] == old(lastTested)[k]
        decreases |keys|
      {
        var k :| k in keys;
        keys := keys - {k};
        if k !in present {
          lastTested := lastTested - {k};
        }
      }
    }

    /** SelectCandidates: the ghost result names the positions behind the links. */
    method SelectCandidates(cs: seq<Bytes>, probeLimit: int) returns (selected: seq<Bytes>, ghost sel: seq<nat>)
      ensures IsSelection(canon, cs, lastTested, probeLimit, sel)
      ensures |selected| == |sel| && forall p :: 0 <= p < |sel| ==> selected[p] == cs[sel[p]]
    {
      if cs == [] { return [], []; }
      var meta := new Meta[|cs|](i => Meta("", "", ZERO_TIME, 0));
      for i := 0 to |cs|
        invariant forall j :: 0 <= j < i ==> meta[j] == MetaOf(canon, cs, lastTested, j)
      {
        var canonical := canon(cs[i]);
        meta[i] := Meta(cs[i], canonical, LastTested(lastTested, canonical), i);
      }
      assert meta[..] == Metas(canon, cs, lastTested);
      var sorted := SortMetas(meta[..]);
      var limit := |cs|;
      if 0 < probeLimit < limit {
        limit := probeLimit;
      }
      sel := FirstPositions(canon, cs, lastTested, sorted, limit);
      selected := [];
      for p := 0 to limit
        invariant |selected| == p && forall q :: 0 <= q < p ==> selected[q] == cs[sel[q]]
      {
        selected := selected + [sorted[p].link];
      }
    }
  }

  method SortMetas(s: seq<Meta>) returns (r: seq<Meta>)
    ensures Sorted(MetaLess, r) && multiset(r) == multiset(s)
  {
    MetaLessOrders();
    SortBySorts(MetaLess, s);
    r := SortBy(MetaLess, s);
  }

  lemma {:induction false} MetasOnce(ms: seq<Meta>, m: Meta)
    requires forall i, j :: 0 <= i < j < |ms| ==> ms[i].origIndex != ms[j].origIndex
    ensures multiset(ms)[m] <= 1
  {
    if ms != [] {
      MetasOnce(ms[1..], m);
      assert ms == [ms[0]] + ms[1..];
      assert ms[0] !in ms[1..];
    }
  }

  lemma SortedDistinct(ms: seq<Meta>, sorted: seq<Meta>, p: nat, q: nat)
    requires forall i :: 0 <= i < |ms| ==> ms[i].origIndex == i
    requires multiset(sorted) == multiset(ms) && p < q < |sorted|
    ensures sorted[p].origIndex != sorted[q].origIndex
  {
    assert sorted[p] in multiset(ms) && sorted[q] in multiset(ms);
    MetasOnce(ms, sorted[q]);
    assert sorted == sorted[..q] + ([sorted[q]] + sorted[q+1..]);
    assert sorted[p] in sorted[..q];
    assert sorted[p] in multiset(sorted[..q]);
  }

  /** The positions of the first entries after sorting are a selection. */
  lemma FirstPositions(canon: Bytes -> Bytes, cs: seq<Bytes>, last: map<Bytes, Time>, sorted: seq<Meta>, limit: nat)
    returns (sel: seq<nat>)
    requires Sorted(MetaLess, sorted) && multiset(sorted) == multiset(Metas(canon, cs, last)) && limit <= |cs|
    ensures |sorted| == |cs| && |sel| == limit
    ensures forall p :: 0 <= p < limit ==> sel[p] < |cs| && sorted[p] == MetaOf(canon, cs, last, sel[p])
    ensures forall p, q :: 0 <= p < q < limit ==> Precedes(canon, cs, last, sel[p], sel[q])
    ensures forall p, j :: 0 <= p < limit && 0 <= j < |cs| && j !in sel ==> Precedes(canon, cs, last, sel[p], j)
  {
    var ms := Metas(canon, cs, last);
    assert |sorted| == |multiset(sorted)| == |multiset(ms)| == |cs|;
    forall p | 0 <= p < |sorted|
      ensures sorted[p].origIndex < |cs| && sorted[p] == MetaOf(canon, cs, last, sorted[p].origIndex)
    {
      assert sorted[p] in multiset(ms);
      var j := IndexOf(sorted[p], ms);
    }
    sel := seq(limit, p requires 0 <= p < limit => sorted[p].origIndex);
    forall p, q | 0 <= p < q < |sorted| ensures MetaLess(sorted[p], sorted[q]) {
      SortedDistinct(ms, sorted, p, q);
      LexTotal(sorted[p].canonical, sorted[q].canonical);
      assert !MetaLess(sorted[q], sorted[p]);
    }
    forall p, j | 0 <= p < limit && 0 <= j < |cs| && j !in sel ensures Precedes(canon, cs, last, sel[p], j) {
      assert ms[j] in multiset(sorted);
      var q := IndexOf(ms[j], sorted);
      assert forall x :: 0 <= x < limit ==> sel[x] in sel && sel[x] == sorted[x].origIndex;
      assert q >= limit;
      assert MetaLess(sorted[p], sorted[q]);
    }
  }

  /** The order of a selection: what was tested earlier goes first, then the smaller canonical form, then what
      stands earlier in the list; and no candidate that was left out goes before one that was selected. */
  predicate GoesFirst(canon: Bytes -> Bytes, cs: seq<Bytes>, last: map<Bytes, Time>, i: nat, j: nat)
    requires i < |cs| && j < |cs|
  {
    var s, t := LastTested(last, canon(cs[i])), LastTested(last, canon(cs[j]));
    && s <= t
    && (s == t ==> !LexLess(canon(cs[j]), canon(cs[i])))
    && (s == t && canon(cs[i]) == canon(cs[j]) ==> i < j)
  }

  lemma SelectionOrder(canon: Bytes -> Bytes, cs: seq<Bytes>, last: map<Bytes, Time>, probeLimit: int, sel: seq<nat>,
                       p: nat, j: nat)
    requires IsSelection(canon, cs, last, probeLimit, sel) && p < |sel| && j < |cs|
    requires j !in sel || exists q :: p < q < |sel| && sel[q] == j
    ensures sel[p] < |cs| && GoesFirst(canon, cs, last, sel[p], j)
  {
    LexTotal(canon(cs[sel[p]]), canon(cs[j]));
    assert Precedes(canon, cs, last, sel[p], j);
  }

  // ----- fairness -----

  /** One cycle: what is selected is recorded with times later than any recorded before for these
      candidates; the other entries of these candidates stay. */
  ghost predicate Cycle(canon: Bytes -> Bytes, cs: seq<Bytes>, probeLimit: int, last: map<Bytes, Time>, sel: seq<nat>,
                        after: map<Bytes, Time>) {
    && IsSelection(canon, cs, last, probeLimit, sel)
    && forall j :: 0 <= j < |cs| ==>
      if TestedIn(canon, cs, sel, canon(cs[j]))
      then LastTested(after, canon(cs[j])) > ZERO_TIME && LaterThanAll(canon, cs, last, LastTested(after, canon(cs[j])))
      else LastTested(after, canon(cs[j])) == LastTested(last, canon(cs[j]))
  }

  ghost predicate TestedIn(canon: Bytes -> Bytes, cs: seq<Bytes>, sel: seq<nat>, k: Bytes) {
    exists p :: 0 <= p < |sel| && sel[p] < |cs| && canon(cs[sel[p]]) == k
  }

  ghost predicate LaterThanAll(canon: Bytes -> Bytes, cs: seq<Bytes>, last: map<Bytes, Time>, t: Time) {
    forall j :: 0 <= j < |cs| ==> t > LastTested(last, canon(cs[j]))
  }

  /** The candidates that go before this one. */
  ghost function Ahead(canon: Bytes -> Bytes, cs: seq<Bytes>, last: map<Bytes, Time>, i: nat): set<nat>
    requires i < |cs|
  {
    set j | 0 <= j < |cs| && Precedes(canon, cs, last, j, i)
  }

  lemma {:induction false} DistinctCount(canon: Bytes -> Bytes, cs: seq<Bytes>, last: map<Bytes, Time>, sel: seq<nat>)
    requires forall p :: 0 <= p < |sel| ==> sel[p] < |cs|
    requires forall p, q :: 0 <= p < q < |sel| ==> Precedes(canon, cs, last, sel[p], sel[q])
    ensures |set p | 0 <= p < |sel| :: sel[p]| == |sel|
  {
    if sel != [] {
      var n := |sel| - 1;
      DistinctCount(canon, cs, last, sel[..n]);
      var before := set p | 0 <= p < n :: sel[..n][p];
      assert (set p | 0 <= p < |sel| :: sel[p]) == before + {sel[n]};
      forall p | 0 <= p < n ensures sel[p] != sel[n] {
        var m := MetaOf(canon, cs, last, sel[n]);
        MetaLessIsTotal(m, m, m);
      }
    }
  }

  /** A cycle that does not test a candidate moves everything it tests from before to behind it. */
  lemma CycleAdvances(canon: Bytes -> Bytes, cs: seq<Bytes>, probeLimit: int, last: map<Bytes, Time>, sel: seq<nat>,
                      after: map<Bytes, Time>, i: nat)
    requires Cycle(canon, cs, probeLimit, last, sel, after) && i < |cs| && !TestedIn(canon, cs, sel, canon(cs[i]))
    ensures |Ahead(canon, cs, after, i)| + Limit(probeLimit, |cs|) <= |Ahead(canon, cs, last, i)|
  {
    var tested := set p | 0 <= p < |sel| :: sel[p];
    var ahead, ahead' := Ahead(canon, cs, last, i), Ahead(canon, cs, after, i);
    DistinctCount(canon, cs, last, sel);
    assert i !in sel;
    assert tested <= ahead;
    forall j | j in ahead' ensures j in ahead && j !in tested {
      assert Precedes(canon, cs, after, j, i);
      assert !TestedIn(canon, cs, sel, canon(cs[j]));
    }
    Subtracted(ahead', ahead, tested);
  }

  lemma Subtracted(a: set<nat>, b: set<nat>, c: set<nat>)
    requires c <= b && a <= b && a !! c
    ensures |a| + |c| <= |b|
  {
    SubsetCount(a + c, b);
    assert |a + c| == |a| + |c|;
  }

  lemma {:induction false} SubsetCount(a: set<nat>, b: set<nat>)
    requires a <= b
    ensures |a| <= |b|
    decreases |a|
  {
    if a != {} {
      var x :| x in a;
      SubsetCount(a - {x}, b - {x});
    }
  }

  lemma AheadCount(canon: Bytes -> Bytes, cs: seq<Bytes>, last: map<Bytes, Time>, i: nat)
    requires i < |cs|
    ensures |Ahead(canon, cs, last, i)| <= |cs| - 1
  {
    var all := Below(|cs|);
    MetaLessIsTotal(MetaOf(canon, cs, last, i), MetaOf(canon, cs, last, i), MetaOf(canon, cs, last, i));
    Subtracted(Ahead(canon, cs, last, i), all, {i});
  }

  function Below(n: nat): (r: set<nat>)
    ensures |r| == n && forall j: nat :: j in r <==> j < n
  {
    if n == 0 then {} else Below(n - 1) + {n - 1}
  }

  /** A run of cycles over a fixed list of candidates. */
  ghost predicate Cycles(canon: Bytes -> Bytes, cs: seq<Bytes>, probeLimit: int, lasts: seq<map<Bytes, Time>>,
                         sels: seq<seq<nat>>) {
    |lasts| == |sels| + 1 && forall c :: 0 <= c < |sels| ==> Cycle(canon, cs, probeLimit, lasts[c], sels[c], lasts[c+1])
  }

  lemma {:induction false} Untested(canon: Bytes -> Bytes, cs: seq<Bytes>, probeLimit: int,
                                    lasts: seq<map<Bytes, Time>>, sels: seq<seq<nat>>, i: nat, m: nat)
    requires Cycles(canon, cs, probeLimit, lasts, sels) && i < |cs| && m <= |sels|
    requires forall c :: 0 <= c < m ==> !TestedIn(canon, cs, sels[c], canon(cs[i]))
    ensures |Ahead(canon, cs, lasts[m], i)| + m * Limit(probeLimit, |cs|) <= |cs| - 1
  {
    AheadCount(canon, cs, lasts[m], i);
    if m > 0 {
      Untested(canon, cs, probeLimit, lasts, sels, i, m - 1);
      assert !TestedIn(canon, cs, sels[m-1], canon(cs[i]));
      CycleAdvances(canon, cs, probeLimit, lasts[m-1], sels[m-1], lasts[m], i);
      assert m * Limit(probeLimit, |cs|) == (m - 1) * Limit(probeLimit, |cs|) + Limit(probeLimit, |cs|);
    }
  }

  /** Fairness: with n candidates and a limit of L per cycle, every canonical link is tested in any
      ceil(n/L) consecutive cycles. */
  lemma EveryLinkTested(canon: Bytes -> Bytes, cs: seq<Bytes>, probeLimit: int, lasts: seq<map<Bytes, Time>>,
                        sels: seq<seq<nat>>, i: nat)
    requires probeLimit >= 1 && Cycles(canon, cs, probeLimit, lasts, sels) && i < |cs|
    requires |sels| * probeLimit >= |cs|
    ensures exists c :: 0 <= c < |sels| && TestedIn(canon, cs, sels[c], canon(cs[i]))
  {
    if forall c :: 0 <= c < |sels| ==> !TestedIn(canon, cs, sels[c], canon(cs[i])) {
      Untested(canon, cs, probeLimit, lasts, sels, i, |sels|);
      EnoughCycles(|sels|, probeLimit, |cs|);
      assert false;
    }
  }

  lemma EnoughCycles(m: nat, probeLimit: nat, n: nat)
    requires m * probeLimit >= n && probeLimit >= 1 && n >= 1
    ensures m * Limit(probeLimit, n) >= n
  {
    assert m >= 1;
    assert m * n >= n;
  }

  // ----- cycles of the rotator -----

  function RecordAll(canon: Bytes -> Bytes, last: map<Bytes, Time>, links: seq<Bytes>,
                     times: seq<Time>): map<Bytes, Time>
    requires |links| == |times|
  {
    if links == [] then last
    else
      var n := |links| - 1;
      Recorded(canon, RecordAll(canon, last, links[..n], times[..n]), links[n], times[n])
  }

  /** Some link of this canonical form is not empty, so that it is recorded. */
  ghost predicate Recordable(canon: Bytes -> Bytes, links: seq<Bytes>, k: Bytes) {
    exists p :: 0 <= p < |links| && links[p] != "" && canon(links[p]) == k
  }

  lemma {:induction false} RecordAllEffect(canon: Bytes -> Bytes, cs: seq<Bytes>, last: map<Bytes, Time>,
                                           links: seq<Bytes>, times: seq<Time>, k: Bytes)
    requires |links| == |times| && forall p :: 0 <= p < |links| ==> times[p] > ZERO_TIME
    requires forall p :: 0 <= p < |links| ==> LaterThanAll(canon, cs, last, times[p]) && times[p] > LastTested(last, k)
    ensures var after := RecordAll(canon, last, links, times);
            if Recordable(canon, links, k)
            then LastTested(after, k) > ZERO_TIME && LastTested(after, k) > LastTested(last, k)
                 && LaterThanAll(canon, cs, last, LastTested(after, k))
            else LastTested(after, k) == LastTested(last, k) && (k in after <==> k in last)
  {
    if links != [] {
      var n := |links| - 1;
      RecordAllEffect(canon, cs, last, links[..n], times[..n], k);
      assert forall p :: 0 <= p < n ==> links[..n][p] == links[p];
      if links[n] != "" && canon(links[n]) == k {
        assert times[n] > LastTested(last, k);
      }
    }
  }

  function Picked(cs: seq<Bytes>, order: seq<nat>): (links: seq<Bytes>)
    requires forall p :: 0 <= p < |order| ==> order[p] < |cs|
    ensures |links| == |order| && forall p :: 0 <= p < |links| ==> links[p] == cs[order[p]]
  {
    seq(|order|, p requires 0 <= p < |order| => cs[order[p]])
  }

  /** Both list the same positions. */
  ghost predicate SamePositions(cs: seq<Bytes>, sel: seq<nat>, order: seq<nat>) {
    (forall p :: 0 <= p < |order| ==> order[p] < |cs| && order[p] in sel)
    && forall p :: 0 <= p < |sel| ==> sel[p] in order
  }

  /** The selected candidates, recorded in the order in which their probes completed, with times that
      move on. */
  ghost predicate Records(canon: Bytes -> Bytes, cs: seq<Bytes>, last: map<Bytes, Time>, sel: seq<nat>,
                          order: seq<nat>, times: seq<Time>) {
    && |times| == |order| && SamePositions(cs, sel, order)
    && forall p :: 0 <= p < |times| ==> times[p] > ZERO_TIME && LaterThanAll(canon, cs, last, times[p])
  }

  lemma PickedForms(canon: Bytes -> Bytes, cs: seq<Bytes>, sel: seq<nat>, order: seq<nat>, k: Bytes)
    requires SamePositions(cs, sel, order)
    ensures Recordable(canon, Picked(cs, order), k) ==> TestedIn(canon, cs, sel, k)
    ensures TestedIn(canon, cs, sel, k) <==> exists p :: 0 <= p < |order| && canon(Picked(cs, order)[p]) == k
  {
    var links := Picked(cs, order);
    if exists p :: 0 <= p < |order| && canon(links[p]) == k {
      var p :| 0 <= p < |order| && canon(links[p]) == k;
      assert order[p] in order;
      var q :| 0 <= q < |sel| && sel[q] == order[p];
      assert canon(cs[sel[q]]) == k;
    }
    if TestedIn(canon, cs, sel, k) {
      var q :| 0 <= q < |sel| && sel[q] < |cs| && canon(cs[sel[q]]) == k;
      assert sel[q] in sel;
      var p :| 0 <= p < |order| && order[p] == sel[q];
      assert canon(links[p]) == k;
    }
  }

  /** Selecting, probing and recording every selected candidate, in any order, is a cycle if and only if
      no canonical form is tested by empty links alone. */
  lemma RecordingIsCycle(canon: Bytes -> Bytes, cs: seq<Bytes>, probeLimit: int, last: map<Bytes, Time>,
                         sel: seq<nat>, order: seq<nat>, times: seq<Time>)
    requires IsSelection(canon, cs, last, probeLimit, sel) && Records(canon, cs, last, sel, order, times)
    ensures Cycle(canon, cs, probeLimit, last, sel, RecordAll(canon, last, Picked(cs, order), times)) <==>
            forall p :: 0 <= p < |sel| ==> Recordable(canon, Picked(cs, order), canon(cs[sel[p]]))
  {
    hide Precedes;
    var links := Picked(cs, order);
    var after := RecordAll(canon, last, links, times);
    forall j | 0 <= j < |cs| ensures RecordedAs(canon, cs, last, after, Recordable(canon, links, canon(cs[j])), j) {
      RecordAllEffect(canon, cs, last, links, times, canon(cs[j]));
      PickedForms(canon, cs, sel, order, canon(cs[j]));
    }
    forall j | 0 <= j < |cs| ensures Recordable(canon, links, canon(cs[j])) ==> TestedIn(canon, cs, sel, canon(cs[j])) {
      PickedForms(canon, cs, sel, order, canon(cs[j]));
    }
    if Cycle(canon, cs, probeLimit, last, sel, after) {
      forall p | 0 <= p < |sel| ensures Recordable(canon, links, canon(cs[sel[p]])) {
        assert TestedIn(canon, cs, sel, canon(cs[sel[p]]));
        assert RecordedAs(canon, cs, last, after, Recordable(canon, links, canon(cs[sel[p]])), sel[p]);
      }
    }
  }

  /** What recording does to one candidate. */
  ghost predicate RecordedAs(canon: Bytes -> Bytes, cs: seq<Bytes>, last: map<Bytes, Time>, after: map<Bytes, Time>,
                             tested: bool, j: nat)
    requires j < |cs|
  {
    if tested
    then LastTested(after, canon(cs[j])) > ZERO_TIME && LaterThanAll(canon, cs, last, LastTested(after, canon(cs[j])))
    else LastTested(after, canon(cs[j])) == LastTested(last, canon(cs[j]))
  }

  // ----- runs of the rotator -----

  /** One cycle of the scheduler: stale entries go, candidates are selected and recorded. */
  ghost predicate RotatorCycle(canon: Bytes -> Bytes, cs: seq<Bytes>, probeLimit: int, last: map<Bytes, Time>,
                               present: set<Bytes>, sel: seq<nat>, after: map<Bytes, Time>) {
    var kept := Pruned(last, present);
    && (forall j :: 0 <= j < |cs| ==> canon(cs[j]) in present)
    && IsSelection(canon, cs, kept, probeLimit, sel)
    && exists order, times ::
         Records(canon, cs, kept, sel, order, times) && after == RecordAll(canon, kept, Picked(cs, order), times)
  }

  ghost predicate RotatorRun(canon: Bytes -> Bytes, cs: seq<Bytes>, probeLimit: int, lasts: seq<map<Bytes, Time>>,
                             presents: seq<set<Bytes>>, sels: seq<seq<nat>>) {
    && |lasts| == |sels| + 1 && |presents| == |sels|
    && forall c :: 0 <= c < |sels| ==> RotatorCycle(canon, cs, probeLimit, lasts[c], presents[c], sels[c], lasts[c+1])
  }

  /** Pruning does not touch what is listed. */
  lemma RotatorCycleIsCycle(canon: Bytes -> Bytes, cs: seq<Bytes>, probeLimit: int, last: map<Bytes, Time>,
                            present: set<Bytes>, sel: seq<nat>, after: map<Bytes, Time>)
    requires RotatorCycle(canon, cs, probeLimit, last, present, sel, after)
    requires forall j :: 0 <= j < |cs| ==> cs[j] != ""
    ensures Cycle(canon, cs, probeLimit, last, sel, after)
  {
    var kept := Pruned(last, present);
    var order, times :|
      Records(canon, cs, kept, sel, order, times) && after == RecordAll(canon, kept, Picked(cs, order), times);
    forall p | 0 <= p < |sel| ensures Recordable(canon, Picked(cs, order), canon(cs[sel[p]])) {
      assert sel[p] in sel;
      var q :| 0 <= q < |order| && order[q] == sel[p];
      assert Picked(cs, order)[q] != "" && canon(Picked(cs, order)[q]) == canon(cs[sel[p]]);
    }
    RecordingIsCycle(canon, cs, probeLimit, kept, sel, order, times);
    SameCycle(canon, cs, probeLimit, kept, last, sel, after);
  }

  /** A cycle only looks at when the listed candidates were last tested. */
  lemma SameCycle(canon: Bytes -> Bytes, cs: seq<Bytes>, probeLimit: int, a: map<Bytes, Time>, b: map<Bytes, Time>,
                  sel: seq<nat>, after: map<Bytes, Time>)
    requires forall j :: 0 <= j < |cs| ==> LastTested(a, canon(cs[j])) == LastTested(b, canon(cs[j]))
    requires Cycle(canon, cs, probeLimit, a, sel, after)
    ensures Cycle(canon, cs, probeLimit, b, sel, after)
  {
    hide LastTested;
    forall i, j | 0 <= i < |cs| && 0 <= j < |cs| ensures Precedes(canon, cs, a, i, j) == Precedes(canon, cs, b, i, j) {
      assert MetaOf(canon, cs, a, i) == MetaOf(canon, cs, b, i) && MetaOf(canon, cs, a, j) == MetaOf(canon, cs, b, j);
    }
    forall t ensures LaterThanAll(canon, cs, a, t) == LaterThanAll(canon, cs, b, t) {
    }
  }

  /** The rotator is fair: whatever it has recorded before, whatever goes when it prunes, and in whatever
      order probes complete, with n candidates and a limit of L every canonical link is tested in any
      ceil(n/L) consecutive cycles. */
  lemma RotatorIsFair(canon: Bytes -> Bytes, cs: seq<Bytes>, probeLimit: int, lasts: seq<map<Bytes, Time>>,
                      presents: seq<set<Bytes>>, sels: seq<seq<nat>>, i: nat)
    requires probeLimit >= 1 && RotatorRun(canon, cs, probeLimit, lasts, presents, sels) && i < |cs|
    requires forall j :: 0 <= j < |cs| ==> cs[j] != ""
    requires |sels| * probeLimit >= |cs|
    ensures exists c :: 0 <= c < |sels| && TestedIn(canon, cs, sels[c], canon(cs[i]))
  {
    hide RotatorCycle, Cycle;
    forall c | 0 <= c < |sels| ensures Cycle(canon, cs, probeLimit, lasts[c], sels[c], lasts[c+1]) {
      RotatorCycleIsCycle(canon, cs, probeLimit, lasts[c], presents[c], sels[c], lasts[c+1]);
    }
    EveryLinkTested(canon, cs, probeLimit, lasts, sels, i);
  }

  /** Two candidates, the first of them an empty link. */
  const WITH_EMPTY: seq<Bytes> := ["", "a"]

  lemma EmptyGoesFirst(canon: Bytes -> Bytes, sel: seq<nat>)
    requires canon("") == "" && canon("a") != "" && IsSelection(canon, WITH_EMPTY, map[], 1, sel)
    ensures sel == [0]
  {
    assert WITH_EMPTY[0] == "" && WITH_EMPTY[1] == "a";
    assert LexLess("", canon("a")) && !LexLess(canon("a"), "");
    assert !Precedes(canon, WITH_EMPTY, map[], 1, 0);
    assert |sel| == 1 && sel == [sel[0]] && sel[0] < 2;
    assert sel[0] == 1 ==> 0 !in sel;
  }

  lemma {:induction false} EmptyNotRecorded(canon: Bytes -> Bytes, links: seq<Bytes>, times: seq<Time>)
    requires |links| == |times| && forall p :: 0 <= p < |links| ==> links[p] == ""
    ensures RecordAll(canon, map[], links, times) == map[]
  {
    if links != [] {
      EmptyNotRecorded(canon, links[..|links|-1], times[..|links|-1]);
    }
  }

  /** Why the links must not be empty: an empty link is never recorded, so with a limit of one it is
      selected in every cycle of any run of a new rotator, and the other candidate starves. */
  lemma {:induction false} EmptyLinkStarves(canon: Bytes -> Bytes, lasts: seq<map<Bytes, Time>>,
                                            presents: seq<set<Bytes>>, sels: seq<seq<nat>>, n: nat)
    requires canon("") == "" && canon("a") != ""
    requires RotatorRun(canon, WITH_EMPTY, 1, lasts, presents, sels) && lasts[0] == map[] && n <= |sels|
    ensures lasts[n] == map[]
    ensures forall c :: 0 <= c < n ==> sels[c] == [0] && !TestedIn(canon, WITH_EMPTY, sels[c], canon("a"))
  {
    if n > 0 {
      EmptyLinkStarves(canon, lasts, presents, sels, n - 1);
      assert RotatorCycle(canon, WITH_EMPTY, 1, lasts[n-1], presents[n-1], sels[n-1], lasts[n]);
      var kept := Pruned(lasts[n-1], presents[n-1]);
      assert kept == map[];
      EmptyGoesFirst(canon, sels[n-1]);
      var order, times :|
        Records(canon, WITH_EMPTY, kept, sels[n-1], order, times)
        && lasts[n] == RecordAll(canon, kept, Picked(WITH_EMPTY, order), times);
      EmptyNotRecorded(canon, Picked(WITH_EMPTY, order), times);
    }
  }
}
