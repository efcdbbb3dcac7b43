/** The sorted index of all candidates that the user interface shows, its tiers, and the cache that a
    rebuild publishes while the store goes on changing. */
module CandidateIndex {
  import opened Base
  import opened Types
  import opened History
  import opened Policy
  import opened StoreState
  import opened Ranking
  import opened RankedOrder
  import Retention

  // ----- entries -----

  type Tier = t: int | 1 <= t <= 3 witness 3

  datatype Entry = Entry(
    canonicalLink: Bytes,
    activeLink: Bytes,
    servable: bool,
    networkHealthy: bool,
    hasPassed: bool,
    score: real,
    lastPassedLatency: int,
    transportLatency: int,
    transportEvidenceKnown: bool,
    transportOK: bool,
    latestStatus: Bytes,
    latestCategory: Bytes,
    historyCount: int,
    lastCycleID: nat,
    tier: Tier,
    effectiveLatency: int,
    historyStatuses: seq<char>,
    historyCapacity: int,
    jitter: int)

  function StatusGlyph(status: Bytes): char {
    if status == PASSED then 'P'
    else if status == FAILED then 'F'
    else if status == INCONCLUSIVE then 'I'
    else 0 as char
  }

  function HistoryGlyphs(v: seq<Sample>): (g: seq<char>)
    ensures |g| == 16
  {
    seq(16, i requires 0 <= i < 16 => if i < |v| then StatusGlyph(v[i].status) else 0 as char)
  }

  function TierOf(servable: bool, healthy: bool): Tier {
    if servable then 1 else if healthy then 2 else 3
  }

  /** One entry of Store.CandidateIndex. */
  function EntryOf(c: Config, st: State, rec: Record): Entry
    requires HistValid(rec.history)
  {
    var (healthy, servable) := NetworkState(c, st, rec);
    var v := View(rec.history);
    var known := v != [];
    Entry(rec.canonicalLink,
          if rec.activeLink == "" then rec.canonicalLink else rec.activeLink,
          servable, healthy, rec.hasPassed, rec.score, rec.lastPassedLatency,
          rec.latest.transportLatency, rec.latest.transportEvidenceKnown, rec.latest.transportOK,
          if known then v[|v|-1].status else rec.latest.status,
          rec.latest.category, rec.history.count, if known then v[|v|-1].cycleID else 0,
          TierOf(servable, healthy),
          if rec.lastPassedLatency == 0 && rec.latest.transportLatency > 0 then rec.latest.transportLatency
          else rec.lastPassedLatency,
          HistoryGlyphs(v), rec.history.capacity, rec.latest.jitter)
  }

  ghost function EntryChoice(c: Config, st: State): Bytes -> Option<Entry>
    requires HistoriesValid(st)
  {
    k => if k in st.records then Some(EntryOf(c, st, st.records[k])) else None
  }

  /** The comparison of computeCandidateIndex: a latency of 0 is unknown and ranks last. */
  predicate EntryLess(a: Entry, b: Entry) {
    if a.tier != b.tier then a.tier < b.tier
    else if a.hasPassed != b.hasPassed then a.hasPassed
    else if a.score != b.score then a.score > b.score
    else if a.effectiveLatency != b.effectiveLatency then
      a.effectiveLatency != 0 && (b.effectiveLatency == 0 || a.effectiveLatency < b.effectiveLatency)
    else LexLess(a.canonicalLink, b.canonicalLink)
  }

  lemma EntryLessIsTotal(x: Entry, y: Entry, z: Entry)
    ensures !EntryLess(x, x)
    ensures EntryLess(x, y) && EntryLess(y, z) ==> EntryLess(x, z)
    ensures EntryLess(x, z) ==> EntryLess(x, y) || EntryLess(y, z)
    ensures !EntryLess(x, y) && !EntryLess(y, x) ==> x.canonicalLink == y.canonicalLink
  {
    LexTotal(x.canonicalLink, y.canonicalLink);
    LexTotal(y.canonicalLink, z.canonicalLink);
    LexTotal(x.canonicalLink, z.canonicalLink);
    if LexLess(x.canonicalLink, y.canonicalLink) && LexLess(y.canonicalLink, z.canonicalLink) {
      LexTransitive(x.canonicalLink, y.canonicalLink, z.canonicalLink);
    }
    if LexLess(x.canonicalLink, z.canonicalLink) && LexLess(y.canonicalLink, x.canonicalLink) {
      LexTransitive(y.canonicalLink, x.canonicalLink, z.canonicalLink);
    }
  }

  lemma EntryLessOrders()
    ensures StrictWeakOrder(EntryLess)
  {
    forall x, y, z
      ensures !EntryLess(x, x) && (EntryLess(x, y) && EntryLess(y, z) ==> EntryLess(x, z))
      ensures EntryLess(x, z) ==> EntryLess(x, y) || EntryLess(y, z)
    {
      EntryLessIsTotal(x, y, z);
    }
  }

  /** The sorted index of a state, by any iteration order and any sorting algorithm. */
  ghost predicate IsIndex(c: Config, st: State, entries: seq<Entry>)
    requires HistoriesValid(st)
  {
    Sorted(EntryLess, entries) && exists ks :: Visits(ks, st.records.Keys) && IsRearranged(c, st, ks, entries)
  }

  ghost predicate IsRearranged(c: Config, st: State, ks: seq<Bytes>, entries: seq<Entry>)
    requires HistoriesValid(st)
  {
    multiset(entries) == multiset(Collected(EntryChoice(c, st), ks))
  }

  lemma {:induction false} CollectedFrom(c: Config, st: State, ks: seq<Bytes>, e: Entry)
    requires HistoriesValid(st) && e in Collected(EntryChoice(c, st), ks)
    ensures exists k :: k in st.records && e == EntryOf(c, st, st.records[k])
  {
    if ks != [] {
      if e in Collected(EntryChoice(c, st), ks[..|ks|-1]) {
        CollectedFrom(c, st, ks[..|ks|-1], e);
      }
    }
  }

  function Same(e: Entry): Entry {
    e
  }

  lemma {:induction false} MapSame(s: seq<Entry>)
    ensures MapSeq(Same, s) == s
  {
  }

  /** The index is determined by the records. */
  lemma IndexUnique(env: Env, st: State, a: seq<Entry>, b: seq<Entry>)
    requires ConfigValid(env.config) && StateOk(env, st) && HistoriesValid(st)
    requires IsIndex(env.config, st, a) && IsIndex(env.config, st, b)
    ensures a == b
  {
    hide EntryOf, EntryLess;
    var choose := EntryChoice(env.config, st);
    var ka :| Visits(ka, st.records.Keys) && IsRearranged(env.config, st, ka, a);
    var kb :| Visits(kb, st.records.Keys) && IsRearranged(env.config, st, kb, b);
    CollectedSame(choose, ka, kb, st.records.Keys);
    EntryLessOrders();
    forall x, y | x in b && y in b && !EntryLess(x, y) && !EntryLess(y, x) ensures Same(x) == Same(y) {
      EntryLessIsTotal(x, y, y);
      SameLinkSameEntry(env, st, kb, b, x, y);
    }
    SortedUnique(EntryLess, Same, a, b);
    MapSame(a);
    MapSame(b);
  }

  lemma SameLinkSameEntry(env: Env, st: State, ks: seq<Bytes>, entries: seq<Entry>, x: Entry, y: Entry)
    requires ConfigValid(env.config) && StateOk(env, st) && HistoriesValid(st)
    requires IsRearranged(env.config, st, ks, entries)
    requires x in entries && y in entries && x.canonicalLink == y.canonicalLink
    ensures x == y
  {
    hide NetworkState, View, HistoryGlyphs;
    assert x in multiset(entries) && y in multiset(entries);
    CollectedFrom(env.config, st, ks, x);
    CollectedFrom(env.config, st, ks, y);
    var k :| k in st.records && x == EntryOf(env.config, st, st.records[k]);
    var l :| l in st.records && y == EntryOf(env.config, st, st.records[l]);
    assert RecordOk(env, k, st.records[k]) && RecordOk(env, l, st.records[l]);
  }

  // ----- tiers -----

  function TierCount(entries: seq<Entry>, most: int): (n: nat)
    ensures n <= |entries|
  {
    if entries == [] then 0
    else TierCount(entries[..|entries|-1], most) + if entries[|entries|-1].tier <= most then 1 else 0
  }

  /** The first `n` entries are exactly those of a tier up to `most`. */
  ghost predicate IsFilter(entries: seq<Entry>, n: nat, most: int) {
    n <= |entries| && forall i :: 0 <= i < |entries| ==> (i < n <==> entries[i].tier <= most)
  }

  /** In a sorted index, counting a filter names it. */
  lemma {:induction false} TierPrefix(entries: seq<Entry>, most: int)
    requires Sorted(EntryLess, entries)
    ensures IsFilter(entries, TierCount(entries, most), most)
  {
    if entries != [] {
      var init, last := entries[..|entries|-1], entries[|entries|-1];
      TierPrefix(init, most);
      forall i | 0 <= i < |init| ensures init[i].tier <= last.tier {
        assert !EntryLess(entries[|init|], entries[i]);
      }
    }
  }

  /** The counting loop of computeCandidateIndex. */
  method CountTiers(entries: seq<Entry>) returns (gemini: nat, generic: nat)
    requires Sorted(EntryLess, entries)
    ensures gemini == TierCount(entries, 1) && generic == TierCount(entries, 2)
    ensures IsFilter(entries, gemini, 1) && IsFilter(entries, generic, 2)
  {
    gemini, generic := 0, 0;
    for n := 0 to |entries|
      invariant gemini == TierCount(entries[..n], 1) && generic == TierCount(entries[..n], 2)
    {
      assert entries[..n+1][..n] == entries[..n];
      if entries[n].tier == 1 {
        gemini := gemini + 1;
      }
      if entries[n].tier <= 2 {
        generic := generic + 1;
      }
    }
    assert entries[..|entries|] == entries;
    TierPrefix(entries, 1);
    TierPrefix(entries, 2);
  }

  // ----- what the index says of the records -----

  /** The comparison inside a tier: candidates that have passed first, then by score, then by a known latency
      in front of an unknown one, then by link. */
  ghost predicate EntryBefore(a: Record, b: Record, x: Entry, y: Entry) {
    && (b.hasPassed ==> a.hasPassed)
    && (a.hasPassed == b.hasPassed ==> a.score >= b.score)
    && (a.hasPassed == b.hasPassed && a.score == b.score ==>
          && (x.effectiveLatency == 0 ==> y.effectiveLatency == 0)
          && (y.effectiveLatency != 0 ==> x.effectiveLatency <= y.effectiveLatency)
          && (x.effectiveLatency == y.effectiveLatency ==> !LexLess(b.canonicalLink, a.canonicalLink)))
  }

  /** The records behind an index. */
  ghost predicate IndexNames(c: Config, st: State, index: Index, ks: seq<Bytes>)
    requires HistoriesValid(st)
  {
    && |ks| == |index.entries| && Distinct(ks) && (forall k :: k in ks <==> k in st.records)
    && forall i :: 0 <= i < |ks| ==> ks[i] in st.records && index.entries[i] == EntryOf(c, st, st.records[ks[i]])
  }

  lemma IndexKeys(c: Config, st: State, index: Index) returns (ks: seq<Bytes>)
    requires HistoriesValid(st) && IsIndex(c, st, index.entries)
    ensures IndexNames(c, st, index, ks)
  {
    hide Sorted, EntryOf, EntryLess, Collected;
    var from :| Visits(from, st.records.Keys) && IsRearranged(c, st, from, index.entries);
    ks := LinesNamed(EntryChoice(c, st), from, index.entries);
  }

  /** An index has one entry for each record. Its first filter shows exactly the servable records, its second
      one exactly the network-healthy ones, and inside a tier the records are in order. */
  lemma IndexSaysOfRecords(c: Config, st: State, index: Index) returns (ks: seq<Bytes>)
    requires HistoriesValid(st) && IsFilteredIndex(c, st, index)
    ensures IndexNames(c, st, index, ks)
    ensures forall i :: 0 <= i < |ks| ==> (i < index.gemini <==> IsServable(c, st, st.records[ks[i]]))
    ensures forall i :: 0 <= i < |ks| ==> (i < index.generic <==> NetworkState(c, st, st.records[ks[i]]).0)
    ensures forall i, j :: 0 <= i < j < |ks| && index.entries[i].tier == index.entries[j].tier ==>
              EntryBefore(st.records[ks[i]], st.records[ks[j]], index.entries[i], index.entries[j])
  {
    hide Sorted, EntryOf, EntryLess, NetworkState, IsServable, EntryBefore, Visits, IsRearranged;
    ks := IndexKeys(c, st, index);
    forall i | 0 <= i < |ks|
      ensures index.entries[i].tier == 1 <==> IsServable(c, st, st.records[ks[i]])
      ensures index.entries[i].tier <= 2 <==> NetworkState(c, st, st.records[ks[i]]).0
    {
      EntrySays(c, st, st.records[ks[i]]);
    }
    forall i, j | 0 <= i < j < |ks| && index.entries[i].tier == index.entries[j].tier
      ensures EntryBefore(st.records[ks[i]], st.records[ks[j]], index.entries[i], index.entries[j])
    {
      SortedAt(index.entries, i, j);
      SortedSays(c, st, st.records[ks[i]], st.records[ks[j]]);
    }
  }

  lemma EntrySays(c: Config, st: State, rec: Record)
    requires HistValid(rec.history)
    ensures EntryOf(c, st, rec).tier == 1 <==> IsServable(c, st, rec)
    ensures EntryOf(c, st, rec).tier <= 2 <==> NetworkState(c, st, rec).0
  {
    hide IsServable;
    NetworkStateServable(c, st, rec);
  }

  lemma SortedAt(entries: seq<Entry>, i: nat, j: nat)
    requires Sorted(EntryLess, entries) && i < j < |entries|
    ensures !EntryLess(entries[j], entries[i])
  {
  }

  lemma SortedSays(c: Config, st: State, a: Record, b: Record)
    requires HistValid(a.history) && HistValid(b.history)
    requires var x, y := EntryOf(c, st, a), EntryOf(c, st, b); x.tier == y.tier && !EntryLess(y, x)
    ensures EntryBefore(a, b, EntryOf(c, st, a), EntryOf(c, st, b))
  {
    hide NetworkState, HistoryGlyphs, View;
  }

  // ----- the cache -----

  /** What a rebuild that is under way has read so far. Rebuilds exclude each other. */
  datatype Rebuild = Idle | Entered | ReadRevision(revision: nat) | ReadIndex(revision: nat, index: Index)

  /** The entries, and how many of them the Gemini and the generic filter show. */
  datatype Index = Index(entries: seq<Entry>, gemini: nat, generic: nat)

  datatype Cache = Empty | Cached(index: Index, revision: nat)

  datatype World = World(store: State, rebuild: Rebuild, cache: Cache)

  datatype Mutation = Operation(e: Retention.Event) | Reload(snap: Snapshot)

  function Mutated(env: Env, st: State, m: Mutation): (r: State)
    requires ConfigValid(env.config) && HistoriesValid(st)
    ensures HistoriesValid(r) && r.revision == st.revision + 1
  {
    match m
    case Operation(e) => Retention.Step(env, st, e)
    case Reload(snap) => LoadState(env, st, snap)
  }

  datatype Action =
    | Mutate(m: Mutation)
    | BeginRebuild
    | GiveUp
    | TakeRevision
    | TakeIndex(entries: seq<Entry>)
    | PublishIndex

  ghost predicate Enabled(env: Env, w: World, a: Action)
    requires HistoriesValid(w.store)
  {
    match a
    case Mutate(_) => true
    case BeginRebuild => w.rebuild.Idle?
    case GiveUp => w.rebuild.ReadRevision?
    case TakeRevision => w.rebuild.Entered?
    case TakeIndex(entries) => w.rebuild.ReadRevision? && IsIndex(env.config, w.store, entries)
    case PublishIndex => w.rebuild.ReadIndex?
  }

  function Apply(env: Env, w: World, a: Action): (r: World)
    requires ConfigValid(env.config) && HistoriesValid(w.store) && Enabled(env, w, a)
    ensures HistoriesValid(r.store)
  {
    match a
    case Mutate(m) => w.(store := Mutated(env, w.store, m))
    case BeginRebuild => w.(rebuild := Entered)
    case GiveUp => w.(rebuild := Idle)
    case TakeRevision => w.(rebuild := ReadRevision(w.store.revision))
    case TakeIndex(entries) =>
      w.(rebuild := ReadIndex(w.rebuild.revision, Index(entries, TierCount(entries, 1), TierCount(entries, 2))))
    case PublishIndex => World(w.store, Idle, Cached(w.rebuild.index, w.rebuild.revision))
  }

  /** The sorted index of a state, with its filters. */
  ghost predicate IsFilteredIndex(c: Config, st: State, index: Index)
    requires HistoriesValid(st)
  {
    && IsIndex(c, st, index.entries)
    && IsFilter(index.entries, index.gemini, 1) && IsFilter(index.entries, index.generic, 2)
  }

  /** What was read under a revision is the index of the store as long as the revision is current. */
  ghost predicate Fresh(env: Env, st: State, index: Index, revision: nat)
    requires HistoriesValid(st)
  {
    revision <= st.revision && (revision == st.revision ==> IsFilteredIndex(env.config, st, index))
  }

  ghost predicate CacheOk(env: Env, w: World)
    requires HistoriesValid(w.store)
  {
    && (w.rebuild.ReadRevision? ==> w.rebuild.revision <= w.store.revision)
    && (w.rebuild.ReadIndex? ==> Fresh(env, w.store, w.rebuild.index, w.rebuild.revision))
    && (w.cache.Cached? ==> Fresh(env, w.store, w.cache.index, w.cache.revision))
  }

  ghost predicate Execution(env: Env, ws: seq<World>, acts: seq<Action>)
    requires ConfigValid(env.config)
  {
    && |ws| == |acts| + 1 && ws[0] == World(NEW_STATE, Idle, Empty)
    && (forall t :: 0 <= t < |ws| ==> HistoriesValid(ws[t].store))
    && (forall t :: 0 <= t < |acts| ==> Enabled(env, ws[t], acts[t]) && ws[t+1] == Apply(env, ws[t], acts[t]))
  }

  lemma ApplyCacheOk(env: Env, w: World, a: Action)
    requires ConfigValid(env.config) && HistoriesValid(w.store) && Enabled(env, w, a) && CacheOk(env, w)
    ensures CacheOk(env, Apply(env, w, a))
  {
    hide IsIndex, HistoriesValid, IsFilter, TierCount;
    if a.TakeIndex? {
      IndexFilters(env.config, w.store, a.entries);
    }
  }

  lemma IndexFilters(c: Config, st: State, entries: seq<Entry>)
    requires HistoriesValid(st) && IsIndex(c, st, entries)
    ensures IsFilter(entries, TierCount(entries, 1), 1) && IsFilter(entries, TierCount(entries, 2), 2)
  {
    TierPrefix(entries, 1);
    TierPrefix(entries, 2);
  }

  /** Whenever the revision of the cache is that of the store, the cached entries are the sorted index
      of the current store and the cached filters name its tiers, however rebuilds and changes of the
      store interleave. */
  lemma {:induction false} CacheFresh(env: Env, ws: seq<World>, acts: seq<Action>, t: nat)
    requires ConfigValid(env.config) && Execution(env, ws, acts) && t < |ws|
    ensures CacheOk(env, ws[t])
    ensures ws[t].cache.Cached? && ws[t].cache.revision == ws[t].store.revision ==>
      IsFilteredIndex(env.config, ws[t].store, ws[t].cache.index)
  {
    if t > 0 {
      CacheFresh(env, ws, acts, t - 1);
      assert Enabled(env, ws[t-1], acts[t-1]);
      ApplyCacheOk(env, ws[t-1], acts[t-1]);
    }
  }

  /** A rebuild that no change of the store comes into makes the cache current, whatever it held before. */
  lemma RebuildRefreshes(env: Env, w: World, entries: seq<Entry>) returns (ws: seq<World>)
    requires ConfigValid(env.config) && HistoriesValid(w.store) && w.rebuild.Idle?
    requires IsIndex(env.config, w.store, entries)
    ensures |ws| == 5 && ws[0] == w && forall t :: 0 <= t < 5 ==> ws[t].store == w.store
    ensures Enabled(env, w, BeginRebuild) && ws[1] == Apply(env, w, BeginRebuild)
    ensures Enabled(env, ws[1], TakeRevision) && ws[2] == Apply(env, ws[1], TakeRevision)
    ensures Enabled(env, ws[2], TakeIndex(entries)) && ws[3] == Apply(env, ws[2], TakeIndex(entries))
    ensures Enabled(env, ws[3], PublishIndex) && ws[4] == Apply(env, ws[3], PublishIndex)
    ensures var after := ws[4];
            && after.rebuild.Idle? && after.cache.Cached? && after.cache.revision == w.store.revision
            && after.cache.index.entries == entries && IsFilteredIndex(env.config, w.store, after.cache.index)
  {
    hide IsIndex, IsFilter, TierCount;
    IndexFilters(env.config, w.store, entries);
    var a := w.(rebuild := Entered);
    var b := w.(rebuild := ReadRevision(w.store.revision));
    var c := w.(rebuild := ReadIndex(w.store.revision, Index(entries, TierCount(entries, 1), TierCount(entries, 2))));
    ws := [w, a, b, c, Apply(env, c, PublishIndex)];
  }
}
