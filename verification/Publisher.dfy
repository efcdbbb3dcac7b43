/** Publication as a transaction over HEAD, index and worktree of a Git repository. */
module Publisher {
  import opened Base
  import opened LinkFiles

  // ----- paths -----

  datatype Directory = GenericDir | GeminiDir | ClaudeDir

  datatype Kind = AllLinks | VlessLinks | VmessLinks | TrojanLinks

  /** A file of a projection, the metadata, a file of the old flat layout, the temporary sibling of a
      file, or anything else in the repository. */
  datatype Path =
    | Subscription(dir: Directory, kind: Kind)
    | Meta
    | Legacy(kind: Kind)
    | Temp(of: Path)
    | Other(name: Bytes)

  const SUBSCRIPTIONS: seq<Path> :=
    [Subscription(GenericDir, AllLinks), Subscription(GenericDir, VlessLinks),
     Subscription(GenericDir, VmessLinks), Subscription(GenericDir, TrojanLinks),
     Subscription(GeminiDir, AllLinks), Subscription(GeminiDir, VlessLinks),
     Subscription(GeminiDir, VmessLinks), Subscription(GeminiDir, TrojanLinks),
     Subscription(ClaudeDir, AllLinks), Subscription(ClaudeDir, VlessLinks),
     Subscription(ClaudeDir, VmessLinks), Subscription(ClaudeDir, TrojanLinks)]

  const LEGACIES: seq<Path> := [Legacy(AllLinks), Legacy(VlessLinks), Legacy(VmessLinks), Legacy(TrojanLinks)]

  predicate IsTarget(p: Path) {
    p.Subscription? || p.Meta?
  }

  predicate Owned(p: Path) {
    IsTarget(p) || p.Legacy?
  }

  predicate IsTargetTemp(p: Path) {
    p.Temp? && IsTarget(p.of)
  }

  /** targetFiles. */
  function Targets(): (ps: seq<Path>)
    ensures forall p :: p in ps <==> IsTarget(p)
  {
    ListsAllPaths();
    SUBSCRIPTIONS + [Meta]
  }

  lemma ListsAllPaths()
    ensures forall p :: p in SUBSCRIPTIONS <==> p.Subscription?
    ensures forall p :: p in LEGACIES <==> p.Legacy?
  {
    forall p: Path | p.Subscription? ensures p in SUBSCRIPTIONS {
      var i := (match p.dir case GenericDir => 0 case GeminiDir => 4 case ClaudeDir => 8) +
               (match p.kind case AllLinks => 0 case VlessLinks => 1 case VmessLinks => 2 case TrojanLinks => 3);
      assert SUBSCRIPTIONS[i] == p;
    }
    forall p: Path | p.Legacy? ensures p in LEGACIES {
      var i := match p.kind case AllLinks => 0 case VlessLinks => 1 case VmessLinks => 2 case TrojanLinks => 3;
      assert LEGACIES[i] == p;
    }
  }

  // ----- the repository -----

  type Tree = map<Path, Bytes>

  datatype Repo = Repo(head: Tree, index: Tree, work: Tree, commits: nat)

  function Look(t: Tree, p: Path): Option<Bytes> {
    if p in t then Some(t[p]) else None
  }

  /** The tree with one path as it is in another one. */
  function Taken(t: Tree, from: Tree, p: Path): (r: Tree)
    ensures forall q :: Look(r, q) == if q == p then Look(from, p) else Look(t, q)
  {
    if p in from then t[p := from[p]] else t - {p}
  }

  function TakenAll(t: Tree, from: Tree, ps: seq<Path>): (r: Tree)
    ensures forall q :: Look(r, q) == if q in ps then Look(from, q) else Look(t, q)
  {
    if ps == [] then t else Taken(TakenAll(t, from, ps[..|ps|-1]), from, ps[|ps|-1])
  }

  lemma TreesEqual(a: Tree, b: Tree)
    requires forall p :: Look(a, p) == Look(b, p)
    ensures a == b
  {
    forall p ensures p in a <==> p in b {
      assert Look(a, p) == Look(b, p);
    }
    forall p | p in a ensures a[p] == b[p] {
      assert Look(a, p) == Look(b, p);
    }
  }

  /** HEAD, index and worktree agree on a path. */
  predicate Settled(r: Repo, p: Path) {
    Look(r.index, p) == Look(r.head, p) && Look(r.work, p) == Look(r.head, p)
  }

  /** checkWorkingTreeSafety: no uncommitted change in a target, or in a legacy file that exists on disk. */
  ghost predicate Safe(r: Repo) {
    forall p :: IsTarget(p) || (p.Legacy? && p in r.work) ==> Settled(r, p)
  }

  // ----- rollback -----

  /** What a rollback makes of a repository, given which owned files existed before: index and worktree
      of those as in HEAD, the others gone from the worktree and as in HEAD in the index. */
  ghost predicate IsRolledBack(r: Repo, existed: set<Path>, after: Repo) {
    && after.head == r.head && after.commits == r.commits
    && (forall p :: Owned(p) ==> Look(after.index, p) == Look(r.head, p))
    && (forall p :: Owned(p) ==> Look(after.work, p) == if p in existed then Look(r.head, p) else None)
    && (forall p :: IsTargetTemp(p) ==> p !in after.work && Look(after.index, p) == Look(r.index, p))
    && (forall p :: !Owned(p) && !IsTargetTemp(p) ==>
          Look(after.index, p) == Look(r.index, p) && Look(after.work, p) == Look(r.work, p))
  }

  /** A transaction may have done anything to the owned files and their temporary siblings. */
  ghost predicate OnlyOwnedChanged(r: Repo, s: Repo) {
    && s.head == r.head && s.commits == r.commits
    && (forall p :: !Owned(p) && !IsTargetTemp(p) ==> Look(s.index, p) == Look(r.index, p))
    && (forall p :: !Owned(p) && !IsTargetTemp(p) ==> Look(s.work, p) == Look(r.work, p))
  }

  ghost predicate Restored(r: Repo, after: Repo) {
    forall p :: Owned(p) ==> Look(after.index, p) == Look(r.index, p) && Look(after.work, p) == Look(r.work, p)
  }

  /** The owned files that exist in the worktree. */
  function Existing(r: Repo): (ps: set<Path>)
    ensures forall p :: p in ps <==> Owned(p) && p in r.work
  {
    set p | p in r.work && Owned(p)
  }

  /** The index agrees with HEAD on the legacy files that are not on disk. */
  ghost predicate MissingLegaciesSettled(r: Repo) {
    forall p: Path :: p.Legacy? && p !in r.work ==> Look(r.index, p) == Look(r.head, p)
  }

  /** Whatever the transaction did before it failed, a rollback after a passed safety check restores index
      and worktree on all owned paths if and only if the index agrees with HEAD on the legacy files that
      were missing on disk; and it touches nothing else but temporary siblings of targets. */
  lemma RollbackRestores(r: Repo, s: Repo, after: Repo)
    requires Safe(r) && OnlyOwnedChanged(r, s) && IsRolledBack(s, Existing(r), after)
    ensures Restored(r, after) <==> MissingLegaciesSettled(r)
    ensures OnlyOwnedChanged(r, after)
  {
    forall p | Owned(p)
      ensures Look(after.work, p) == Look(r.work, p)
      ensures Look(after.index, p) == Look(r.head, p)
      ensures IsTarget(p) || p in r.work ==> Look(r.index, p) == Look(r.head, p)
    {
      assert IsTarget(p) || p in r.work ==> Settled(r, p);
    }
  }

  /** When HEAD, index and worktree agree on all owned paths at the start, everything is restored. */
  lemma RollbackIsAtomic(r: Repo, s: Repo, after: Repo)
    requires (forall p :: Owned(p) ==> Settled(r, p)) && OnlyOwnedChanged(r, s) && IsRolledBack(s, Existing(r), after)
    ensures Restored(r, after) && OnlyOwnedChanged(r, after)
  {
    forall p: Path | p.Legacy? && p !in r.work ensures Look(r.index, p) == Look(r.head, p) {
      assert Settled(r, p);
    }
    RollbackRestores(r, s, after);
  }

  /** HEAD has an old file that is missing on disk, and its deletion is staged. */
  const DELETION_STAGED := Repo(map[Legacy(AllLinks) := "x"], map[], map[], 0)

  /** Why the condition is needed: the safety check passes, and a rollback unstages the deletion. */
  lemma StagedDeletionIsLost(s: Repo, after: Repo)
    requires OnlyOwnedChanged(DELETION_STAGED, s) && IsRolledBack(s, Existing(DELETION_STAGED), after)
    ensures Safe(DELETION_STAGED) && !MissingLegaciesSettled(DELETION_STAGED)
    ensures Look(DELETION_STAGED.index, Legacy(AllLinks)) == None
    ensures Look(after.index, Legacy(AllLinks)) == Some("x")
  {
    var p := Legacy(AllLinks);
    assert Owned(p) && p !in DELETION_STAGED.work;
    assert Look(DELETION_STAGED.head, p) == Some("x") && s.head == DELETION_STAGED.head;
  }

  // ----- the content of a publication -----

  ghost predicate Rendered(files: Tree) {
    forall p :: p in files <==> p.Subscription?
  }

  /** The files on disk are the rendered ones, and no legacy file is left. */
  predicate Unchanged(work: Tree, files: Tree) {
    (forall i :: 0 <= i < |SUBSCRIPTIONS| ==> Look(work, SUBSCRIPTIONS[i]) == Look(files, SUBSCRIPTIONS[i]))
    && forall i :: 0 <= i < |LEGACIES| ==> LEGACIES[i] !in work
  }

  /** The metadata to write: the bytes on disk when nothing changed and they parse to the same counts. */
  function MetaBytes(work: Tree, files: Tree, freshMeta: Bytes, matches: Bytes -> bool): Bytes {
    if Unchanged(work, files) && Meta in work && matches(work[Meta]) then work[Meta] else freshMeta
  }

  /** The worktree a publication aims at. */
  ghost predicate Written(r: Repo, files: Tree, meta: Bytes, work: Tree) {
    && (forall p: Path :: p.Subscription? ==> Look(work, p) == Look(files, p))
    && Look(work, Meta) == Some(meta)
    && (forall p: Path :: p.Legacy? ==> Look(work, p) == None)
    && (forall p :: !Owned(p) && !IsTargetTemp(p) ==> Look(work, p) == Look(r.work, p))
  }

  /** What git add stages: the targets and the legacy files that were removed. */
  predicate StagedPath(r: Repo, p: Path) {
    IsTarget(p) || (p.Legacy? && p in r.work)
  }

  ghost predicate IsStaged(r: Repo, work: Tree, index: Tree) {
    forall p :: Look(index, p) == if StagedPath(r, p) then Look(work, p) else Look(r.index, p)
  }

  /** A publication in which nothing fails: it commits the index if and only if a staged path differs
      from HEAD. */
  ghost predicate IsPublished(r: Repo, files: Tree, meta: Bytes, after: Repo, committed: bool) {
    && Written(r, files, meta, after.work) && IsStaged(r, after.work, after.index)
    && (committed <==> exists p :: StagedPath(r, p) && Look(after.index, p) != Look(r.head, p))
    && after.head == (if committed then after.index else r.head)
    && after.commits == (if committed then r.commits + 1 else r.commits)
  }

  /** Publishing again with the same rendered files stages nothing and makes no new commit, whatever the
      time and the cycle number in the new metadata. */
  lemma RepublishIsClean(r0: Repo, files: Tree, fresh0: Bytes, matches0: Bytes -> bool, r1: Repo, committed0: bool,
                         fresh1: Bytes, matches1: Bytes -> bool, r2: Repo, committed1: bool)
    requires Rendered(files) && matches1(MetaBytes(r0.work, files, fresh0, matches0))
    requires IsPublished(r0, files, MetaBytes(r0.work, files, fresh0, matches0), r1, committed0)
    requires IsPublished(r1, files, MetaBytes(r1.work, files, fresh1, matches1), r2, committed1)
    ensures !committed1 && r2.commits == r1.commits && r2.head == r1.head
    ensures r2.index == r1.index
    ensures forall p :: Owned(p) ==> Look(r2.work, p) == Look(r1.work, p)
  {
    ListsAllPaths();
    var meta := MetaBytes(r0.work, files, fresh0, matches0);
    forall i | 0 <= i < |SUBSCRIPTIONS| ensures Look(r1.work, SUBSCRIPTIONS[i]) == Look(files, SUBSCRIPTIONS[i]) {
      assert SUBSCRIPTIONS[i] in SUBSCRIPTIONS;
    }
    forall i | 0 <= i < |LEGACIES| ensures LEGACIES[i] !in r1.work {
      assert LEGACIES[i] in LEGACIES;
      assert Look(r1.work, LEGACIES[i]) == None;
    }
    assert Look(r1.work, Meta) == Some(meta);
    assert MetaBytes(r1.work, files, fresh1, matches1) == meta;
    forall p | StagedPath(r1, p) ensures Look(r2.index, p) == Look(r1.index, p) == Look(r1.head, p) {
      assert IsTarget(p) && StagedPath(r0, p);
      assert Look(r2.work, p) == Look(r1.work, p);
    }
    TreesEqual(r2.index, r1.index);
  }

  /** The subscription files on disk are the rendered ones, and no legacy file is on disk. */
  ghost predicate OnDisk(work: Tree, files: Tree) {
    && (forall p: Path :: p.Subscription? ==> Look(work, p) == Look(files, p))
    && forall p: Path :: p.Legacy? ==> p !in work
  }

  lemma UnchangedIsOnDisk(work: Tree, files: Tree)
    ensures Unchanged(work, files) <==> OnDisk(work, files)
  {
    ListsAllPaths();
    if Unchanged(work, files) {
      forall p: Path | p.Subscription? ensures Look(work, p) == Look(files, p) {
        assert p in SUBSCRIPTIONS;
      }
      forall p: Path | p.Legacy? ensures p !in work {
        assert p in LEGACIES;
      }
    }
    if OnDisk(work, files) {
      forall i | 0 <= i < |SUBSCRIPTIONS| ensures Look(work, SUBSCRIPTIONS[i]) == Look(files, SUBSCRIPTIONS[i]) {
        assert SUBSCRIPTIONS[i] in SUBSCRIPTIONS;
      }
      forall i | 0 <= i < |LEGACIES| ensures LEGACIES[i] !in work {
        assert LEGACIES[i] in LEGACIES;
      }
    }
  }

  /** When a publication commits, and with which metadata. Metadata with the same counts is kept only if the
      files on disk are the rendered ones, and then there is nothing to commit; changed files are committed
      with the new metadata even if the counts are the same. */
  lemma PublishesExactly(r: Repo, files: Tree, freshMeta: Bytes, matches: Bytes -> bool, after: Repo, committed: bool)
    requires Safe(r) && Rendered(files)
    requires IsPublished(r, files, MetaBytes(r.work, files, freshMeta, matches), after, committed)
    ensures var same, kept := OnDisk(r.work, files), Meta in r.work && matches(r.work[Meta]);
            && (!same ==> committed && Look(after.work, Meta) == Some(freshMeta))
            && (same && kept ==> !committed && Look(after.work, Meta) == Look(r.work, Meta))
            && (same && !kept ==> Look(after.work, Meta) == Some(freshMeta)
                                  && (committed <==> Look(r.work, Meta) != Some(freshMeta)))
    ensures committed ==> forall p :: IsTarget(p) ==> Look(after.head, p) == Look(after.work, p)
    ensures committed ==> forall p: Path :: p.Legacy? && p in r.work ==> p !in after.head
  {
    UnchangedIsOnDisk(r.work, files);
    var meta := MetaBytes(r.work, files, freshMeta, matches);
    forall p | StagedPath(r, p)
      ensures Look(r.head, p) == Look(r.work, p) && Look(after.index, p) == Look(after.work, p)
    {
      assert Settled(r, p);
    }
    assert Look(after.work, Meta) == Some(meta) && StagedPath(r, Meta);
    if !OnDisk(r.work, files) {
      if p: Path :| p.Subscription? && Look(r.work, p) != Look(files, p) {
        assert StagedPath(r, p) && Look(after.index, p) != Look(r.head, p);
      } else {
        var p: Path :| p.Legacy? && p in r.work;
        assert StagedPath(r, p) && Look(after.work, p) == None && Look(r.work, p).Some?;
      }
    } else {
      forall p | StagedPath(r, p) && p != Meta ensures Look(after.index, p) == Look(r.head, p) {
        assert p.Subscription?;
      }
    }
    forall p: Path | p.Legacy? && p in r.work ensures Look(after.index, p) == None {
      assert StagedPath(r, p);
    }
    assert forall p: Path :: p.Legacy? && p in r.work ==> Look(after.index, p) == None && p !in after.index;
  }

  // ----- from lists of links -----

  datatype Counts = Counts(all: nat, vless: nat, vmess: nat, trojan: nat)

  /** The counts in the metadata, and the links that the store lists, one each per projection. */
  datatype Totals = Totals(generic: Counts, gemini: Counts, claude: Counts)

  datatype Projections = Projections(generic: seq<Bytes>, gemini: seq<Bytes>, claude: seq<Bytes>)

  /** How metadata is printed, with a time and a cycle number, and what counts a file shows, if it parses. */
  datatype MetaCodec = MetaCodec(render: (Totals, Bytes) -> Bytes, totals: Bytes -> Option<Totals>)

  ghost predicate MetaOk(mc: MetaCodec) {
    forall totals, stamp :: mc.totals(mc.render(totals, stamp)) == Some(totals)
  }

  /** Whether metadata on disk has the counts of this publication. */
  function Matches(mc: MetaCodec, totals: Totals): Bytes -> bool {
    b => mc.totals(b) == Some(totals)
  }

  function OfKind(all: seq<Bytes>, kind: Kind): seq<Bytes> {
    match kind
    case AllLinks => all
    case VlessLinks => OfProtocol(all, Vless)
    case VmessLinks => OfProtocol(all, Vmess)
    case TrojanLinks => OfProtocol(all, Trojan)
  }

  function CountsOf(all: seq<Bytes>): Counts {
    Counts(|all|, |OfKind(all, VlessLinks)|, |OfKind(all, VmessLinks)|, |OfKind(all, TrojanLinks)|)
  }

  /** The files of one projection render its sorted list. */
  ghost predicate RendersList(all: seq<Bytes>, files: Tree, dir: Directory) {
    forall kind :: Look(files, Subscription(dir, kind)) == Some(RenderList(OfKind(all, kind)))
  }

  ghost predicate RendersLinks(trim: Bytes -> Bytes, raw: seq<Bytes>, files: Tree, dir: Directory, counts: Counts) {
    exists all :: Lists(all, Kept(trim, raw)) && RendersList(all, files, dir) && counts == CountsOf(all)
  }

  /** RenderSubscriptionFiles. */
  ghost predicate RendersAll(trim: Bytes -> Bytes, raws: Projections, files: Tree, totals: Totals) {
    && Rendered(files)
    && RendersLinks(trim, raws.generic, files, GenericDir, totals.generic)
    && RendersLinks(trim, raws.gemini, files, GeminiDir, totals.gemini)
    && RendersLinks(trim, raws.claude, files, ClaudeDir, totals.claude)
  }

  function KindText(kind: Kind, all: Bytes, vless: Bytes, vmess: Bytes, trojan: Bytes): Bytes {
    match kind
    case AllLinks => all
    case VlessLinks => vless
    case VmessLinks => vmess
    case TrojanLinks => trojan
  }

  function Placed(files: Tree, dir: Directory, all: Bytes, vless: Bytes, vmess: Bytes, trojan: Bytes): (r: Tree)
    ensures forall p :: Look(r, p) == if p.Subscription? && p.dir == dir
                                      then Some(KindText(p.kind, all, vless, vmess, trojan)) else Look(files, p)
  {
    files[Subscription(dir, AllLinks) := all][Subscription(dir, VlessLinks) := vless]
         [Subscription(dir, VmessLinks) := vmess][Subscription(dir, TrojanLinks) := trojan]
  }

  /** The four files of a projection, added to those of the projections before it. */
  method RenderProjection(trim: Bytes -> Bytes, raw: seq<Bytes>, dir: Directory, files0: Tree)
    returns (files: Tree, counts: Counts)
    ensures RendersLinks(trim, raw, files, dir, counts)
    ensures forall p :: Look(files, p) != Look(files0, p) ==> p.Subscription? && p.dir == dir
    ensures forall p :: p in files <==> p in files0 || (p.Subscription? && p.dir == dir)
  {
    var all, vless, vmess, trojan := PartitionLinks(trim, raw);
    hide RenderList, Placed, Lists;
    files := Placed(files0, dir, RenderList(all), RenderList(vless), RenderList(vmess), RenderList(trojan));
    counts := Counts(|all|, |vless|, |vmess|, |trojan|);
    forall kind ensures Look(files, Subscription(dir, kind)) == Some(RenderList(OfKind(all, kind))) {
      assert Subscription(dir, kind).Subscription?;
    }
    assert RendersList(all, files, dir);
    forall p ensures p in files <==> p in files0 || (p.Subscription? && p.dir == dir) {
      assert p in files <==> Look(files, p).Some?;
    }
  }

  lemma RendersElsewhere(trim: Bytes -> Bytes, raw: seq<Bytes>, files: Tree, files': Tree, dir: Directory,
                         counts: Counts)
    requires RendersLinks(trim, raw, files, dir, counts)
    requires forall kind :: Look(files', Subscription(dir, kind)) == Look(files, Subscription(dir, kind))
    ensures RendersLinks(trim, raw, files', dir, counts)
  {
    hide Lists, Kept, RenderList, OfKind, CountsOf;
    var all :| Lists(all, Kept(trim, raw)) && RendersList(all, files, dir) && counts == CountsOf(all);
    assert RendersList(all, files', dir);
  }

  method RenderSubscriptionFiles(trim: Bytes -> Bytes, raws: Projections) returns (files: Tree, totals: Totals)
    ensures RendersAll(trim, raws, files, totals)
  {
    hide RendersLinks;
    var generic, gemini, claude;
    var files1, files2;
    files1, generic := RenderProjection(trim, raws.generic, GenericDir, map[]);
    files2, gemini := RenderProjection(trim, raws.gemini, GeminiDir, files1);
    files, claude := RenderProjection(trim, raws.claude, ClaudeDir, files2);
    totals := Totals(generic, gemini, claude);
    RendersElsewhere(trim, raws.generic, files1, files, GenericDir, generic);
    RendersElsewhere(trim, raws.gemini, files2, files, GeminiDir, gemini);
  }

  ghost predicate SameLinks(a: seq<Bytes>, b: seq<Bytes>) {
    forall l :: l in a <==> l in b
  }

  lemma SameLinksRendered(trim: Bytes -> Bytes, raw: seq<Bytes>, raw': seq<Bytes>, files: Tree, files': Tree,
                          dir: Directory, counts: Counts, counts': Counts)
    requires SameLinks(raw, raw')
    requires RendersLinks(trim, raw, files, dir, counts) && RendersLinks(trim, raw', files', dir, counts')
    ensures counts == counts'
    ensures forall kind :: Look(files, Subscription(dir, kind)) == Look(files', Subscription(dir, kind))
  {
    hide Lists, Kept, RenderList, OfKind, CountsOf;
    var all :| Lists(all, Kept(trim, raw)) && RendersList(all, files, dir) && counts == CountsOf(all);
    var all' :| Lists(all', Kept(trim, raw')) && RendersList(all', files', dir) && counts' == CountsOf(all');
    PartitionDependsOnSet(trim, raw, raw', all, all');
  }

  /** The rendered files and their counts depend on the sets of links only. */
  lemma SameLinksSameFiles(trim: Bytes -> Bytes, raws: Projections, raws': Projections, files: Tree, files': Tree,
                           totals: Totals, totals': Totals)
    requires SameLinks(raws.generic, raws'.generic) && SameLinks(raws.gemini, raws'.gemini)
    requires SameLinks(raws.claude, raws'.claude)
    requires RendersAll(trim, raws, files, totals) && RendersAll(trim, raws', files', totals')
    ensures files == files' && totals == totals'
  {
    hide RendersLinks, SameLinks;
    SameLinksRendered(trim, raws.generic, raws'.generic, files, files', GenericDir, totals.generic, totals'.generic);
    SameLinksRendered(trim, raws.gemini, raws'.gemini, files, files', GeminiDir, totals.gemini, totals'.gemini);
    SameLinksRendered(trim, raws.claude, raws'.claude, files, files', ClaudeDir, totals.claude, totals'.claude);
    forall p ensures Look(files, p) == Look(files', p) {
      if p.Subscription? {
        match p.dir
        case GenericDir => assert p == Subscription(GenericDir, p.kind);
        case GeminiDir => assert p == Subscription(GeminiDir, p.kind);
        case ClaudeDir => assert p == Subscription(ClaudeDir, p.kind);
      }
    }
    TreesEqual(files, files');
  }

  /** From the lists of the store to the repository: publishing the same sets of links a second time, in
      any order, with any repetition and at any time, makes no commit and stages nothing. */
  lemma SameLinksPublishOnce(trim: Bytes -> Bytes, mc: MetaCodec, raws: Projections, raws': Projections,
                             files: Tree, files': Tree, totals: Totals, totals': Totals, stamp: Bytes, stamp': Bytes,
                             r0: Repo, r1: Repo, r2: Repo, committed: bool, committed': bool)
    requires SameLinks(raws.generic, raws'.generic) && SameLinks(raws.gemini, raws'.gemini)
    requires SameLinks(raws.claude, raws'.claude) && MetaOk(mc)
    requires RendersAll(trim, raws, files, totals) && RendersAll(trim, raws', files', totals')
    requires IsPublished(r0, files, MetaBytes(r0.work, files, mc.render(totals, stamp), Matches(mc, totals)), r1,
                         committed)
    requires IsPublished(r1, files', MetaBytes(r1.work, files', mc.render(totals', stamp'), Matches(mc, totals')), r2,
                         committed')
    ensures !committed' && r2.commits == r1.commits && r2.head == r1.head && r2.index == r1.index
    ensures forall p :: Owned(p) ==> Look(r2.work, p) == Look(r1.work, p)
  {
    hide RendersLinks, SameLinks, IsPublished, Unchanged;
    SameLinksSameFiles(trim, raws, raws', files, files', totals, totals');
    var meta, meta' := mc.render(totals, stamp), mc.render(totals', stamp');
    var matches := Matches(mc, totals);
    assert matches(meta);
    assert matches(MetaBytes(r0.work, files, meta, matches));
    RepublishIsClean(r0, files, meta, matches, r1, committed, meta', Matches(mc, totals'), r2, committed');
  }

  // ----- the transaction -----

  /** The steps that can fail, and what a failing one has done before: a write may leave its temporary
      file, and git add may have staged some of the paths. */
  datatype Step = RemoveLegacy(p: Path) | WriteTarget(p: Path) | Add | Diff | Commit

  datatype Outcome = Done | Failed(partial: seq<Path>)

  ghost predicate NothingFails(faults: Step -> Outcome) {
    forall step :: faults(step).Done?
  }

  datatype Result = Refused | RolledBack | Committed | NothingToDo

  /** A path once these targets were written: its new content, no temporary sibling, or what it was. */
  function LookWritten(contents: Tree, written: seq<Path>, before: Tree, p: Path): Option<Bytes> {
    if p in written then Look(contents, p)
    else if p.Temp? && p.of in written then None
    else Look(before, p)
  }

  /** The owned files to restore and those to remove. */
  method SplitFiles(existed: set<Path>) returns (toRestore: seq<Path>, toRemove: seq<Path>)
    ensures forall p :: p in toRestore <==> Owned(p) && p in existed
    ensures forall p :: p in toRemove <==> Owned(p) && p !in existed
  {
    ListsAllPaths();
    var files := Targets() + LEGACIES;
    assert forall p :: p in files <==> Owned(p);
    toRestore, toRemove := [], [];
    for i := 0 to |files|
      invariant forall p :: p in toRestore <==> p in files[..i] && p in existed
      invariant forall p :: p in toRemove <==> p in files[..i] && p !in existed
    {
      assert files[..i+1] == files[..i] + [files[i]];
      if files[i] in existed {
        toRestore := toRestore + [files[i]];
      } else {
        toRemove := toRemove + [files[i]];
      }
    }
    assert files[..|files|] == files;
  }

  /** A path of the worktree once the files were restored or removed and the temporary files are gone. */
  function LookRolledBack(r: Repo, toRestore: seq<Path>, toRemove: seq<Path>, p: Path): Option<Bytes> {
    if p in toRestore then Look(r.head, p)
    else if p in toRemove || IsTargetTemp(p) then None
    else Look(r.work, p)
  }

  lemma RolledBackPaths(r: Repo, existed: set<Path>, toRestore: seq<Path>, toRemove: seq<Path>, after: Repo)
    requires forall p :: p in toRestore <==> Owned(p) && p in existed
    requires forall p :: p in toRemove <==> Owned(p) && p !in existed
    requires after.head == r.head && after.commits == r.commits
    requires forall p :: Look(after.index, p) == Look(if p in toRestore || p in toRemove then r.head else r.index, p)
    requires forall p :: Look(after.work, p) == LookRolledBack(r, toRestore, toRemove, p)
    ensures IsRolledBack(r, existed, after)
  {
    forall p: Path
      ensures Look(after.index, p) == Look(if Owned(p) then r.head else r.index, p)
      ensures Look(after.work, p) == LookRolledBack(r, toRestore, toRemove, p)
      ensures IsTargetTemp(p) ==> Look(after.work, p).None? && p !in after.work
    {
      assert (p in toRestore || p in toRemove) <==> Owned(p);
    }
  }

  /** Writing one more target. */
  lemma WrittenStep(contents: Tree, targets: seq<Path>, i: nat, before: Tree, mid: Tree, after: Tree)
    requires i < |targets| && (forall p :: p in targets ==> IsTarget(p)) && targets[i] in contents
    requires forall p :: Look(mid, p) == LookWritten(contents, targets[..i], before, p)
    requires after == mid[targets[i] := contents[targets[i]]] - {Temp(targets[i])}
    ensures forall p :: Look(after, p) == LookWritten(contents, targets[..i+1], before, p)
  {
    assert targets[..i+1] == targets[..i] + [targets[i]];
    assert forall q :: q in targets[..i+1] ==> q in targets;
    forall p ensures Look(after, p) == LookWritten(contents, targets[..i+1], before, p) {
      assert Look(mid, p) == LookWritten(contents, targets[..i], before, p);
      if p == Temp(targets[i]) {
        assert !IsTarget(p);
        assert p !in targets[..i+1];
      }
    }
  }

  /** A transaction that has written some targets, and perhaps left a temporary file. */
  lemma WrittenOnlyOwned(contents: Tree, targets: seq<Path>, i: nat, before: Tree, mid: Tree)
    requires i <= |targets| && (forall p :: p in targets ==> IsTarget(p))
    requires forall p :: Look(mid, p) == LookWritten(contents, targets[..i], before, p)
    ensures forall p :: !Owned(p) && !IsTargetTemp(p) ==> Look(mid, p) == Look(before, p)
  {
    assert forall q :: q in targets[..i] ==> q in targets;
  }

  class Publisher {
    var head: Tree
    var index: Tree
    var work: Tree
    var commits: nat

    function Value(): Repo
      reads this
    {
      Repo(head, index, work, commits)
    }

    constructor (r: Repo)
      ensures Value() == r
    {
      head, index, work, commits := r.head, r.index, r.work, r.commits;
    }

    /** checkWorkingTreeSafety. */
    method CheckSafety() returns (ok: bool)
      ensures ok <==> Safe(Value())
    {
      ListsAllPaths();
      var files := Targets();
      for i := 0 to |LEGACIES|
        invariant forall p :: p in files <==> IsTarget(p) || (p in LEGACIES[..i] && p in work)
      {
        assert LEGACIES[..i+1] == LEGACIES[..i] + [LEGACIES[i]];
        if LEGACIES[i] in work {
          files := files + [LEGACIES[i]];
        }
      }
      assert LEGACIES[..|LEGACIES|] == LEGACIES;
      ok := true;
      for i := 0 to |files|
        invariant ok <==> forall p :: p in files[..i] ==> Settled(Value(), p)
      {
        assert files[..i+1] == files[..i] + [files[i]];
        if !Settled(Value(), files[i]) {
          ok := false;
        }
      }
      assert files[..|files|] == files;
    }

    method RemoveTemps(targets: seq<Path>)
      modifies this`work
      ensures forall p :: Look(work, p) == if p.Temp? && p.of in targets then None else Look(old(work), p)
    {
      for i := 0 to |targets|
        invariant forall p :: Look(work, p) == if p.Temp? && p.of in targets[..i] then None else Look(old(work), p)
      {
        assert targets[..i+1] == targets[..i] + [targets[i]];
        work := work - {Temp(targets[i])};
      }
      assert targets[..|targets|] == targets;
    }

    method RemoveFiles(files: seq<Path>)
      modifies this`work
      ensures forall p :: Look(work, p) == if p in files then None else Look(old(work), p)
    {
      for i := 0 to |files|
        invariant forall p :: Look(work, p) == if p in files[..i] then None else Look(old(work), p)
      {
        assert files[..i+1] == files[..i] + [files[i]];
        work := work - {files[i]};
      }
      assert files[..|files|] == files;
    }

    /** rollback in a repository with a HEAD, when its own commands succeed. */
    method Rollback(existed: set<Path>)
      modifies this`index, this`work
      ensures IsRolledBack(old(Value()), existed, Value())
    {
      hide Targets, Safe, IsRolledBack;
      ghost var r := Value();
      RemoveTemps(Targets());
      assert forall p: Path :: p.Temp? && p.of in Targets() <==> IsTargetTemp(p);
      var toRestore, toRemove := SplitFiles(existed);
      index := TakenAll(index, head, toRemove);
      RemoveFiles(toRemove);
      index := TakenAll(index, head, toRestore);
      work := TakenAll(work, head, toRestore);
      RolledBackPaths(r, existed, toRestore, toRemove, Value());
    }

    /** The removal of legacy files; those removed are to be staged. */
    method RemoveLegacies(faults: Step -> Outcome) returns (ok: bool, removed: seq<Path>)
      modifies this`work
      ensures OnlyOwnedChanged(old(Value()), Value())
      ensures ok ==> forall p :: Look(work, p) == if p.Legacy? then None else Look(old(work), p)
      ensures ok ==> forall p :: p in removed <==> p.Legacy? && p in old(work)
      ensures NothingFails(faults) ==> ok
    {
      ListsAllPaths();
      ok, removed := true, [];
      for i := 0 to |LEGACIES|
        invariant forall p :: Look(work, p) == if p in LEGACIES[..i] then None else Look(old(work), p)
        invariant forall p :: p in removed <==> p in LEGACIES[..i] && p in old(work)
      {
        assert LEGACIES[..i+1] == LEGACIES[..i] + [LEGACIES[i]];
        assert LEGACIES[i] in LEGACIES;
        if LEGACIES[i] in work {
          if faults(RemoveLegacy(LEGACIES[i])).Failed? {
            return false, removed;
          }
          work := work - {LEGACIES[i]};
          removed := removed + [LEGACIES[i]];
        }
      }
      assert LEGACIES[..|LEGACIES|] == LEGACIES;
    }

    /** The writes of the targets, each through its temporary sibling. */
    method WriteTargets(files: Tree, meta: Bytes, faults: Step -> Outcome) returns (ok: bool)
      requires Rendered(files)
      modifies this`work
      ensures OnlyOwnedChanged(old(Value()), Value())
      ensures ok ==> forall p :: Look(work, p) == LookWritten(files[Meta := meta], Targets(), old(work), p)
      ensures NothingFails(faults) ==> ok
    {
      var targets := Targets();
      var contents := files[Meta := meta];
      ok := true;
      for i := 0 to |targets|
        invariant forall p :: Look(work, p) == LookWritten(contents, targets[..i], old(work), p)
      {
        var p := targets[i];
        assert p in targets;
        var outcome := faults(WriteTarget(p));
        WrittenOnlyOwned(contents, targets, i, old(work), work);
        if outcome.Failed? {
          if Temp(p) in outcome.partial {
            work := work[Temp(p) := contents[p]];
          }
          return false;
        }
        ghost var mid := work;
        work := work[p := contents[p]] - {Temp(p)};
        WrittenStep(contents, targets, i, old(work), mid, work);
      }
      assert targets[..|targets|] == targets;
      WrittenOnlyOwned(contents, targets, |targets|, old(work), work);
    }

    /** git add on the staged paths. */
    method Stage(stage: seq<Path>, faults: Step -> Outcome) returns (ok: bool)
      requires forall p :: p in stage ==> Owned(p)
      modifies this`index
      ensures OnlyOwnedChanged(old(Value()), Value())
      ensures ok ==> forall p :: Look(index, p) == if p in stage then Look(work, p) else Look(old(index), p)
      ensures NothingFails(faults) ==> ok
    {
      var outcome := faults(Add);
      if outcome.Failed? {
        var partial := seq(|stage|, i requires 0 <= i < |stage| => stage[i]);
        if outcome.partial != [] && |outcome.partial| < |stage| {
          partial := stage[..|outcome.partial|];
        }
        index := TakenAll(index, work, partial);
        return false;
      }
      index := TakenAll(index, work, stage);
      ok := true;
    }

    method HasStagedChanges(stage: seq<Path>) returns (changed: bool)
      ensures changed <==> exists p :: p in stage && Look(index, p) != Look(head, p)
    {
      changed := false;
      for i := 0 to |stage|
        invariant changed <==> exists p :: p in stage[..i] && Look(index, p) != Look(head, p)
      {
        assert stage[..i+1] == stage[..i] + [stage[i]];
        if Look(index, stage[i]) != Look(head, stage[i]) {
          changed := true;
        }
      }
      assert stage[..|stage|] == stage;
    }

    /** From the removal of legacy files to the commit. */
    method Transaction(files: Tree, meta: Bytes, faults: Step -> Outcome) returns (ok: bool, committed: bool)
      requires Rendered(files)
      modifies this
      ensures !ok ==> OnlyOwnedChanged(old(Value()), Value())
      ensures ok ==> IsPublished(old(Value()), files, meta, Value(), committed)
      ensures NothingFails(faults) ==> ok
    {
      committed := false;
      var removed;
      ok, removed := RemoveLegacies(faults);
      if !ok { return; }
      ok := WriteTargets(files, meta, faults);
      if !ok { return; }
      assert Written(old(Value()), files, meta, work);
      var stage := Targets() + removed;
      assert forall p :: p in stage <==> StagedPath(old(Value()), p);
      ok := Stage(stage, faults);
      if !ok { return; }
      if faults(Diff).Failed? { return false, false; }
      var changed := HasStagedChanges(stage);
      if changed {
        if faults(Commit).Failed? { return false, false; }
        head := index;
        commits := commits + 1;
        committed := true;
      }
    }

    /** The choice between the metadata on disk and the new one, with its two loops over files. */
    method ChooseMeta(files: Tree, freshMeta: Bytes, matches: Bytes -> bool) returns (meta: Bytes)
      ensures meta == MetaBytes(work, files, freshMeta, matches)
    {
      for i := 0 to |SUBSCRIPTIONS|
        invariant forall j :: 0 <= j < i ==> Look(work, SUBSCRIPTIONS[j]) == Look(files, SUBSCRIPTIONS[j])
      {
        if Look(work, SUBSCRIPTIONS[i]) != Look(files, SUBSCRIPTIONS[i]) {
          return freshMeta;
        }
      }
      for i := 0 to |LEGACIES|
        invariant forall j :: 0 <= j < i ==> LEGACIES[j] !in work
      {
        if LEGACIES[i] in work {
          return freshMeta;
        }
      }
      if Meta in work {
        if matches(work[Meta]) {
          return work[Meta];
        }
      }
      meta := freshMeta;
    }

    /** Publish, without the push: `freshMeta` is the new metadata and `matches` tells whether metadata on
        disk has the same counts. */
    method Publish(files: Tree, freshMeta: Bytes, matches: Bytes -> bool,
                   faults: Step -> Outcome) returns (result: Result)
      requires Rendered(files)
      modifies this
      ensures result == Refused <==> !Safe(old(Value()))
      ensures result == Refused ==> Value() == old(Value())
      ensures result == RolledBack ==> !NothingFails(faults) && OnlyOwnedChanged(old(Value()), Value())
      ensures result == RolledBack ==>
        (Restored(old(Value()), Value()) <==> MissingLegaciesSettled(old(Value())))
      ensures result == Committed || result == NothingToDo ==>
        IsPublished(old(Value()), files, MetaBytes(old(work), files, freshMeta, matches), Value(), result == Committed)
    {
      var safe := CheckSafety();
      if !safe { return Refused; }
      var existed := Existing(Value());
      var meta := ChooseMeta(files, freshMeta, matches);
      var ok, committed := Transaction(files, meta, faults);
      if !ok {
        ghost var failed := Value();
        Rollback(existed);
        RollbackRestores(old(Value()), failed, Value());
        return RolledBack;
      }
      result := if committed then Committed else NothingToDo;
    }
  }
}
