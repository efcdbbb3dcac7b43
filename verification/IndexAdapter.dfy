/** The adapter between the store and the user interface: the cached index with its filters, and the
    opaque IDs under which candidates are shown. */
module IndexAdapter {
  import opened Base
  import opened JsonNumber
  import opened CandidateIndex

  datatype Filter = All | Gemini | Generic

  function OpaqueID(n: nat): Bytes {
    "cand-" + Decimal(n)
  }

  lemma OpaqueIDsDiffer(m: nat, n: nat)
    ensures OpaqueID(m) == OpaqueID(n) <==> m == n
  {
    if OpaqueID(m) == OpaqueID(n) {
      assert OpaqueID(m)[5..] == Decimal(m) && OpaqueID(n)[5..] == Decimal(n);
      DecimalReads(m);
      DecimalReads(n);
    }
  }

  /** Each map is the inverse of the other. */
  ghost predicate Inverse(linkToID: map<Bytes, Bytes>, idToLink: map<Bytes, Bytes>) {
    && (forall l :: l in linkToID ==> linkToID[l] in idToLink && idToLink[linkToID[l]] == l)
    && (forall d :: d in idToLink ==> idToLink[d] in linkToID && linkToID[idToLink[d]] == d)
  }

  /** The part of a list that a window shows. */
  function WindowOf<T>(s: seq<T>, offset: int, limit: int): seq<T> {
    var first := if offset < 0 then 0 else if offset > |s| then |s| else offset;
    var end := if first + limit > |s| then |s| else first + limit;
    if first >= end then [] else s[first..end]
  }

  /** Pages that follow each other make up one page, and a page that is long enough shows the whole list. */
  lemma PagesConcat<T>(s: seq<T>, offset: nat, m: nat, n: nat)
    ensures WindowOf(s, offset, m) + WindowOf(s, offset + m, n) == WindowOf(s, offset, m + n)
    ensures WindowOf(s, 0, |s|) == s
  {
  }

  /** A negative offset is the start of the list, and a page never shows more than its limit. */
  lemma PageEdges<T>(s: seq<T>, offset: int, limit: int)
    ensures offset <= 0 ==> WindowOf(s, offset, limit) == WindowOf(s, 0, limit)
    ensures limit <= 0 ==> WindowOf(s, offset, limit) == []
    ensures limit >= 0 ==> |WindowOf(s, offset, limit)| <= limit
  {
  }

  function Filtered(entries: seq<Entry>, gemini: nat, generic: nat, filter: Filter): seq<Entry>
    requires gemini <= |entries| && generic <= |entries|
  {
    match filter
    case All => entries
    case Gemini => entries[..gemini]
    case Generic => entries[..generic]
  }

  predicate HasID(linkToID: map<Bytes, Bytes>, e: Entry, id: Bytes) {
    e.canonicalLink in linkToID && linkToID[e.canonicalLink] == id
  }

  class Adapter {
    var cachedEntries: seq<Entry>
    var gemini: nat
    var generic: nat
    var lastIndexRev: nat
    var idCounter: nat
    var linkToID: map<Bytes, Bytes>
    var idToLink: map<Bytes, Bytes>
    /** Every ID that was ever given out. */
    ghost var issued: set<Bytes>

    ghost predicate Valid()
      reads this
    {
      && gemini <= |cachedEntries| && generic <= |cachedEntries| && Inverse(linkToID, idToLink)
      && (forall d :: d in idToLink ==> d in issued)
      && (forall d :: d in issued ==> exists m :: 1 <= m <= idCounter && d == OpaqueID(m))
    }

    constructor ()
      ensures Valid() && cachedEntries == [] && linkToID == map[] && idToLink == map[] && issued == {}
    {
      cachedEntries, gemini, generic, lastIndexRev, idCounter := [], 0, 0, 0, 0;
      linkToID, idToLink := map[], map[];
      issued := {};
    }

    /** The last section of rebuildIndex, on sorted entries. */
    method PublishIndex(entries: seq<Entry>, revision: nat)
      requires Valid() && Sorted(EntryLess, entries)
      modifies this`cachedEntries, this`gemini, this`generic, this`lastIndexRev
      ensures Valid() && cachedEntries == entries && lastIndexRev == revision
      ensures gemini == TierCount(entries, 1) && generic == TierCount(entries, 2)
      ensures IsFilter(entries, gemini, 1) && IsFilter(entries, generic, 2)
    {
      var gem, gen := CountTiers(entries);
      cachedEntries, gemini, generic, lastIndexRev := entries, gem, gen, revision;
    }

    /** The ID of a candidate; a new one if it has none. An ID that is given out now was never given
        out before. */
    method AssignID(canonical: Bytes) returns (id: Bytes)
      requires Valid()
      modifies this`idCounter, this`linkToID, this`idToLink, this`issued
      ensures Valid() && canonical in linkToID && linkToID[canonical] == id
      ensures forall l :: l in old(linkToID) ==> l in linkToID && linkToID[l] == old(linkToID)[l]
      ensures forall l :: l in linkToID ==> l in old(linkToID) || l == canonical
      ensures old(issued) <= issued
      ensures canonical !in old(linkToID) ==> id !in old(issued)
    {
      if canonical in linkToID {
        id := linkToID[canonical];
      } else {
        idCounter := idCounter + 1;
        id := OpaqueID(idCounter);
        forall d | d in issued ensures d != id {
          var m :| 1 <= m <= old(idCounter) && d == OpaqueID(m);
          OpaqueIDsDiffer(m, idCounter);
        }
        linkToID := linkToID[canonical := id];
        idToLink := idToLink[id := canonical];
        issued := issued + {id};
        assert forall d :: d in old(issued) ==> exists m :: 1 <= m <= idCounter && d == OpaqueID(m);
      }
    }

    /** CandidateRowsWindow, once the cache was refreshed: the entries of the window and their IDs. */
    method CandidateRowsWindow(filter: Filter, offset: int, limit: int) returns (entries: seq<Entry>, ids: seq<Bytes>)
      requires Valid()
      modifies this`idCounter, this`linkToID, this`idToLink, this`issued
      ensures Valid() && old(issued) <= issued
      ensures entries == WindowOf(Filtered(cachedEntries, gemini, generic, filter), offset, limit)
      ensures |ids| == |entries|
      ensures forall i :: 0 <= i < |ids| ==> HasID(linkToID, entries[i], ids[i])
      ensures forall l :: l in old(linkToID) ==> l in linkToID && linkToID[l] == old(linkToID)[l]
    {
      hide Inverse;
      var shown := cachedEntries;
      if filter == Gemini {
        shown := cachedEntries[..gemini];
      } else if filter == Generic {
        shown := cachedEntries[..generic];
      }
      var first, total := offset, |shown|;
      if first < 0 {
        first := 0;
      }
      if first > total {
        first := total;
      }
      var end := first + limit;
      if end > total {
        end := total;
      }
      if first >= end { return [], []; }
      entries := shown[first..end];
      ids := [];
      for i := 0 to |entries|
        invariant Valid() && old(issued) <= issued && |ids| == i
        invariant forall j :: 0 <= j < i ==> HasID(linkToID, entries[j], ids[j])
        invariant forall l :: l in old(linkToID) ==> l in linkToID && linkToID[l] == old(linkToID)[l]
      {
        var id := AssignID(entries[i].canonicalLink);
        ids := ids + [id];
      }
    }

    method Forget(link: Bytes)
      requires Valid() && link in linkToID
      modifies this`linkToID, this`idToLink
      ensures Valid() && linkToID == old(linkToID) - {link} && idToLink == old(idToLink) - {old(linkToID)[link]}
    {
      var id := linkToID[link];
      linkToID := linkToID - {link};
      idToLink := idToLink - {id};
    }

    /** The locked section of pruneOrphanIDs: links that were found orphaned are looked up again, and
        go with their IDs only if they still are. */
    method PruneOrphans(toDelete: seq<Bytes>, hasRecord: Bytes -> bool)
      requires Valid()
      modifies this`linkToID, this`idToLink
      ensures Valid()
      ensures forall l :: l in linkToID <==> l in old(linkToID) && (hasRecord(l) || l !in toDelete)
      ensures forall l :: l in linkToID ==> linkToID[l] == old(linkToID)[l]
    {
      hide Inverse;
      for i := 0 to |toDelete|
        invariant Valid()
        invariant forall l :: l in linkToID <==> l in old(linkToID) && (hasRecord(l) || l !in toDelete[..i])
        invariant forall l :: l in linkToID ==> linkToID[l] == old(linkToID)[l]
      {
        var link := toDelete[i];
        if !hasRecord(link) && link in linkToID {
          Forget(link);
        }
        assert toDelete[..i+1] == toDelete[..i] + [link];
      }
      assert toDelete[..|toDelete|] == toDelete;
    }
  }
}
