/** writeSnapshotJSON in the form of the source: straight-line appends for the members of each
    level, and loops over warnings, samples and records. */
module SnapshotWriter {
  import opened Base
  import opened JsonText
  import opened JsonNumber
  import opened Types
  import opened SnapshotCodec
  import opened FastParser

  // ----- members -----

  predicate NoneShown(es: seq<Entry>) {
    forall i :: 0 <= i < |es| ==> !es[i].shown
  }

  function EntryText(e: Entry, first: bool): Bytes {
    if e.shown then (if first then "" else ",") + (Key(KeyText(e.field)) + e.text) else ""
  }

  lemma {:induction false} EntriesGrow(es: seq<Entry>, e: Entry, first: bool)
    ensures EntriesText(es + [e], first) == EntriesText(es, first) + EntryText(e, first && NoneShown(es))
  {
    hide KeyText;
    if es == [] {
      assert es + [e] == [e] && [e][1..] == [];
      assert Key(KeyText(e.field)) + (e.text + "") == Key(KeyText(e.field)) + e.text;
      assert "" + EntryText(e, first) == EntryText(e, first);
    } else {
      var tail := es[1..];
      assert (es + [e])[1..] == tail + [e] && es == [es[0]] + tail;
      var first' := first && !es[0].shown;
      EntriesGrow(tail, e, first');
      assert NoneShown(es) == (!es[0].shown && NoneShown(tail));
      if es[0].shown {
        var more := EntryText(e, false);
        var comma := if first then "" else ",";
        Assoc(es[0].text, EntriesText(tail, false), more);
        Assoc(Key(KeyText(es[0].field)), es[0].text + EntriesText(tail, false), more);
        Assoc(comma, Key(KeyText(es[0].field)) + (es[0].text + EntriesText(tail, false)), more);
      }
    }
  }

  /** What is written once the first `k` members are. */
  function Written(before: Bytes, es: seq<Entry>, k: nat): Bytes
    requires k <= |es|
  {
    if k == 0 then before + "{"
    else Written(before, es, k - 1) + EntryText(es[k-1], NoneShown(es[..k-1]))
  }

  lemma {:induction false} WrittenIs(before: Bytes, es: seq<Entry>, k: nat)
    requires k <= |es|
    ensures Written(before, es, k) == before + ("{" + EntriesText(es[..k], true))
  {
    hide KeyText, EntriesText, EntryText, NoneShown;
    if k == 0 {
      NoEntries();
      assert es[..0] == [] && "{" + "" == "{";
    } else {
      WrittenIs(before, es, k - 1);
      WrittenStep(before, es[..k-1], es[k-1]);
      TakeNext(es, k - 1);
    }
  }

  lemma NoEntries()
    ensures EntriesText([], true) == ""
  {
  }

  lemma TakeNext(es: seq<Entry>, k: nat)
    requires k < |es|
    ensures es[..k] + [es[k]] == es[..k+1]
  {
  }

  lemma WrittenStep(before: Bytes, es: seq<Entry>, e: Entry)
    ensures before + ("{" + EntriesText(es, true)) + EntryText(e, NoneShown(es)) ==
            before + ("{" + EntriesText(es + [e], true))
  {
    hide KeyText;
    EntriesGrow(es, e, true);
    Assoc("{", EntriesText(es, true), EntryText(e, NoneShown(es)));
    Assoc(before, "{" + EntriesText(es, true), EntryText(e, NoneShown(es)));
  }

  lemma NoneShownGrows(es: seq<Entry>, k: nat)
    requires k < |es|
    ensures NoneShown(es[..k+1]) == (NoneShown(es[..k]) && !es[k].shown)
  {
    TakeNext(es, k);
  }

  /** Appends member `k` of an object; `first` tells whether none was appended yet. */
  method Member(ghost before: Bytes, ghost es: seq<Entry>, ghost k: nat, dst: Bytes, first: bool, e: Entry)
    returns (out: Bytes, first': bool)
    requires k < |es| && es[k] == e && dst == Written(before, es, k) && first == NoneShown(es[..k])
    ensures out == Written(before, es, k + 1) && first' == NoneShown(es[..k+1])
  {
    hide KeyText, Quote, IntText, Decimal;
    NoneShownGrows(es, k);
    first' := first && !e.shown;
    if !e.shown {
      out := dst;
      assert dst + "" == dst;
    } else {
      var comma := if first then "" else ",";
      out := dst + (comma + (Key(KeyText(e.field)) + e.text));
    }
  }

  method Open(before: Bytes, ghost es: seq<Entry>) returns (out: Bytes, first: bool)
    ensures out == Written(before, es, 0) && first == NoneShown(es[..0])
  {
    out, first := before + "{", true;
  }

  method Close(ghost before: Bytes, ghost es: seq<Entry>, dst: Bytes) returns (out: Bytes)
    requires dst == Written(before, es, |es|)
    ensures out == before + ObjectText(es)
  {
    WrittenIs(before, es, |es|);
    assert es[..|es|] == es;
    Assoc("{", EntriesText(es, true), "}");
    Assoc(before, "{" + EntriesText(es, true), "}");
    out := dst + "}";
  }

  // ----- lists -----

  lemma {:induction false} ConcatGrows(ps: seq<Bytes>, p: Bytes)
    ensures Concat(ps + [p]) == Concat(ps) + p
  {
    if ps == [] {
      assert ps + [p] == [p] && p + "" == p && "" + p == p;
    } else {
      assert (ps + [p])[1..] == ps[1..] + [p];
      ConcatGrows(ps[1..], p);
      Assoc(ps[0], Concat(ps[1..]), p);
    }
  }

  lemma NextPiece(ps: seq<Bytes>, i: nat, before: Bytes)
    requires i < |ps|
    ensures before + Concat(ps[..i+1]) == before + Concat(ps[..i]) + ps[i]
  {
    assert ps[..i+1] == ps[..i] + [ps[i]];
    ConcatGrows(ps[..i], ps[i]);
    Assoc(before, Concat(ps[..i]), ps[i]);
  }

  lemma ListOpens(ps: seq<Bytes>)
    ensures "[" + Concat(ps[..0]) == "["
    ensures "[" + Concat(ps[..|ps|]) + "]" == ArrayText(ps)
  {
    assert ps[..0] == [] && ps[..|ps|] == ps;
    Assoc("[", Concat(ps), "]");
  }

  method AppendWarnings(ws: seq<Bytes>) returns (out: Bytes)
    ensures out == ArrayText(Listed(MapSeq(Quote, ws)))
  {
    ghost var ps := Listed(MapSeq(Quote, ws));
    ListOpens(ps);
    out := "[";
    for i := 0 to |ws|
      invariant out == "[" + Concat(ps[..i])
    {
      NextPiece(ps, i, "[");
      Assoc("[" + Concat(ps[..i]), ",", Quote(ws[i]));
      if i > 0 { out := out + ","; }
      out := AppendJSONString(out, ws[i]);
    }
    out := out + "]";
  }

  method AppendSample(rt: Runtime, dst: Bytes, m: Sample) returns (out: Bytes)
    ensures out == dst + SampleText(rt, m)
  {
    hide Written, NoneShown, EntryText, KeyText, Quote, IntText, Decimal, TimeText, ArrayText, ObjectText;
    ghost var es := SampleEntries(rt, m);
    var first;
    out, first := Open(dst, es);
    out, first := Member(dst, es, 0, out, first, Entry(true, CycleId, Decimal(m.cycleID)));
    out, first := Member(dst, es, 1, out, first, Entry(true, TestedAt, TimeText(rt, m.testedAt)));
    out, first := Member(dst, es, 2, out, first, Entry(true, Status, Quote(m.status)));
    out, first := Member(dst, es, 3, out, first, Entry(true, Category, Quote(m.category)));
    out, first := Member(dst, es, 4, out, first, Entry(m.statusCode != 0, StatusCode, IntText(m.statusCode)));
    out, first := Member(dst, es, 5, out, first, Entry(m.latency > 0, Latency, IntText(m.latency)));
    out, first := Member(dst, es, 6, out, first, Entry(true, Attempts, IntText(m.attempts)));
    out, first := Member(dst, es, 7, out, first, Entry(m.transportOK, TransportOk, "true"));
    out, first := Member(dst, es, 8, out, first,
                         Entry(m.transportLatency > 0, TransportLatency, IntText(m.transportLatency)));
    out, first := Member(dst, es, 9, out, first, Entry(m.transportEvidenceKnown, TransportEvidenceKnown, "true"));
    out, first := Member(dst, es, 10, out, first, Entry(m.jitter > 0, Jitter, IntText(m.jitter)));
    out, first := Member(dst, es, 11, out, first, Entry(m.claudeStatus != "", ClaudeStatus, Quote(m.claudeStatus)));
    out, first := Member(dst, es, 12, out, first,
                         Entry(m.claudeCategory != "", ClaudeCategory, Quote(m.claudeCategory)));
    out, first := Member(dst, es, 13, out, first, Entry(m.claudeLatency > 0, ClaudeLatency, IntText(m.claudeLatency)));
    out := Close(dst, es, out);
  }

  method AppendSamples(rt: Runtime, ms: seq<Sample>) returns (out: Bytes)
    ensures out == ArrayText(Listed(SampleTexts(rt, ms)))
  {
    ghost var ps := Listed(SampleTexts(rt, ms));
    ListOpens(ps);
    out := "[";
    for i := 0 to |ms|
      invariant out == "[" + Concat(ps[..i])
    {
      NextPiece(ps, i, "[");
      Assoc("[" + Concat(ps[..i]), ",", SampleText(rt, ms[i]));
      if i > 0 { out := out + ","; }
      out := AppendSample(rt, out, ms[i]);
    }
    out := out + "]";
  }

  /** The members of a result up to its time. */
  method AppendOutcome(rt: Runtime, l: Result, activeLink: Bytes, ghost es: seq<Entry>)
    returns (out: Bytes, first: bool)
    requires es == LatestEntries(rt, l, activeLink)
    ensures out == Written("", es, 7) && first == NoneShown(es[..7])
  {
    hide Written, NoneShown, EntryText, KeyText, Quote, IntText, Decimal, TimeText, ArrayText, ObjectText;
    hide EntriesText, Concat, Listed, MapSeq, Key, Separated;
    out, first := Open("", es);
    out, first := Member("", es, 0, out, first, Entry(l.link != "" && l.link != activeLink, Link, Quote(l.link)));
    out, first := Member("", es, 1, out, first, Entry(true, Status, Quote(l.status)));
    out, first := Member("", es, 2, out, first, Entry(true, Reason, Quote(l.reason)));
    out, first := Member("", es, 3, out, first, Entry(l.category != "", Category, Quote(l.category)));
    out, first := Member("", es, 4, out, first, Entry(l.statusCode != 0, StatusCode, IntText(l.statusCode)));
    out, first := Member("", es, 5, out, first, Entry(true, Latency, IntText(l.latency)));
    out, first := Member("", es, 6, out, first, Entry(true, TestedAt, TimeText(rt, l.testedAt)));
  }

  method AppendLatest(rt: Runtime, l: Result, activeLink: Bytes) returns (out: Bytes)
    ensures out == LatestText(rt, l, activeLink)
  {
    hide Written, NoneShown, EntryText, KeyText, Quote, IntText, Decimal, TimeText, ArrayText, ObjectText;
    hide EntriesText, Concat, Listed, MapSeq, Key, Separated;
    ghost var es := LatestEntries(rt, l, activeLink);
    var warnings := AppendWarnings(l.warnings);
    var first;
    out, first := AppendOutcome(rt, l, activeLink, es);
    out, first := Member("", es, 7, out, first, Entry(true, Attempts, IntText(l.attempts)));
    out, first := Member("", es, 8, out, first, Entry(l.transportOK, TransportOk, "true"));
    out, first := Member("", es, 9, out, first,
                         Entry(l.transportLatency > 0, TransportLatency, IntText(l.transportLatency)));
    out, first := Member("", es, 10, out, first, Entry(l.transportEvidenceKnown, TransportEvidenceKnown, "true"));
    out, first := Member("", es, 11, out, first, Entry(l.jitter > 0, Jitter, IntText(l.jitter)));
    out, first := Member("", es, 12, out, first, Entry(l.warnings != [], Warnings, warnings));
    out := Close("", es, out);
    assert "" + ObjectText(es) == ObjectText(es);
  }

  method AppendHist(rt: Runtime, h: Hist) returns (out: Bytes)
    ensures out == HistText(rt, h)
  {
    hide Written, NoneShown, EntryText, KeyText, Quote, IntText, Decimal, TimeText, ArrayText, ObjectText;
    ghost var es := HistEntries(rt, h);
    var samples := AppendSamples(rt, h.samples);
    var first;
    out, first := Open("", es);
    out, first := Member("", es, 0, out, first, Entry(true, Capacity, IntText(h.capacity)));
    out, first := Member("", es, 1, out, first, Entry(true, Count, IntText(h.count)));
    out, first := Member("", es, 2, out, first, Entry(true, Samples, samples));
    out := Close("", es, out);
    assert "" + ObjectText(es) == ObjectText(es);
  }

  method AppendRecord(rt: Runtime, dst: Bytes, r: Record) returns (out: Bytes)
    ensures out == dst + RecordText(rt, r)
  {
    hide Written, NoneShown, EntryText, KeyText, Quote, IntText, Decimal, TimeText, ArrayText, ObjectText;
    ghost var es := RecordEntries(rt, r);
    var latest := AppendLatest(rt, r.latest, r.activeLink);
    var hist := AppendHist(rt, r.history);
    var first;
    out, first := Open(dst, es);
    out, first := Member(dst, es, 0, out, first, Entry(true, CanonicalLink, Quote(r.canonicalLink)));
    out, first := Member(dst, es, 1, out, first, Entry(true, ActiveLink, Quote(r.activeLink)));
    out, first := Member(dst, es, 2, out, first, Entry(r.absentCycles > 0, AbsentCycles, IntText(r.absentCycles)));
    out, first := Member(dst, es, 3, out, first, Entry(true, Latest, latest));
    out, first := Member(dst, es, 4, out, first, Entry(true, History, hist));
    out := Close(dst, es, out);
  }

  /** The loop over records: the comma depends on the index, so a nil record at the front leaves
      one before the first record that is printed. */
  method AppendRecords(rt: Runtime, rs: seq<Option<Record>>) returns (out: Bytes)
    ensures out == ArrayText(RecordTexts(rt, rs))
  {
    ghost var ps := RecordTexts(rt, rs);
    ListOpens(ps);
    out := "[";
    for i := 0 to |rs|
      invariant out == "[" + Concat(ps[..i])
    {
      NextPiece(ps, i, "[");
      if rs[i].Some? {
        Assoc("[" + Concat(ps[..i]), ",", RecordText(rt, rs[i].value));
        if i > 0 { out := out + ","; }
        out := AppendRecord(rt, out, rs[i].value);
      } else {
        assert out + "" == out;
      }
    }
    out := out + "]";
  }

  method WriteSnapshotJSON(rt: Runtime, snap: Snapshot) returns (out: Bytes)
    ensures out == SnapshotText(rt, snap)
  {
    hide Written, NoneShown, EntryText, KeyText, Quote, IntText, Decimal, TimeText, ArrayText, ObjectText;
    ghost var es := SnapshotEntries(rt, snap);
    var records := AppendRecords(rt, snap.records);
    var first;
    out, first := Open("", es);
    out, first := Member("", es, 0, out, first, Entry(true, Version, IntText(snap.version)));
    out, first := Member("", es, 1, out, first, Entry(true, LastCycle, TimeText(rt, snap.lastCycle)));
    out, first := Member("", es, 2, out, first, Entry(true, CycleCount, IntText(snap.cycleCount)));
    out, first := Member("", es, 3, out, first, Entry(true, Records, records));
    out := Close("", es, out);
    assert "" + ObjectText(es) == ObjectText(es);
  }
}
