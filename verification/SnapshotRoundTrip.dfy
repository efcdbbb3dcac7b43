/** Decoding what was printed: fastDecodeSnapshot after writeSnapshotJSON. */
module SnapshotRoundTrip {
  import opened Base
  import opened JsonText
  import opened JsonNumber
  import opened JsonGrammar
  import opened Types
  import opened SnapshotCodec

  // ----- what a snapshot keeps -----

  function Positive(n: int): int {
    if n > 0 then n else 0
  }

  function StoredSample(m: Sample): Sample {
    m.(latency := Positive(m.latency), transportLatency := Positive(m.transportLatency),
       jitter := Positive(m.jitter), claudeLatency := Positive(m.claudeLatency))
  }

  function StoredHist(h: Hist): Hist {
    Hist(h.capacity, h.count, 0, MapSeq(StoredSample, h.samples))
  }

  /** The fields of a result that are in the text; the others come back empty. */
  function StoredResult(l: Result, activeLink: Bytes): Result {
    NO_RESULT.(link := if l.link == activeLink then "" else l.link,
               status := l.status, reason := l.reason, category := l.category,
               statusCode := l.statusCode, latency := l.latency, testedAt := l.testedAt,
               attempts := l.attempts, transportOK := l.transportOK,
               transportLatency := Positive(l.transportLatency),
               transportEvidenceKnown := l.transportEvidenceKnown,
               jitter := Positive(l.jitter), warnings := l.warnings)
  }

  function StoredRecord(r: Record): Record {
    NO_RECORD.(canonicalLink := r.canonicalLink, activeLink := r.activeLink,
               absentCycles := Positive(r.absentCycles),
               latest := StoredResult(r.latest, r.activeLink), history := StoredHist(r.history))
  }

  // ----- what fits in the source's integers -----

  predicate SampleOk(rt: Runtime, m: Sample) {
    && m.cycleID <= MAX_UINT64 && TimeOk(rt, m.testedAt) && IsInt64(m.statusCode) && IsInt64(m.latency)
    && IsInt64(m.attempts) && IsInt64(m.transportLatency) && IsInt64(m.jitter) && IsInt64(m.claudeLatency)
  }

  predicate HistOk(rt: Runtime, h: Hist) {
    IsInt64(h.capacity) && IsInt64(h.count) && forall i :: 0 <= i < |h.samples| ==> SampleOk(rt, h.samples[i])
  }

  predicate ResultOk(rt: Runtime, l: Result) {
    && IsInt64(l.statusCode) && IsInt64(l.latency) && TimeOk(rt, l.testedAt)
    && IsInt64(l.attempts) && IsInt64(l.transportLatency) && IsInt64(l.jitter)
  }

  predicate RecordOk(rt: Runtime, r: Record) {
    IsInt64(r.absentCycles) && ResultOk(rt, r.latest) && HistOk(rt, r.history)
  }

  // ----- keys and tokens -----

  lemma {:induction false} RawEscape(s: Bytes)
    requires AllRaw(s)
    ensures Escape(s) == s
  {
    if s != "" {
      assert IsRaw(s[0]);
      RawEscape(s[1..]);
      assert s == [s[0]] + s[1..];
    }
  }

  lemma RawString(s: Bytes, rest: Bytes)
    requires AllRaw(s)
    ensures ParseString("\"" + (s + ("\"" + rest))) == Ok(s, rest)
  {
    RawEscape(s);
    StringRoundTrip(s, rest);
    Assoc("\"", s + "\"", rest);
    Assoc(s, "\"", rest);
  }

  lemma KeyRaw1(f: Field)
    requires f.CycleId? || f.TestedAt? || f.Status? || f.Category? || f.StatusCode? || f.Latency?
          || f.Attempts? || f.TransportOk? || f.TransportLatency? || f.TransportEvidenceKnown? || f.Jitter?
    ensures AllRaw(KeyText(f))
  {
  }

  lemma KeyRaw2(f: Field)
    requires f.ClaudeStatus? || f.ClaudeCategory? || f.ClaudeLatency? || f.Capacity? || f.Count? || f.Start?
          || f.Samples? || f.Link? || f.Reason? || f.Warnings? || f.CanonicalLink?
    ensures AllRaw(KeyText(f))
  {
  }

  lemma KeyRaw3(f: Field)
    requires f.ActiveLink? || f.AbsentCycles? || f.Score? || f.HasPassed? || f.LastPassedLatency? || f.Latest?
          || f.History? || f.Version? || f.LastCycle? || f.CycleCount? || f.Records?
    ensures AllRaw(KeyText(f))
  {
  }

  lemma KeyRaw(f: Field)
    ensures AllRaw(KeyText(f))
  {
    match f
    case CycleId | TestedAt | Status | Category | StatusCode | Latency | Attempts | TransportOk | TransportLatency
       | TransportEvidenceKnown | Jitter => KeyRaw1(f);
    case ClaudeStatus | ClaudeCategory | ClaudeLatency | Capacity | Count | Start | Samples | Link | Reason | Warnings
       | CanonicalLink => KeyRaw2(f);
    case ActiveLink | AbsentCycles | Score | HasPassed | LastPassedLatency | Latest | History | Version | LastCycle
       | CycleCount | Records => KeyRaw3(f);
    case Unknown =>
  }

  /** The key of a field selects its case in every switch. */
  lemma KeySelects(f: Field)
    ensures FieldOf(KeyText(f)) == f
  {
    var key := KeyText(f);
    // the characters that tell keys of equal length apart
    if |key| == 5 {
      assert "count"[0] == 'c' && "score"[0] == 's' && "score"[1] == 'c'
          && "start"[0] == 's' && "start"[1] == 't';
    }
    if |key| == 6 {
      assert "jitter"[0] == 'j' && "latest"[0] == 'l' && "reason"[0] == 'r'
          && "status"[0] == 's';
    }
    if |key| == 7 {
      assert "history"[0] == 'h' && "latency"[0] == 'l' && "records"[0] == 'r'
          && "samples"[0] == 's' && "version"[0] == 'v';
    }
    if |key| == 8 {
      assert "attempts"[0] == 'a' && "capacity"[0] == 'c' && "capacity"[1] == 'a'
          && "capacity"[2] == 'p' && "category"[0] == 'c' && "category"[1] == 'a'
          && "category"[2] == 't' && "cycle_id"[0] == 'c' && "cycle_id"[1] == 'y'
          && "warnings"[0] == 'w';
    }
    if |key| == 10 {
      assert "has_passed"[0] == 'h' && "last_cycle"[0] == 'l';
    }
    if |key| == 11 {
      assert "active_link"[0] == 'a' && "cycle_count"[0] == 'c' && "status_code"[0] == 's';
    }
    if |key| == 13 {
      assert "absent_cycles"[0] == 'a' && "claude_status"[0] == 'c';
    }
    if |key| == 14 {
      assert "canonical_link"[1] == 'a' && "claude_latency"[1] == 'l';
    }
  }

  lemma PlainKeyRead(key: Bytes, text: Bytes)
    requires AllRaw(key)
    ensures ParseString(Key(key) + text) == Ok(key, ":" + text)
    ensures Consume(':', ":" + text) == Ok((), text)
    ensures StartsWith(Key(key) + text, '"')
  {
    RawString(key, ":" + text);
    assert "\"" + ":" == "\":";
    Assoc("\"", ":", text);
    Assoc(key, "\":", text);
    Assoc("\"", key + "\":", text);
    FrontKept(':', text);
  }

  lemma KeyRead(f: Field, text: Bytes)
    ensures ParseString(Key(KeyText(f)) + text) == Ok(KeyText(f), ":" + text) && FieldOf(KeyText(f)) == f
    ensures Consume(':', ":" + text) == Ok((), text)
    ensures StartsWith(Key(KeyText(f)) + text, '"')
  {
    KeyRaw(f);
    KeySelects(f);
    PlainKeyRead(KeyText(f), text);
  }

  lemma TimeRoundTrip(rt: Runtime, t: Time, rest: Bytes)
    requires TimeOk(rt, t)
    ensures ParseTime(rt, TimeText(rt, t) + rest) == Ok(t, rest)
  {
    RawString(rt.format(t), rest);
    Assoc(rt.format(t), "\"", rest);
    Assoc("\"", rt.format(t) + "\"", rest);
  }

  // ----- members in a row -----

  /** The switch reads this member from `acc` to `acc'`, whatever follows it. */
  ghost predicate EntryReads<T>(field: (Field, Bytes, T) -> Parsed<T>, e: Entry, acc: T, acc': T) {
    if e.shown
    then forall more :: AtDelimiter(more) ==> field(e.field, e.text + more, acc) == Ok(acc', more)
    else acc == acc'
  }

  ghost predicate EntriesRead<T>(field: (Field, Bytes, T) -> Parsed<T>, es: seq<Entry>, accs: seq<T>) {
    |accs| == |es| + 1 && forall k :: 0 <= k < |es| ==> EntryReads(field, es[k], accs[k], accs[k+1])
  }

  lemma {:induction false} EntriesDelimit(es: seq<Entry>, end: Bytes)
    requires AtDelimiter(end)
    ensures AtDelimiter(EntriesText(es, false) + end)
  {
    hide KeyText, FieldOf;
    if es == [] {
      assert "" + end == end;
    } else {
      EntriesDelimit(es[1..], end);
    }
  }

  /** The text of a shown member in front of the others. */
  lemma EntryFirst(e: Entry, tail: seq<Entry>, first: bool, end: Bytes)
    requires e.shown
    ensures EntriesText([e] + tail, first) + end ==
            (if first then "" else ",") + (Key(KeyText(e.field)) + (e.text + (EntriesText(tail, false) + end)))
  {
    hide KeyText, FieldOf;
    var t := EntriesText(tail, false);
    assert ([e] + tail)[1..] == tail;
    Assoc(e.text, t, end);
    Assoc(Key(KeyText(e.field)), e.text + t, end);
    Assoc(if first then "" else ",", Key(KeyText(e.field)) + (e.text + t), end);
  }

  lemma MemberRead<T(!new)>(field: (Field, Bytes, T) -> Parsed<T>, e: Entry, more: Bytes, acc: T, acc': T)
    requires Shrinks(field) && e.shown && EntryReads(field, e, acc, acc') && AtDelimiter(more)
    ensures var x := Key(KeyText(e.field)) + (e.text + more);
            && MemberLoop(field, x, acc) == BehindMember(field, more, acc')
            && BehindMember(field, "," + x, acc) == BehindMember(field, more, acc')
            && StartsWith(x, '"')
  {
    hide KeyText, FieldOf;
    KeyRead(e.field, e.text + more);
    var x := Key(KeyText(e.field)) + (e.text + more);
    assert field(e.field, e.text + more, acc) == Ok(acc', more);
    FrontKept(',', x);
    assert SkipWs(x) == x;
  }

  lemma {:induction false} MembersRead<T(!new)>(field: (Field, Bytes, T) -> Parsed<T>, es: seq<Entry>, accs: seq<T>,
                                         rest: Bytes)
    requires Shrinks(field) && EntriesRead(field, es, accs)
    ensures BehindMember(field, EntriesText(es, false) + ("}" + rest), accs[0]) == Ok(accs[|es|], rest)
  {
    hide KeyText, FieldOf;
    var end := "}" + rest;
    if es == [] {
      assert "" + end == end;
      FrontKept('}', rest);
    } else {
      assert EntryReads(field, es[0], accs[0], accs[1]);
      TailReads(field, es, accs);
      MembersRead(field, es[1..], accs[1..], rest);
      if es[0].shown {
        var more := EntriesText(es[1..], false) + end;
        EntriesDelimit(es[1..], end);
        assert es == [es[0]] + es[1..];
        EntryFirst(es[0], es[1..], false, end);
        MemberRead(field, es[0], more, accs[0], accs[1]);
      }
    }
  }

  lemma TailReads<T>(field: (Field, Bytes, T) -> Parsed<T>, es: seq<Entry>, accs: seq<T>)
    requires EntriesRead(field, es, accs) && es != []
    ensures EntriesRead(field, es[1..], accs[1..])
  {
    forall k | 0 <= k < |es[1..]| ensures EntryReads(field, es[1..][k], accs[1..][k], accs[1..][k+1]) {
      assert EntryReads(field, es[k+1], accs[k+1], accs[k+2]);
    }
  }

  /** The loop from the first member on, when some member is shown. */
  lemma {:induction false} FirstMemberRead<T(!new)>(field: (Field, Bytes, T) -> Parsed<T>, es: seq<Entry>,
                                             accs: seq<T>, rest: Bytes)
    requires Shrinks(field) && EntriesRead(field, es, accs)
    requires exists k :: 0 <= k < |es| && es[k].shown
    ensures var x := EntriesText(es, true) + ("}" + rest);
            StartsWith(x, '"') && MemberLoop(field, x, accs[0]) == Ok(accs[|es|], rest)
  {
    hide KeyText, FieldOf, MemberLoop, Shrinks;
    assert EntryReads(field, es[0], accs[0], accs[1]);
    TailReads(field, es, accs);
    if es[0].shown {
      var more := EntriesText(es[1..], false) + ("}" + rest);
      EntriesDelimit(es[1..], "}" + rest);
      assert es == [es[0]] + es[1..];
      EntryFirst(es[0], es[1..], true, "}" + rest);
      var x := Key(KeyText(es[0].field)) + (es[0].text + more);
      assert "" + x == x;
      MemberRead(field, es[0], more, accs[0], accs[1]);
      MembersRead(field, es[1..], accs[1..], rest);
    } else {
      var k :| 0 <= k < |es| && es[k].shown;
      assert es[1..][k-1].shown;
      FirstMemberRead(field, es[1..], accs[1..], rest);
    }
  }

  /** An object whose members are read one by one is read. */
  lemma ObjectRead<T(!new)>(field: (Field, Bytes, T) -> Parsed<T>, es: seq<Entry>, accs: seq<T>, rest: Bytes)
    requires Shrinks(field) && EntriesRead(field, es, accs)
    requires exists k :: 0 <= k < |es| && es[k].shown
    ensures ParseObject(field, ObjectText(es) + rest, accs[0]) == Ok(accs[|es|], rest)
  {
    hide KeyText, FieldOf;
    var x := EntriesText(es, true) + ("}" + rest);
    FirstMemberRead(field, es, accs, rest);
    Assoc(EntriesText(es, true), "}", rest);
    Assoc("{", EntriesText(es, true) + "}", rest);
    FrontKept('{', x);
    assert SkipWs(x) == x;
  }

  /** The member at `j` stops the switch, whatever follows it. */
  ghost predicate EntryStops<T>(field: (Field, Bytes, T) -> Parsed<T>, e: Entry, acc: T, panics: bool) {
    e.shown && forall more :: field(e.field, e.text + more, acc) == Stopped(panics)
  }

  /** The members before `j` are read, and that at `j` stops the loop. */
  ghost predicate StopsAt<T>(field: (Field, Bytes, T) -> Parsed<T>, es: seq<Entry>, accs: seq<T>, j: nat,
                             panics: bool) {
    && j < |es| <= |accs| && (forall k :: 0 <= k < j ==> EntryReads(field, es[k], accs[k], accs[k+1]))
    && EntryStops(field, es[j], accs[j], panics)
  }

  lemma MemberStops<T(!new)>(field: (Field, Bytes, T) -> Parsed<T>, e: Entry, more: Bytes, acc: T, panics: bool)
    requires Shrinks(field) && EntryStops(field, e, acc, panics)
    ensures var x := Key(KeyText(e.field)) + (e.text + more); BehindMember(field, "," + x, acc) == Stopped(panics)
  {
    hide KeyText, FieldOf;
    KeyRead(e.field, e.text + more);
    var x := Key(KeyText(e.field)) + (e.text + more);
    assert field(e.field, e.text + more, acc) == Stopped(panics);
    FrontKept(',', x);
    assert SkipWs(x) == x;
  }

  lemma {:induction false} MembersStop<T(!new)>(field: (Field, Bytes, T) -> Parsed<T>, es: seq<Entry>, accs: seq<T>,
                                                j: nat, panics: bool, end: Bytes)
    requires Shrinks(field) && StopsAt(field, es, accs, j, panics) && AtDelimiter(end)
    ensures BehindMember(field, EntriesText(es, false) + end, accs[0]) == Stopped(panics)
  {
    hide KeyText, FieldOf, MemberLoop, BehindMember, Shrinks, EntryStops;
    var more := EntriesText(es[1..], false) + end;
    assert es == [es[0]] + es[1..];
    if j == 0 {
      assert es[0].shown by { ShownStop(field, es[0], accs[0], panics); }
      EntryFirst(es[0], es[1..], false, end);
      MemberStops(field, es[0], more, accs[0], panics);
    } else {
      assert EntryReads(field, es[0], accs[0], accs[1]);
      TailStops(field, es, accs, j, panics);
      MembersStop(field, es[1..], accs[1..], j - 1, panics, end);
      if es[0].shown {
        EntriesDelimit(es[1..], end);
        EntryFirst(es[0], es[1..], false, end);
        MemberRead(field, es[0], more, accs[0], accs[1]);
      }
    }
  }

  lemma ShownStop<T>(field: (Field, Bytes, T) -> Parsed<T>, e: Entry, acc: T, panics: bool)
    requires EntryStops(field, e, acc, panics)
    ensures e.shown
  {
  }

  lemma TailStops<T>(field: (Field, Bytes, T) -> Parsed<T>, es: seq<Entry>, accs: seq<T>, j: nat, panics: bool)
    requires StopsAt(field, es, accs, j, panics) && j > 0
    ensures StopsAt(field, es[1..], accs[1..], j - 1, panics)
  {
    forall k | 0 <= k < j - 1 ensures EntryReads(field, es[1..][k], accs[1..][k], accs[1..][k+1]) {
      assert EntryReads(field, es[k+1], accs[k+1], accs[k+2]);
    }
  }

  /** An object stops where a member behind the first one does. */
  lemma ObjectStops<T(!new)>(field: (Field, Bytes, T) -> Parsed<T>, es: seq<Entry>, accs: seq<T>, j: nat, panics: bool,
                             rest: Bytes)
    requires Shrinks(field) && StopsAt(field, es, accs, j, panics) && j > 0 && es[0].shown
    ensures ParseObject(field, ObjectText(es) + rest, accs[0]) == Stopped(panics)
  {
    hide KeyText, FieldOf, MemberLoop, BehindMember, Shrinks, EntryStops;
    var end := "}" + rest;
    var more := EntriesText(es[1..], false) + end;
    assert EntryReads(field, es[0], accs[0], accs[1]);
    TailStops(field, es, accs, j, panics);
    MembersStop(field, es[1..], accs[1..], j - 1, panics, end);
    EntriesDelimit(es[1..], end);
    assert es == [es[0]] + es[1..];
    EntryFirst(es[0], es[1..], true, end);
    MemberRead(field, es[0], more, accs[0], accs[1]);
    var x := Key(KeyText(es[0].field)) + (es[0].text + more);
    assert "" + x == x;
    Assoc(EntriesText(es, true), "}", rest);
    Assoc("{", EntriesText(es, true) + "}", rest);
    FrontKept('{', x);
    assert SkipWs(x) == x;
  }

  // ----- elements in a row -----

  function Flatten<T>(xs: seq<seq<T>>): seq<T> {
    if xs == [] then [] else xs[0] + Flatten(xs[1..])
  }

  predicate ItemStart(text: Bytes) {
    StartsWith(text, '{') || StartsWith(text, '"')
  }

  ghost predicate ItemReads<T>(item: Bytes -> Parsed<T>, text: Bytes, x: T) {
    ItemStart(text) && forall more :: item(text + more) == Ok(x, more)
  }

  /** The piece is a comma and a text read as the element, or nothing for no element. */
  ghost predicate PieceReads<T>(item: Bytes -> Parsed<T>, p: Bytes, x: seq<T>) {
    || (x == [] && p == "")
    || (|x| == 1 && StartsWith(p, ',') && ItemReads(item, p[1..], x[0]))
  }

  lemma NextItem<T>(item: Bytes -> Parsed<T>, text: Bytes, more: Bytes, x: T, acc: seq<T>)
    requires ItemShrinks(item) && ItemReads(item, text, x)
    ensures BehindItem(item, ("," + text) + more, acc) == BehindItem(item, more, acc + [x])
  {
    var y := text + more;
    Assoc(",", text, more);
    FrontKept(',', y);
    assert y[0] == text[0];
    assert SkipWs(y) == y;
  }

  /** Elements that are read back one by one make up the array. Pieces may be empty where the
      printer left an element out. */
  lemma {:induction false} ItemsRead<T>(item: Bytes -> Parsed<T>, ps: seq<Bytes>, end: Bytes, xs: seq<seq<T>>,
                                        acc: seq<T>)
    requires ItemShrinks(item) && |ps| == |xs|
    requires forall i :: 0 <= i < |ps| ==> PieceReads(item, ps[i], xs[i])
    ensures BehindItem(item, Concat(ps) + ("]" + end), acc) == Ok(acc + Flatten(xs), end)
  {
    if ps == [] {
      assert "" + ("]" + end) == "]" + end;
      FrontKept(']', end);
      assert acc + [] == acc;
    } else {
      var more := Concat(ps[1..]) + ("]" + end);
      Assoc(ps[0], Concat(ps[1..]), "]" + end);
      assert PieceReads(item, ps[0], xs[0]);
      ItemsRead(item, ps[1..], end, xs[1..], acc + xs[0]);
      assert acc + xs[0] + Flatten(xs[1..]) == acc + (xs[0] + Flatten(xs[1..]));
      if xs[0] == [] {
        assert "" + more == more && acc + xs[0] == acc;
      } else {
        assert ps[0] == "," + ps[0][1..] && xs[0] == [xs[0][0]];
        NextItem(item, ps[0][1..], more, xs[0][0], acc);
      }
    }
  }

  lemma {:induction false} NothingThere<T>(ps: seq<Bytes>, xs: seq<seq<T>>)
    requires |ps| == |xs| && forall i :: 0 <= i < |ps| ==> xs[i] == [] && ps[i] == ""
    ensures Concat(ps) == "" && Flatten(xs) == []
  {
    if ps != [] {
      NothingThere(ps[1..], xs[1..]);
    }
  }

  lemma ArrayOpens(ps: seq<Bytes>, rest: Bytes)
    ensures var x := Concat(ps) + ("]" + rest);
            ArrayText(ps) + rest == "[" + x && Consume('[', "[" + x) == Ok((), x)
  {
    var x := Concat(ps) + ("]" + rest);
    Assoc(Concat(ps), "]", rest);
    Assoc("[", Concat(ps) + "]", rest);
    FrontKept('[', x);
  }

  /** An array whose first piece is an element. */
  lemma ArrayRead<T>(item: Bytes -> Parsed<T>, ps: seq<Bytes>, xs: seq<seq<T>>, rest: Bytes)
    requires ItemShrinks(item) && |ps| == |xs| > 0 && |xs[0]| == 1 && ItemReads(item, ps[0], xs[0][0])
    requires forall i :: 1 <= i < |ps| ==> PieceReads(item, ps[i], xs[i])
    ensures ParseArray(item, ArrayText(ps) + rest) == Ok(Flatten(xs), rest)
  {
    ArrayOpens(ps, rest);
    var more := Concat(ps[1..]) + ("]" + rest);
    var x := Concat(ps) + ("]" + rest);
    Assoc(ps[0], Concat(ps[1..]), "]" + rest);
    assert x == ps[0] + more && x[0] == ps[0][0];
    assert SkipWs(x) == x;
    assert item(ps[0] + more) == Ok(xs[0][0], more);
    ItemsRead(item, ps[1..], rest, xs[1..], [xs[0][0]]);
    assert xs[0] == [xs[0][0]] && [] + [xs[0][0]] == xs[0];
  }

  /** An array without any element. */
  lemma EmptyArrayRead<T>(item: Bytes -> Parsed<T>, ps: seq<Bytes>, rest: Bytes)
    requires ItemShrinks(item) && Concat(ps) == ""
    ensures ParseArray(item, ArrayText(ps) + rest) == Ok([], rest)
  {
    ArrayOpens(ps, rest);
    assert "" + ("]" + rest) == "]" + rest;
    FrontKept(']', rest);
  }

  ghost predicate ItemStops<T>(item: Bytes -> Parsed<T>, text: Bytes, panics: bool) {
    ItemStart(text) && forall more :: item(text + more) == Stopped(panics)
  }

  lemma {:induction false} ItemsStop<T>(item: Bytes -> Parsed<T>, ps: seq<Bytes>, end: Bytes, xs: seq<seq<T>>,
                                        acc: seq<T>, j: nat, panics: bool)
    requires ItemShrinks(item) && j < |ps| == |xs|
    requires forall i :: 0 <= i < j ==> PieceReads(item, ps[i], xs[i])
    requires StartsWith(ps[j], ',') && ItemStops(item, ps[j][1..], panics)
    ensures BehindItem(item, Concat(ps) + ("]" + end), acc) == Stopped(panics)
  {
    var more := Concat(ps[1..]) + ("]" + end);
    Assoc(ps[0], Concat(ps[1..]), "]" + end);
    if j == 0 {
      assert ps[0] == "," + ps[0][1..];
      var y := ps[0][1..] + more;
      Assoc(",", ps[0][1..], more);
      FrontKept(',', y);
      assert y[0] == ps[0][1..][0];
      assert SkipWs(y) == y;
      assert item(y) == Stopped(panics);
    } else {
      assert PieceReads(item, ps[0], xs[0]);
      ItemsStop(item, ps[1..], end, xs[1..], acc + xs[0], j - 1, panics);
      if xs[0] == [] {
        assert "" + more == more && acc + xs[0] == acc;
      } else {
        assert ps[0] == "," + ps[0][1..] && xs[0] == [xs[0][0]];
        NextItem(item, ps[0][1..], more, xs[0][0], acc);
      }
    }
  }

  /** An array whose elements are read up to one that stops. */
  lemma ArrayStops<T>(item: Bytes -> Parsed<T>, ps: seq<Bytes>, xs: seq<seq<T>>, rest: Bytes, j: nat, panics: bool)
    requires ItemShrinks(item) && j < |ps| == |xs|
    requires j > 0 ==> |xs[0]| == 1 && ItemReads(item, ps[0], xs[0][0])
    requires forall i :: 1 <= i < j ==> PieceReads(item, ps[i], xs[i])
    requires ItemStops(item, if j > 0 && ps[j] != "" then ps[j][1..] else ps[j], panics)
    requires j > 0 ==> StartsWith(ps[j], ',')
    ensures ParseArray(item, ArrayText(ps) + rest) == Stopped(panics)
  {
    ArrayOpens(ps, rest);
    var more := Concat(ps[1..]) + ("]" + rest);
    var x := Concat(ps) + ("]" + rest);
    Assoc(ps[0], Concat(ps[1..]), "]" + rest);
    assert x == ps[0] + more && x[0] == ps[0][0];
    assert SkipWs(x) == x;
    if j == 0 {
      assert item(ps[0] + more) == Stopped(panics);
    } else {
      assert item(ps[0] + more) == Ok(xs[0][0], more);
      ItemsStop(item, ps[1..], rest, xs[1..], [xs[0][0]], j - 1, panics);
      assert [] + [xs[0][0]] == [xs[0][0]];
    }
  }

  /** The arrays of a record: every text is there. */
  lemma ListRead<T>(item: Bytes -> Parsed<T>, texts: seq<Bytes>, xs: seq<T>, rest: Bytes)
    requires ItemShrinks(item) && |texts| == |xs|
    requires forall i :: 0 <= i < |xs| ==> ItemReads(item, texts[i], xs[i])
    ensures ParseArray(item, ArrayText(Listed(texts)) + rest) == Ok(xs, rest)
  {
    var ps := Listed(texts);
    if xs == [] {
      EmptyArrayRead(item, ps, rest);
    } else {
      var xss := seq(|xs|, i requires 0 <= i < |xs| => [xs[i]]);
      forall i | 1 <= i < |ps| ensures PieceReads(item, ps[i], xss[i]) {
        assert ItemReads(item, texts[i], xs[i]);
        DropFront(",", texts[i]);
      }
      assert ItemReads(item, texts[0], xs[0]);
      ArrayRead(item, ps, xss, rest);
      FlattenSingles(xss, xs);
    }
  }

  lemma {:induction false} FlattenSingles<T>(xss: seq<seq<T>>, xs: seq<T>)
    requires |xss| == |xs| && forall i :: 0 <= i < |xs| ==> xss[i] == [xs[i]]
    ensures Flatten(xss) == xs
  {
    if xs != [] {
      FlattenSingles(xss[1..], xs[1..]);
    }
  }

  // ----- samples -----

  /** The sample after its first k members were read. */
  function SampleSoFar(m: Sample, k: nat): Sample {
    Sample(if k > 0 then m.cycleID else 0,
           if k > 1 then m.testedAt else ZERO_TIME,
           if k > 2 then m.status else "",
           if k > 3 then m.category else "",
           if k > 4 then m.statusCode else 0,
           if k > 5 then Positive(m.latency) else 0,
           if k > 11 then m.claudeStatus else "",
           if k > 12 then m.claudeCategory else "",
           if k > 13 then Positive(m.claudeLatency) else 0,
           if k > 6 then m.attempts else 0,
           k > 7 && m.transportOK,
           if k > 8 then Positive(m.transportLatency) else 0,
           k > 9 && m.transportEvidenceKnown,
           if k > 10 then Positive(m.jitter) else 0)
  }

  lemma SampleEntryRead(rt: Runtime, m: Sample, k: nat)
    requires SampleOk(rt, m) && k < 14
    ensures EntryReads(SampleSwitch(rt), SampleEntry(rt, m, k), SampleSoFar(m, k),
                       SampleSoFar(m, k + 1))
  {
    hide ParseString, ParseInt, ParseUint, ParseBool, ParseTime, ParseArray, ParseObject, SkipValue,
         Quote, IntText, Decimal, TimeText, SampleText, LatestText, HistText;
    var e, a, a' := SampleEntry(rt, m, k), SampleSoFar(m, k), SampleSoFar(m, k + 1);
    if e.shown {
      forall more | AtDelimiter(more) ensures SampleField(rt, e.field, e.text + more, a) == Ok(a', more) {
        match k
        case 0 => UintRoundTrip(m.cycleID, more);
        case 1 => TimeRoundTrip(rt, m.testedAt, more);
        case 2 => StringRoundTrip(m.status, more);
        case 3 => StringRoundTrip(m.category, more);
        case 4 => IntRoundTrip(m.statusCode, more);
        case 5 => IntRoundTrip(m.latency, more);
        case 6 => IntRoundTrip(m.attempts, more);
        case 7 => TrueRoundTrip(more);
        case 8 => IntRoundTrip(m.transportLatency, more);
        case 9 => TrueRoundTrip(more);
        case 10 => IntRoundTrip(m.jitter, more);
        case 11 => StringRoundTrip(m.claudeStatus, more);
        case 12 => StringRoundTrip(m.claudeCategory, more);
        case _ => IntRoundTrip(m.claudeLatency, more);
      }
    }
  }

  lemma SampleRead(rt: Runtime, m: Sample)
    requires SampleOk(rt, m)
    ensures ItemReads(ParseSample(rt), SampleText(rt, m), StoredSample(m))
  {
    var es := SampleEntries(rt, m);
    var accs := seq(15, k requires 0 <= k < 15 => SampleSoFar(m, k));
    forall k | 0 <= k < 14 ensures EntryReads(SampleSwitch(rt), es[k], accs[k], accs[k+1]) {
      SampleEntryRead(rt, m, k);
    }
    assert es[0].shown;
    forall rest ensures ParseSample(rt)(SampleText(rt, m) + rest) == Ok(StoredSample(m), rest) {
      ObjectRead(SampleSwitch(rt), es, accs, rest);
    }
  }

  // ----- histories -----

  function HistSoFar(h: Hist, k: nat): Hist {
    Hist(if k > 0 then h.capacity else 0, if k > 1 then h.count else 0, 0,
         if k > 2 then MapSeq(StoredSample, h.samples) else [])
  }

  lemma SamplesRead(rt: Runtime, h: Hist, rest: Bytes)
    requires HistOk(rt, h)
    ensures ParseArray(ParseSample(rt), ArrayText(Listed(SampleTexts(rt, h.samples))) + rest) ==
            Ok(MapSeq(StoredSample, h.samples), rest)
  {
    var texts, xs := SampleTexts(rt, h.samples), MapSeq(StoredSample, h.samples);
    forall i | 0 <= i < |xs| ensures ItemReads(ParseSample(rt), texts[i], xs[i]) {
      SampleRead(rt, h.samples[i]);
    }
    ListRead(ParseSample(rt), texts, xs, rest);
  }

  /** The list of samples, once there is room for as many as the count says. */
  lemma SamplesMember(rt: Runtime, h: Hist, rest: Bytes)
    requires HistOk(rt, h)
    ensures ParseSamples(rt, h.count, ArrayText(Listed(SampleTexts(rt, h.samples))) + rest) ==
            if CanMake(rt, h.count) then Ok(MapSeq(StoredSample, h.samples), rest) else Panic
  {
    ArrayOpens(Listed(SampleTexts(rt, h.samples)), rest);
    SamplesRead(rt, h, rest);
  }

  lemma HistEntryRead(rt: Runtime, h: Hist, k: nat)
    requires HistOk(rt, h) && k < 3 && (k == 2 ==> CanMake(rt, h.count))
    ensures EntryReads(HistSwitch(rt), HistEntry(rt, h, k), HistSoFar(h, k),
                       HistSoFar(h, k + 1))
  {
    hide ParseString, ParseInt, ParseUint, ParseBool, ParseTime, ParseArray, ParseObject, SkipValue,
         ParseSamples, Quote, IntText, Decimal, TimeText, SampleText, LatestText, HistText;
    var e, a, a' := HistEntry(rt, h, k), HistSoFar(h, k), HistSoFar(h, k + 1);
    if e.shown {
      forall more | AtDelimiter(more) ensures HistField(rt, e.field, e.text + more, a) == Ok(a', more) {
        match k
        case 0 => IntRoundTrip(h.capacity, more);
        case 1 => IntRoundTrip(h.count, more);
        case _ => SamplesMember(rt, h, more);
      }
    }
  }

  lemma HistRead(rt: Runtime, h: Hist, rest: Bytes)
    requires HistOk(rt, h) && CanMake(rt, h.count)
    ensures ParseObject(HistSwitch(rt), HistText(rt, h) + rest, NO_HIST) == Ok(StoredHist(h), rest)
  {
    var es := HistEntries(rt, h);
    var accs := seq(4, k requires 0 <= k < 4 => HistSoFar(h, k));
    forall k | 0 <= k < 3 ensures EntryReads(HistSwitch(rt), es[k], accs[k], accs[k+1]) {
      HistEntryRead(rt, h, k);
    }
    assert es[0].shown;
    ObjectRead(HistSwitch(rt), es, accs, rest);
  }

  /** A history with a count that no slice can be made for ends the program. */
  lemma HistPanics(rt: Runtime, h: Hist, rest: Bytes)
    requires HistOk(rt, h) && !CanMake(rt, h.count)
    ensures ParseObject(HistSwitch(rt), HistText(rt, h) + rest, NO_HIST) == Panic
  {
    hide CanMake, ParseSamples;
    var es := HistEntries(rt, h);
    var accs := seq(4, k requires 0 <= k < 4 => HistSoFar(h, k));
    forall k | 0 <= k < 2 ensures EntryReads(HistSwitch(rt), es[k], accs[k], accs[k+1]) {
      HistEntryRead(rt, h, k);
    }
    forall more ensures HistSwitch(rt)(es[2].field, es[2].text + more, accs[2]) == Stopped(true) {
      SamplesMember(rt, h, more);
    }
    ObjectStops(HistSwitch(rt), es, accs, 2, true, rest);
  }

  // ----- results -----

  function LatestSoFar(l: Result, activeLink: Bytes, k: nat): Result {
    NO_RESULT.(link := if k > 0 && l.link != activeLink then l.link else "",
               status := if k > 1 then l.status else "",
               reason := if k > 2 then l.reason else "",
               category := if k > 3 then l.category else "",
               statusCode := if k > 4 then l.statusCode else 0,
               latency := if k > 5 then l.latency else 0,
               testedAt := if k > 6 then l.testedAt else ZERO_TIME,
               attempts := if k > 7 then l.attempts else 0,
               transportOK := k > 8 && l.transportOK,
               transportLatency := if k > 9 then Positive(l.transportLatency) else 0,
               transportEvidenceKnown := k > 10 && l.transportEvidenceKnown,
               jitter := if k > 11 then Positive(l.jitter) else 0,
               warnings := if k > 12 then l.warnings else [])
  }

  lemma WarningsRead(ws: seq<Bytes>, rest: Bytes)
    ensures ParseArray(ParseString, ArrayText(Listed(MapSeq(Quote, ws))) + rest) == Ok(ws, rest)
  {
    var texts := MapSeq(Quote, ws);
    forall i | 0 <= i < |ws| ensures ItemReads(ParseString, texts[i], ws[i]) {
      forall more ensures ParseString(texts[i] + more) == Ok(ws[i], more) {
        StringRoundTrip(ws[i], more);
      }
    }
    ListRead(ParseString, texts, ws, rest);
  }

  lemma LatestEntryRead(rt: Runtime, l: Result, activeLink: Bytes, k: nat)
    requires ResultOk(rt, l) && k < 13
    ensures EntryReads(LatestSwitch(rt), LatestEntry(rt, l, activeLink, k), LatestSoFar(l, activeLink, k),
                       LatestSoFar(l, activeLink, k + 1))
  {
    hide ParseString, ParseInt, ParseUint, ParseBool, ParseTime, ParseArray, ParseObject, SkipValue,
         Quote, IntText, Decimal, TimeText, SampleText, LatestText, HistText;
    var e, a, a' := LatestEntry(rt, l, activeLink, k), LatestSoFar(l, activeLink, k), LatestSoFar(l, activeLink, k + 1);
    if e.shown {
      forall more | AtDelimiter(more) ensures LatestField(rt, e.field, e.text + more, a) == Ok(a', more) {
        match k
        case 0 => StringRoundTrip(l.link, more);
        case 1 => StringRoundTrip(l.status, more);
        case 2 => StringRoundTrip(l.reason, more);
        case 3 => StringRoundTrip(l.category, more);
        case 4 => IntRoundTrip(l.statusCode, more);
        case 5 => IntRoundTrip(l.latency, more);
        case 6 => TimeRoundTrip(rt, l.testedAt, more);
        case 7 => IntRoundTrip(l.attempts, more);
        case 8 => TrueRoundTrip(more);
        case 9 => IntRoundTrip(l.transportLatency, more);
        case 10 => TrueRoundTrip(more);
        case 11 => IntRoundTrip(l.jitter, more);
        case _ => WarningsRead(l.warnings, more);
      }
    }
  }

  lemma LatestRead(rt: Runtime, l: Result, activeLink: Bytes, rest: Bytes)
    requires ResultOk(rt, l)
    ensures ParseObject(LatestSwitch(rt), LatestText(rt, l, activeLink) + rest, NO_RESULT) ==
            Ok(StoredResult(l, activeLink), rest)
  {
    var es := LatestEntries(rt, l, activeLink);
    var accs := seq(14, k requires 0 <= k < 14 => LatestSoFar(l, activeLink, k));
    forall k | 0 <= k < 13 ensures EntryReads(LatestSwitch(rt), es[k], accs[k], accs[k+1]) {
      LatestEntryRead(rt, l, activeLink, k);
    }
    assert es[1].shown;
    ObjectRead(LatestSwitch(rt), es, accs, rest);
  }

  // ----- records and snapshots -----

  function RecordSoFar(r: Record, k: nat): Record {
    NO_RECORD.(canonicalLink := if k > 0 then r.canonicalLink else "",
               activeLink := if k > 1 then r.activeLink else "",
               absentCycles := if k > 2 then Positive(r.absentCycles) else 0,
               latest := if k > 3 then StoredResult(r.latest, r.activeLink) else NO_RESULT,
               history := if k > 4 then StoredHist(r.history) else NO_HIST)
  }

  lemma RecordEntryRead(rt: Runtime, r: Record, k: nat)
    requires RecordOk(rt, r) && k < 5 && (k == 4 ==> CanMake(rt, r.history.count))
    ensures EntryReads(RecordSwitch(rt), RecordEntry(rt, r, k), RecordSoFar(r, k),
                       RecordSoFar(r, k + 1))
  {
    hide ParseString, ParseInt, ParseUint, ParseBool, ParseTime, ParseArray, ParseObject, SkipValue,
         Quote, IntText, Decimal, TimeText, SampleText, LatestText, HistText;
    var e, a, a' := RecordEntry(rt, r, k), RecordSoFar(r, k), RecordSoFar(r, k + 1);
    if e.shown {
      forall more | AtDelimiter(more) ensures RecordField(rt, e.field, e.text + more, a) == Ok(a', more) {
        match k
        case 0 => StringRoundTrip(r.canonicalLink, more);
        case 1 => StringRoundTrip(r.activeLink, more);
        case 2 => IntRoundTrip(r.absentCycles, more);
        case 3 => LatestRead(rt, r.latest, r.activeLink, more);
        case _ => HistRead(rt, r.history, more);
      }
    }
  }

  lemma RecordRead(rt: Runtime, r: Record)
    requires RecordOk(rt, r) && CanMake(rt, r.history.count)
    ensures ItemReads(ParseRecord(rt), RecordText(rt, r), StoredRecord(r))
  {
    var es := RecordEntries(rt, r);
    var accs := seq(6, k requires 0 <= k < 6 => RecordSoFar(r, k));
    forall k | 0 <= k < 5 ensures EntryReads(RecordSwitch(rt), es[k], accs[k], accs[k+1]) {
      RecordEntryRead(rt, r, k);
    }
    assert es[0].shown;
    forall rest ensures ParseRecord(rt)(RecordText(rt, r) + rest) == Ok(StoredRecord(r), rest) {
      ObjectRead(RecordSwitch(rt), es, accs, rest);
    }
  }

  lemma HistoryStops(rt: Runtime, r: Record)
    requires RecordOk(rt, r) && !CanMake(rt, r.history.count)
    ensures EntryStops(RecordSwitch(rt), RecordEntry(rt, r, 4), RecordSoFar(r, 4), true)
  {
    hide CanMake, HistText, ParseObject;
    var e, a := RecordEntry(rt, r, 4), RecordSoFar(r, 4);
    forall more ensures RecordSwitch(rt)(e.field, e.text + more, a) == Stopped(true) {
      HistPanics(rt, r.history, more);
      assert RecordField(rt, History, HistText(rt, r.history) + more, a) == Panic;
    }
  }

  lemma RecordStarts(rt: Runtime, r: Record)
    ensures RecordEntry(rt, r, 0).shown && RecordSoFar(r, 0) == NO_RECORD && ItemStart(RecordText(rt, r))
  {
  }

  lemma RecordPanics(rt: Runtime, r: Record)
    requires RecordOk(rt, r) && !CanMake(rt, r.history.count)
    ensures ItemStops(ParseRecord(rt), RecordText(rt, r), true)
  {
    hide CanMake, EntryStops, EntryReads, RecordEntry, RecordSoFar, HistText;
    var es := RecordEntries(rt, r);
    var accs := seq(6, k requires 0 <= k < 6 => RecordSoFar(r, k));
    forall k | 0 <= k < 4 ensures EntryReads(RecordSwitch(rt), es[k], accs[k], accs[k+1]) {
      RecordEntryRead(rt, r, k);
    }
    HistoryStops(rt, r);
    RecordStarts(rt, r);
    forall rest ensures ParseRecord(rt)(RecordText(rt, r) + rest) == Stopped(true) {
      ObjectStops(RecordSwitch(rt), es, accs, 4, true, rest);
    }
  }

  /** The loop over records starts with an element, or has none: a nil record in front of
      others would leave a comma behind the bracket. */
  predicate NilsOk(rs: seq<Option<Record>>) {
    rs == [] || rs[0].Some? || forall i :: 0 <= i < |rs| ==> rs[i].None?
  }

  function KeptPieces(rs: seq<Option<Record>>): (xs: seq<seq<Record>>)
    ensures |xs| == |rs|
  {
    seq(|rs|, i requires 0 <= i < |rs| => if rs[i].Some? then [StoredRecord(rs[i].value)] else [])
  }

  /** The records a decoded snapshot holds. */
  function Kept(rs: seq<Option<Record>>): seq<Record> {
    Flatten(KeptPieces(rs))
  }

  /** The decoder can make room for the samples of every record. */
  predicate CountsOk(rt: Runtime, rs: seq<Option<Record>>) {
    forall i :: 0 <= i < |rs| && rs[i].Some? ==> CanMake(rt, rs[i].value.history.count)
  }

  predicate SnapshotOk(rt: Runtime, snap: Snapshot) {
    && IsInt64(snap.version) && TimeOk(rt, snap.lastCycle) && IsInt64(snap.cycleCount)
    && forall i :: 0 <= i < |snap.records| && snap.records[i].Some? ==> RecordOk(rt, snap.records[i].value)
  }

  lemma RecordsRead(rt: Runtime, snap: Snapshot, rest: Bytes)
    requires SnapshotOk(rt, snap) && NilsOk(snap.records) && CountsOk(rt, snap.records)
    ensures ParseArray(ParseRecord(rt), ArrayText(RecordTexts(rt, snap.records)) + rest) == Ok(Kept(snap.records), rest)
  {
    var rs := snap.records;
    var ps, xs := RecordTexts(rt, rs), KeptPieces(rs);
    if forall i :: 0 <= i < |rs| ==> rs[i].None? {
      NothingThere(ps, xs);
      EmptyArrayRead(ParseRecord(rt), ps, rest);
    } else {
      forall i | 1 <= i < |ps| ensures PieceReads(ParseRecord(rt), ps[i], xs[i]) {
        if rs[i].Some? {
          RecordRead(rt, rs[i].value);
          DropFront(",", RecordText(rt, rs[i].value));
        }
      }
      RecordRead(rt, rs[0].value);
      ArrayRead(ParseRecord(rt), ps, xs, rest);
    }
  }

  lemma {:induction false} FirstTooMany(rt: Runtime, rs: seq<Option<Record>>) returns (j: nat)
    requires !CountsOk(rt, rs)
    ensures j < |rs| && rs[j].Some? && !CanMake(rt, rs[j].value.history.count) && CountsOk(rt, rs[..j])
  {
    hide CanMake;
    if rs[0].Some? && !CanMake(rt, rs[0].value.history.count) {
      j := 0;
    } else {
      var k :| 0 <= k < |rs| && rs[k].Some? && !CanMake(rt, rs[k].value.history.count);
      assert rs[1..][k-1] == rs[k];
      j := FirstTooMany(rt, rs[1..]);
      j := j + 1;
      var front := rs[..j];
      forall i | 0 <= i < |front| && front[i].Some? ensures CanMake(rt, front[i].value.history.count) {
        assert i > 0 ==> rs[1..][..j-1][i-1] == front[i];
      }
    }
  }

  /** The first record whose samples there is no room for ends the program. */
  lemma RecordsPanic(rt: Runtime, snap: Snapshot, rest: Bytes)
    requires SnapshotOk(rt, snap) && NilsOk(snap.records) && !CountsOk(rt, snap.records)
    ensures ParseArray(ParseRecord(rt), ArrayText(RecordTexts(rt, snap.records)) + rest) == Panic
  {
    hide CanMake, RecordOk, RecordText, ParseRecord;
    var rs := snap.records;
    var ps, xs := RecordTexts(rt, rs), KeptPieces(rs);
    var j := FirstTooMany(rt, rs);
    forall i | 0 <= i < j && rs[i].Some? ensures CanMake(rt, rs[i].value.history.count) {
      assert rs[..j][i] == rs[i];
    }
    forall i | 1 <= i < j ensures PieceReads(ParseRecord(rt), ps[i], xs[i]) {
      if rs[i].Some? {
        RecordRead(rt, rs[i].value);
        DropFront(",", RecordText(rt, rs[i].value));
      }
    }
    RecordPanics(rt, rs[j].value);
    assert rs[0].Some?;
    if j > 0 {
      RecordRead(rt, rs[0].value);
      DropFront(",", RecordText(rt, rs[j].value));
    }
    ArrayStops(ParseRecord(rt), ps, xs, rest, j, true);
  }

  lemma {:induction false} LeadingComma(ps: seq<Bytes>)
    requires exists i :: 0 <= i < |ps| && ps[i] != ""
    requires forall i :: 0 <= i < |ps| ==> ps[i] == "" || ps[i][0] == ','
    ensures StartsWith(Concat(ps), ',')
  {
    if ps[0] == "" {
      var i :| 0 <= i < |ps| && ps[i] != "";
      assert ps[1..][i-1] != "";
      LeadingComma(ps[1..]);
    }
  }

  lemma CommaRefused(rt: Runtime, x: Bytes)
    requires StartsWith(x, ',')
    ensures ParseArray(ParseRecord(rt), "[" + x) == Fail
  {
    DropFront("[", x);
    assert Consume('[', "[" + x) == Ok((), x) && SkipWs(x) == x;
    assert Consume('{', x) == Fail;
    assert ParseRecord(rt)(x) == Fail;
  }

  lemma RecordsRefused(rt: Runtime, rs: seq<Option<Record>>, rest: Bytes)
    requires !NilsOk(rs)
    ensures ParseArray(ParseRecord(rt), ArrayText(RecordTexts(rt, rs)) + rest) == Fail
  {
    var ps := RecordTexts(rt, rs);
    var i :| 0 <= i < |rs| && rs[i].Some?;
    assert ps[i] == "," + RecordText(rt, rs[i].value);
    LeadingComma(ps);
    ArrayOpens(ps, rest);
    CommaRefused(rt, Concat(ps) + ("]" + rest));
  }

  function SnapshotSoFar(snap: Snapshot, k: nat): Decoding {
    Decoding(if k > 0 then snap.version else 0, if k > 1 then snap.lastCycle else ZERO_TIME,
             if k > 2 then snap.cycleCount else 0, if k > 3 then Kept(snap.records) else [], k > 3)
  }

  lemma SnapshotEntryRead(rt: Runtime, snap: Snapshot, k: nat)
    requires SnapshotOk(rt, snap) && k < 4 && (k == 3 ==> NilsOk(snap.records) && CountsOk(rt, snap.records))
    ensures EntryReads(SnapshotSwitch(rt), SnapshotEntry(rt, snap, k), SnapshotSoFar(snap, k),
                       SnapshotSoFar(snap, k + 1))
  {
    hide ParseString, ParseInt, ParseUint, ParseBool, ParseTime, ParseArray, ParseObject, SkipValue,
         Quote, IntText, Decimal, TimeText, SampleText, LatestText, HistText;
    var e, a, a' := SnapshotEntry(rt, snap, k), SnapshotSoFar(snap, k), SnapshotSoFar(snap, k + 1);
    if e.shown {
      forall more | AtDelimiter(more) ensures SnapshotField(rt, e.field, e.text + more, a) == Ok(a', more) {
        match k
        case 0 => IntRoundTrip(snap.version, more);
        case 1 => TimeRoundTrip(rt, snap.lastCycle, more);
        case 2 => IntRoundTrip(snap.cycleCount, more);
        case _ => RecordsRead(rt, snap, more);
      }
    }
  }

  lemma SnapshotStops(rt: Runtime, snap: Snapshot)
    requires SnapshotOk(rt, snap) && !(NilsOk(snap.records) && CountsOk(rt, snap.records))
    ensures ParseObject(SnapshotSwitch(rt), SnapshotText(rt, snap), NOTHING_DECODED) == Stopped(NilsOk(snap.records))
  {
    hide ParseArray, KeyText, FieldOf, EntriesText, CountsOk, NilsOk;
    var f, panics := SnapshotSwitch(rt), NilsOk(snap.records);
    var es := SnapshotEntries(rt, snap);
    var accs := seq(5, k requires 0 <= k < 5 => SnapshotSoFar(snap, k));
    forall k | 0 <= k < 3 ensures EntryReads(f, es[k], accs[k], accs[k+1]) {
      SnapshotEntryRead(rt, snap, k);
    }
    forall more ensures f(es[3].field, es[3].text + more, accs[3]) == Stopped(panics) {
      if panics {
        RecordsPanic(rt, snap, more);
      } else {
        RecordsRefused(rt, snap.records, more);
      }
    }
    ObjectStops(f, es, accs, 3, panics, "");
    assert SnapshotText(rt, snap) + "" == SnapshotText(rt, snap);
  }

  /** Decoding what was printed gives back the non-nil records as they were stored. It is refused exactly
      when the first record is nil and a later one is not; otherwise it panics exactly when there is no
      room for the samples of some record, because its count is negative or too large. */
  lemma SnapshotRoundTrips(rt: Runtime, snap: Snapshot)
    requires SnapshotOk(rt, snap)
    ensures FastDecode(rt, SnapshotText(rt, snap)) ==
            if !NilsOk(snap.records) then Rejected
            else if !CountsOk(rt, snap.records) then Panics
            else Read(Snapshot(snap.version, snap.lastCycle, snap.cycleCount, Present(Kept(snap.records))))
  {
    if NilsOk(snap.records) && CountsOk(rt, snap.records) {
      var es := SnapshotEntries(rt, snap);
      var accs := seq(5, k requires 0 <= k < 5 => SnapshotSoFar(snap, k));
      forall k | 0 <= k < 4 ensures EntryReads(SnapshotSwitch(rt), es[k], accs[k], accs[k+1]) {
        SnapshotEntryRead(rt, snap, k);
      }
      assert es[0].shown;
      ObjectRead(SnapshotSwitch(rt), es, accs, "");
      assert SnapshotText(rt, snap) + "" == SnapshotText(rt, snap);
    } else {
      SnapshotStops(rt, snap);
    }
  }

  /** A snapshot with two records, the first of them nil, is printed with a stray comma. */
  lemma NilRecordIsRefused(rt: Runtime)
    requires TimeOk(rt, ZERO_TIME)
    ensures FastDecode(rt, SnapshotText(rt, Snapshot(2, ZERO_TIME, 0, [None, Some(NO_RECORD)]))) == Rejected
  {
    var snap := Snapshot(2, ZERO_TIME, 0, [None, Some(NO_RECORD)]);
    assert snap.records[1].Some?;
    SnapshotRoundTrips(rt, snap);
  }

  /** A history that says it holds -1 samples ends the program that loads it. */
  lemma NegativeCountPanics(rt: Runtime)
    requires TimeOk(rt, ZERO_TIME)
    ensures var rec := NO_RECORD.(history := Hist(10, -1, 0, []));
            FastDecode(rt, SnapshotText(rt, Snapshot(2, ZERO_TIME, 0, [Some(rec)]))) == Panics
  {
    var rec := NO_RECORD.(history := Hist(10, -1, 0, []));
    var snap := Snapshot(2, ZERO_TIME, 0, [Some(rec)]);
    assert snap.records[0] == Some(rec);
    SnapshotRoundTrips(rt, snap);
  }

  // ----- which fields survive -----

  predicate SampleNonNegative(m: Sample) {
    m.latency >= 0 && m.transportLatency >= 0 && m.jitter >= 0 && m.claudeLatency >= 0
  }

  /** Counters and latencies that the printer leaves out when they are not positive. */
  predicate NonNegative(r: Record) {
    && r.absentCycles >= 0 && r.latest.transportLatency >= 0 && r.latest.jitter >= 0
    && forall i :: 0 <= i < |r.history.samples| ==> SampleNonNegative(r.history.samples[i])
  }

  /** A record without what a snapshot of version 2 does not hold: the cached score, pass flag
      and latency, the derived flags of the result, and the start of the buffer. */
  function Persisted(r: Record): Record {
    r.(score := 0.0, hasPassed := false, lastPassedLatency := 0,
       latest := r.latest.(passed := false, consecutiveInconclusive := 0, previouslyPassed := false),
       history := r.history.(start := 0))
  }

  /** Every persisted field survives exactly when no counter or optional latency is negative;
      a link equal to the active link comes back empty. */
  lemma StoredKeeps(r: Record)
    ensures NonNegative(r) <==>
            StoredRecord(r).(latest := StoredRecord(r).latest.(link := r.latest.link)) == Persisted(r)
    ensures StoredRecord(r).latest.link == if r.latest.link == r.activeLink then "" else r.latest.link
  {
    var ms, ms' := r.history.samples, MapSeq(StoredSample, r.history.samples);
    assert forall i :: 0 <= i < |ms| ==> (SampleNonNegative(ms[i]) <==> ms'[i] == ms[i]);
    if forall i :: 0 <= i < |ms| ==> SampleNonNegative(ms[i]) {
      assert ms' == ms;
    }
  }
}
