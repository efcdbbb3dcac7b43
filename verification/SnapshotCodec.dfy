/** The hand-written snapshot codec: the text writeSnapshotJSON prints, and fastDecodeSnapshot
    as functions of the text that is left. */
module SnapshotCodec {
  import opened Base
  import opened JsonText
  import opened JsonNumber
  import opened JsonGrammar
  import opened Types

  /** What the codec gets from Go: how times are written and read (time.RFC3339Nano), and the largest
      capacity with which a slice of samples can be made. */
  datatype Runtime = Runtime(format: Time -> Bytes, parse: Bytes -> Option<Time>, maxCount: nat)

  predicate AllRaw(s: Bytes) {
    forall i :: 0 <= i < |s| ==> IsRaw(s[i])
  }

  /** The text of this time needs no escape and reads back as the same time. */
  predicate TimeOk(rt: Runtime, t: Time) {
    AllRaw(rt.format(t)) && rt.parse(rt.format(t)) == Some(t)
  }

  // ----- keys -----

  datatype Field =
    | CycleId | TestedAt | Status | Category | StatusCode | Latency | Attempts | TransportOk
    | TransportLatency | TransportEvidenceKnown | Jitter | ClaudeStatus | ClaudeCategory | ClaudeLatency
    | Capacity | Count | Start | Samples
    | Link | Reason | Warnings
    | CanonicalLink | ActiveLink | AbsentCycles | Score | HasPassed | LastPassedLatency | Latest | History
    | Version | LastCycle | CycleCount | Records
    | Unknown

  function KeyText(f: Field): Bytes {
    match f
    case CycleId => "cycle_id"
    case TestedAt => "tested_at"
    case Status => "status"
    case Category => "category"
    case StatusCode => "status_code"
    case Latency => "latency"
    case Attempts => "attempts"
    case TransportOk => "transport_ok"
    case TransportLatency => "transport_latency"
    case TransportEvidenceKnown => "transport_evidence_known"
    case Jitter => "jitter"
    case ClaudeStatus => "claude_status"
    case ClaudeCategory => "claude_category"
    case ClaudeLatency => "claude_latency"
    case Capacity => "capacity"
    case Count => "count"
    case Start => "start"
    case Samples => "samples"
    case Link => "link"
    case Reason => "reason"
    case Warnings => "warnings"
    case CanonicalLink => "canonical_link"
    case ActiveLink => "active_link"
    case AbsentCycles => "absent_cycles"
    case Score => "score"
    case HasPassed => "has_passed"
    case LastPassedLatency => "last_passed_latency"
    case Latest => "latest"
    case History => "history"
    case Version => "version"
    case LastCycle => "last_cycle"
    case CycleCount => "cycle_count"
    case Records => "records"
    case Unknown => ""
  }

  /** The string comparisons of the switches, grouped by length: no key means two fields. */
  function FieldOf(key: Bytes): Field {
    match |key|
    case 4 => if key == "link" then Link else Unknown
    case 5 =>
      if key == "count" then Count
      else if key == "start" then Start
      else if key == "score" then Score
      else Unknown
    case 6 =>
      if key == "status" then Status
      else if key == "jitter" then Jitter
      else if key == "reason" then Reason
      else if key == "latest" then Latest
      else Unknown
    case 7 =>
      if key == "latency" then Latency
      else if key == "samples" then Samples
      else if key == "history" then History
      else if key == "version" then Version
      else if key == "records" then Records
      else Unknown
    case 8 =>
      if key == "cycle_id" then CycleId
      else if key == "category" then Category
      else if key == "attempts" then Attempts
      else if key == "capacity" then Capacity
      else if key == "warnings" then Warnings
      else Unknown
    case 9 => if key == "tested_at" then TestedAt else Unknown
    case 10 =>
      if key == "has_passed" then HasPassed
      else if key == "last_cycle" then LastCycle
      else Unknown
    case 11 =>
      if key == "status_code" then StatusCode
      else if key == "active_link" then ActiveLink
      else if key == "cycle_count" then CycleCount
      else Unknown
    case 12 => if key == "transport_ok" then TransportOk else Unknown
    case 13 =>
      if key == "claude_status" then ClaudeStatus
      else if key == "absent_cycles" then AbsentCycles
      else Unknown
    case 14 =>
      if key == "claude_latency" then ClaudeLatency
      else if key == "canonical_link" then CanonicalLink
      else Unknown
    case 15 => if key == "claude_category" then ClaudeCategory else Unknown
    case 17 => if key == "transport_latency" then TransportLatency else Unknown
    case 19 => if key == "last_passed_latency" then LastPassedLatency else Unknown
    case 24 => if key == "transport_evidence_known" then TransportEvidenceKnown else Unknown
    case _ => Unknown
  }

  // ----- printing -----

  function Concat(ps: seq<Bytes>): Bytes {
    if ps == [] then "" else ps[0] + Concat(ps[1..])
  }

  /** One member of an object, left out of the text when it is not shown. */
  datatype Entry = Entry(shown: bool, field: Field, text: Bytes)

  function Key(key: Bytes): Bytes {
    "\"" + (key + "\":")
  }

  /** The shown members, separated by commas. */
  function EntriesText(es: seq<Entry>, first: bool): Bytes {
    if es == [] then ""
    else if !es[0].shown then EntriesText(es[1..], first)
    else (if first then "" else ",") + (Key(KeyText(es[0].field)) + (es[0].text + EntriesText(es[1..], false)))
  }

  function ObjectText(es: seq<Entry>): Bytes {
    "{" + (EntriesText(es, true) + "}")
  }

  function TimeText(rt: Runtime, t: Time): Bytes {
    "\"" + (rt.format(t) + "\"")
  }

  /** Texts in a row, a comma before every one but the first. */
  function Separated(i: nat, text: Bytes): Bytes {
    if i > 0 then "," + text else text
  }

  function Listed(texts: seq<Bytes>): (ps: seq<Bytes>)
    ensures |ps| == |texts| && forall i :: 0 <= i < |ps| ==> ps[i] == Separated(i, texts[i])
  {
    seq(|texts|, i requires 0 <= i < |texts| => Separated(i, texts[i]))
  }

  function ArrayText(ps: seq<Bytes>): Bytes {
    "[" + (Concat(ps) + "]")
  }

  function SampleEntry(rt: Runtime, m: Sample, k: nat): Entry
    requires k < 14
  {
    match k
    case 0 => Entry(true, CycleId, Decimal(m.cycleID))
    case 1 => Entry(true, TestedAt, TimeText(rt, m.testedAt))
    case 2 => Entry(true, Status, Quote(m.status))
    case 3 => Entry(true, Category, Quote(m.category))
    case 4 => Entry(m.statusCode != 0, StatusCode, IntText(m.statusCode))
    case 5 => Entry(m.latency > 0, Latency, IntText(m.latency))
    case 6 => Entry(true, Attempts, IntText(m.attempts))
    case 7 => Entry(m.transportOK, TransportOk, "true")
    case 8 => Entry(m.transportLatency > 0, TransportLatency, IntText(m.transportLatency))
    case 9 => Entry(m.transportEvidenceKnown, TransportEvidenceKnown, "true")
    case 10 => Entry(m.jitter > 0, Jitter, IntText(m.jitter))
    case 11 => Entry(m.claudeStatus != "", ClaudeStatus, Quote(m.claudeStatus))
    case 12 => Entry(m.claudeCategory != "", ClaudeCategory, Quote(m.claudeCategory))
    case _ => Entry(m.claudeLatency > 0, ClaudeLatency, IntText(m.claudeLatency))
  }

  function SampleEntries(rt: Runtime, m: Sample): (es: seq<Entry>)
    ensures |es| == 14 && forall k :: 0 <= k < 14 ==> es[k] == SampleEntry(rt, m, k)
  {
    seq(14, k requires 0 <= k < 14 => SampleEntry(rt, m, k))
  }

  function SampleText(rt: Runtime, m: Sample): Bytes {
    ObjectText(SampleEntries(rt, m))
  }

  function SampleTexts(rt: Runtime, ms: seq<Sample>): (ts: seq<Bytes>)
    ensures |ts| == |ms| && forall i :: 0 <= i < |ms| ==> ts[i] == SampleText(rt, ms[i])
  {
    MapSeq(m => SampleText(rt, m), ms)
  }

  function HistEntry(rt: Runtime, h: Hist, k: nat): Entry
    requires k < 3
  {
    match k
    case 0 => Entry(true, Capacity, IntText(h.capacity))
    case 1 => Entry(true, Count, IntText(h.count))
    case _ => Entry(true, Samples, ArrayText(Listed(SampleTexts(rt, h.samples))))
  }

  function HistEntries(rt: Runtime, h: Hist): (es: seq<Entry>)
    ensures |es| == 3 && forall k :: 0 <= k < 3 ==> es[k] == HistEntry(rt, h, k)
  {
    seq(3, k requires 0 <= k < 3 => HistEntry(rt, h, k))
  }

  function HistText(rt: Runtime, h: Hist): Bytes {
    ObjectText(HistEntries(rt, h))
  }

  function LatestEntry(rt: Runtime, l: Result, activeLink: Bytes, k: nat): Entry
    requires k < 13
  {
    match k
    case 0 => Entry(l.link != "" && l.link != activeLink, Link, Quote(l.link))
    case 1 => Entry(true, Status, Quote(l.status))
    case 2 => Entry(true, Reason, Quote(l.reason))
    case 3 => Entry(l.category != "", Category, Quote(l.category))
    case 4 => Entry(l.statusCode != 0, StatusCode, IntText(l.statusCode))
    case 5 => Entry(true, Latency, IntText(l.latency))
    case 6 => Entry(true, TestedAt, TimeText(rt, l.testedAt))
    case 7 => Entry(true, Attempts, IntText(l.attempts))
    case 8 => Entry(l.transportOK, TransportOk, "true")
    case 9 => Entry(l.transportLatency > 0, TransportLatency, IntText(l.transportLatency))
    case 10 => Entry(l.transportEvidenceKnown, TransportEvidenceKnown, "true")
    case 11 => Entry(l.jitter > 0, Jitter, IntText(l.jitter))
    case _ => Entry(l.warnings != [], Warnings, ArrayText(Listed(MapSeq(Quote, l.warnings))))
  }

  function LatestEntries(rt: Runtime, l: Result, activeLink: Bytes): (es: seq<Entry>)
    ensures |es| == 13 && forall k :: 0 <= k < 13 ==> es[k] == LatestEntry(rt, l, activeLink, k)
  {
    seq(13, k requires 0 <= k < 13 => LatestEntry(rt, l, activeLink, k))
  }

  function LatestText(rt: Runtime, l: Result, activeLink: Bytes): Bytes {
    ObjectText(LatestEntries(rt, l, activeLink))
  }

  function RecordEntry(rt: Runtime, r: Record, k: nat): Entry
    requires k < 5
  {
    match k
    case 0 => Entry(true, CanonicalLink, Quote(r.canonicalLink))
    case 1 => Entry(true, ActiveLink, Quote(r.activeLink))
    case 2 => Entry(r.absentCycles > 0, AbsentCycles, IntText(r.absentCycles))
    case 3 => Entry(true, Latest, LatestText(rt, r.latest, r.activeLink))
    case _ => Entry(true, History, HistText(rt, r.history))
  }

  function RecordEntries(rt: Runtime, r: Record): (es: seq<Entry>)
    ensures |es| == 5 && forall k :: 0 <= k < 5 ==> es[k] == RecordEntry(rt, r, k)
  {
    seq(5, k requires 0 <= k < 5 => RecordEntry(rt, r, k))
  }

  function RecordText(rt: Runtime, r: Record): Bytes {
    ObjectText(RecordEntries(rt, r))
  }

  /** The loop over records: a nil record prints nothing, not even its comma. */
  function RecordTexts(rt: Runtime, rs: seq<Option<Record>>): (ps: seq<Bytes>)
    ensures |ps| == |rs| && forall i :: 0 <= i < |ps| ==> ps[i] == RecordPiece(rt, i, rs[i])
  {
    seq(|rs|, i requires 0 <= i < |rs| => RecordPiece(rt, i, rs[i]))
  }

  function RecordPiece(rt: Runtime, i: nat, r: Option<Record>): Bytes {
    if r.Some? then Separated(i, RecordText(rt, r.value)) else ""
  }

  function SnapshotEntry(rt: Runtime, snap: Snapshot, k: nat): Entry
    requires k < 4
  {
    match k
    case 0 => Entry(true, Version, IntText(snap.version))
    case 1 => Entry(true, LastCycle, TimeText(rt, snap.lastCycle))
    case 2 => Entry(true, CycleCount, IntText(snap.cycleCount))
    case _ => Entry(true, Records, ArrayText(RecordTexts(rt, snap.records)))
  }

  function SnapshotEntries(rt: Runtime, snap: Snapshot): (es: seq<Entry>)
    ensures |es| == 4 && forall k :: 0 <= k < 4 ==> es[k] == SnapshotEntry(rt, snap, k)
  {
    seq(4, k requires 0 <= k < 4 => SnapshotEntry(rt, snap, k))
  }

  /** writeSnapshotJSON. */
  function SnapshotText(rt: Runtime, snap: Snapshot): Bytes {
    ObjectText(SnapshotEntries(rt, snap))
  }

  // ----- decoding: loops over members and elements -----

  ghost predicate Shrinks<T(!new)>(field: (Field, Bytes, T) -> Parsed<T>) {
    forall k, s, a :: field(k, s, a).Ok? ==> |field(k, s, a).rest| < |s|
  }

  ghost predicate ItemShrinks<T>(item: Bytes -> Parsed<T>) {
    forall s :: item(s).Ok? ==> |item(s).rest| < |s|
  }

  /** The member loop of an object: `field` is the switch over the keys of its level. */
  function MemberLoop<T(!new)>(field: (Field, Bytes, T) -> Parsed<T>, s: Bytes, acc: T): (r: Parsed<T>)
    requires Shrinks(field)
    ensures r.Ok? ==> |r.rest| < |s|
    decreases |s|, 1
  {
    var (key, t) :- ParseString(s);
    var (_, u) :- Consume(':', t);
    var (acc', v) :- field(FieldOf(key), u, acc);
    BehindMember(field, v, acc')
  }

  /** What follows the value of a member: the end of the object or the next member. */
  function BehindMember<T(!new)>(field: (Field, Bytes, T) -> Parsed<T>, s: Bytes, acc: T): (r: Parsed<T>)
    requires Shrinks(field)
    ensures r.Ok? ==> |r.rest| < |s|
    decreases |s|, 2
  {
    var t := SkipWs(s);
    if StartsWith(t, '}') then Ok(acc, t[1..])
    else if !StartsWith(t, ',') then Fail
    else
      var u := SkipWs(t[1..]);
      if StartsWith(u, '}') then Fail else MemberLoop(field, u, acc)
  }

  function ParseObject<T(!new)>(field: (Field, Bytes, T) -> Parsed<T>, s: Bytes, acc: T): (r: Parsed<T>)
    requires Shrinks(field)
    ensures r.Ok? ==> |r.rest| < |s|
  {
    var (_, t) :- Consume('{', s);
    var u := SkipWs(t);
    if StartsWith(u, '}') then Ok(acc, u[1..]) else MemberLoop(field, u, acc)
  }

  function ItemLoop<T>(item: Bytes -> Parsed<T>, s: Bytes, acc: seq<T>): (r: Parsed<seq<T>>)
    requires ItemShrinks(item)
    ensures r.Ok? ==> |r.rest| < |s|
    decreases |s|, 1
  {
    var (x, t) :- item(s);
    BehindItem(item, t, acc + [x])
  }

  function BehindItem<T>(item: Bytes -> Parsed<T>, s: Bytes, acc: seq<T>): (r: Parsed<seq<T>>)
    requires ItemShrinks(item)
    ensures r.Ok? ==> |r.rest| < |s|
    decreases |s|, 2
  {
    var t := SkipWs(s);
    if StartsWith(t, ']') then Ok(acc, t[1..])
    else if !StartsWith(t, ',') then Fail
    else
      var u := SkipWs(t[1..]);
      if StartsWith(u, ']') then Fail else ItemLoop(item, u, acc)
  }

  function ParseArray<T>(item: Bytes -> Parsed<T>, s: Bytes): (r: Parsed<seq<T>>)
    requires ItemShrinks(item)
    ensures r.Ok? ==> |r.rest| < |s|
  {
    var (_, t) :- Consume('[', s);
    var u := SkipWs(t);
    if StartsWith(u, ']') then Ok([], u[1..]) else ItemLoop(item, u, [])
  }

  // ----- decoding: the switches over keys -----

  function Skipped<T>(s: Bytes, acc: T): (r: Parsed<T>)
    ensures r.Ok? ==> |r.rest| < |s|
  {
    var t := SkipValue(s);
    if t.Some? then Ok(acc, t.value) else Fail
  }

  function ParseTime(rt: Runtime, s: Bytes): (r: Parsed<Time>)
    ensures r.Ok? ==> |r.rest| < |s|
  {
    var (text, t) :- ParseString(s);
    var time := rt.parse(text);
    if time.Some? then Ok(time.value, t) else Fail
  }

  function SampleField(rt: Runtime, f: Field, s: Bytes, m: Sample): (r: Parsed<Sample>)
    ensures r.Ok? ==> |r.rest| < |s|
  {
    match f
    case CycleId => var (v, t) :- ParseUint(s); Ok(m.(cycleID := v), t)
    case TestedAt => var (v, t) :- ParseTime(rt, s); Ok(m.(testedAt := v), t)
    case Status => var (v, t) :- ParseString(s); Ok(m.(status := v), t)
    case Category => var (v, t) :- ParseString(s); Ok(m.(category := v), t)
    case StatusCode => var (v, t) :- ParseInt(s); Ok(m.(statusCode := v), t)
    case Latency => var (v, t) :- ParseInt(s); Ok(m.(latency := v), t)
    case Attempts => var (v, t) :- ParseInt(s); Ok(m.(attempts := v), t)
    case TransportOk => var (v, t) :- ParseBool(s); Ok(m.(transportOK := v), t)
    case TransportLatency => var (v, t) :- ParseInt(s); Ok(m.(transportLatency := v), t)
    case TransportEvidenceKnown => var (v, t) :- ParseBool(s); Ok(m.(transportEvidenceKnown := v), t)
    case Jitter => var (v, t) :- ParseInt(s); Ok(m.(jitter := v), t)
    case ClaudeStatus => var (v, t) :- ParseString(s); Ok(m.(claudeStatus := v), t)
    case ClaudeCategory => var (v, t) :- ParseString(s); Ok(m.(claudeCategory := v), t)
    case ClaudeLatency => var (v, t) :- ParseInt(s); Ok(m.(claudeLatency := v), t)
    case _ => Skipped(s, m)
  }

  function SampleSwitch(rt: Runtime): (f: (Field, Bytes, Sample) -> Parsed<Sample>)
    ensures Shrinks(f)
  {
    (k, s, m) => SampleField(rt, k, s, m)
  }

  function ParseSample(rt: Runtime): (f: Bytes -> Parsed<Sample>)
    ensures ItemShrinks(f)
  {
    s => ParseObject(SampleSwitch(rt), s, NO_SAMPLE)
  }

  /** A slice of this capacity can be made; with any other one make panics. */
  predicate CanMake(rt: Runtime, count: int) {
    0 <= count <= rt.maxCount
  }

  /** The samples of a history whose count was read as `count` before: room for as many is made as soon
      as the bracket is there. */
  function ParseSamples(rt: Runtime, count: int, s: Bytes): (r: Parsed<seq<Sample>>)
    ensures r.Ok? ==> |r.rest| < |s|
  {
    if !Consume('[', s).Ok? then Fail
    else if !CanMake(rt, count) then Panic
    else ParseArray(ParseSample(rt), s)
  }

  function HistField(rt: Runtime, f: Field, s: Bytes, h: Hist): (r: Parsed<Hist>)
    ensures r.Ok? ==> |r.rest| < |s|
  {
    match f
    case Capacity => var (v, t) :- ParseInt(s); Ok(h.(capacity := v), t)
    case Count => var (v, t) :- ParseInt(s); Ok(h.(count := v), t)
    case Start => var (v, t) :- ParseInt(s); Ok(h.(start := v), t)
    case Samples => var (v, t) :- ParseSamples(rt, h.count, s); Ok(h.(samples := v), t)
    case _ => Skipped(s, h)
  }

  function HistSwitch(rt: Runtime): (f: (Field, Bytes, Hist) -> Parsed<Hist>)
    ensures Shrinks(f)
  {
    (k, s, h) => HistField(rt, k, s, h)
  }

  function LatestField(rt: Runtime, f: Field, s: Bytes, l: Result): (r: Parsed<Result>)
    ensures r.Ok? ==> |r.rest| < |s|
  {
    match f
    case Link => var (v, t) :- ParseString(s); Ok(l.(link := v), t)
    case Status => var (v, t) :- ParseString(s); Ok(l.(status := v), t)
    case Reason => var (v, t) :- ParseString(s); Ok(l.(reason := v), t)
    case Category => var (v, t) :- ParseString(s); Ok(l.(category := v), t)
    case StatusCode => var (v, t) :- ParseInt(s); Ok(l.(statusCode := v), t)
    case Latency => var (v, t) :- ParseInt(s); Ok(l.(latency := v), t)
    case TestedAt => var (v, t) :- ParseTime(rt, s); Ok(l.(testedAt := v), t)
    case Attempts => var (v, t) :- ParseInt(s); Ok(l.(attempts := v), t)
    case TransportOk => var (v, t) :- ParseBool(s); Ok(l.(transportOK := v), t)
    case TransportLatency => var (v, t) :- ParseInt(s); Ok(l.(transportLatency := v), t)
    case TransportEvidenceKnown => var (v, t) :- ParseBool(s); Ok(l.(transportEvidenceKnown := v), t)
    case Jitter => var (v, t) :- ParseInt(s); Ok(l.(jitter := v), t)
    case Warnings => var (v, t) :- ParseArray(ParseString, s); Ok(l.(warnings := v), t)
    case _ => Skipped(s, l)
  }

  function LatestSwitch(rt: Runtime): (f: (Field, Bytes, Result) -> Parsed<Result>)
    ensures Shrinks(f)
  {
    (k, s, l) => LatestField(rt, k, s, l)
  }

  function RecordField(rt: Runtime, f: Field, s: Bytes, rec: Record): (r: Parsed<Record>)
    ensures r.Ok? ==> |r.rest| < |s|
  {
    match f
    case CanonicalLink => var (v, t) :- ParseString(s); Ok(rec.(canonicalLink := v), t)
    case ActiveLink => var (v, t) :- ParseString(s); Ok(rec.(activeLink := v), t)
    case AbsentCycles => var (v, t) :- ParseInt(s); Ok(rec.(absentCycles := v), t)
    case Latest => var (v, t) :- ParseObject(LatestSwitch(rt), s, rec.latest); Ok(rec.(latest := v), t)
    case History => var (v, t) :- ParseObject(HistSwitch(rt), s, rec.history); Ok(rec.(history := v), t)
    case _ => Skipped(s, rec)
  }

  function RecordSwitch(rt: Runtime): (f: (Field, Bytes, Record) -> Parsed<Record>)
    ensures Shrinks(f)
  {
    (k, s, r) => RecordField(rt, k, s, r)
  }

  function ParseRecord(rt: Runtime): (f: Bytes -> Parsed<Record>)
    ensures ItemShrinks(f)
  {
    s => ParseObject(RecordSwitch(rt), s, NO_RECORD)
  }

  /** The state of fastDecodeSnapshot: the snapshot so far and whether "records" was seen. */
  datatype Decoding = Decoding(version: int, lastCycle: Time, cycleCount: int, records: seq<Record>, hasRecords: bool)

  const NOTHING_DECODED: Decoding := Decoding(0, ZERO_TIME, 0, [], false)

  function SnapshotField(rt: Runtime, f: Field, s: Bytes, d: Decoding): (r: Parsed<Decoding>)
    ensures r.Ok? ==> |r.rest| < |s|
  {
    match f
    case Version => var (v, t) :- ParseInt(s); Ok(d.(version := v), t)
    case LastCycle => var (v, t) :- ParseTime(rt, s); Ok(d.(lastCycle := v), t)
    case CycleCount => var (v, t) :- ParseInt(s); Ok(d.(cycleCount := v), t)
    case Records =>
      var (v, t) :- ParseArray(ParseRecord(rt), s); Ok(d.(records := v, hasRecords := true), t)
    case _ => Skipped(s, d)
  }

  function SnapshotSwitch(rt: Runtime): (f: (Field, Bytes, Decoding) -> Parsed<Decoding>)
    ensures Shrinks(f)
  {
    (k, s, d) => SnapshotField(rt, k, s, d)
  }

  function Present(rs: seq<Record>): (os: seq<Option<Record>>)
    ensures |os| == |rs| && forall i :: 0 <= i < |rs| ==> os[i] == Some(rs[i])
  {
    MapSeq(r => Some(r), rs)
  }

  /** What fastDecodeSnapshot does: it returns a snapshot, refuses, or panics. */
  datatype Decoded = Rejected | Panics | Read(snap: Snapshot)

  /** The checks behind the root object: "records" was there and only white space follows. */
  function Finished(root: Parsed<Decoding>): Decoded {
    match root
    case Panic => Panics
    case Fail => Rejected
    case Ok(d, rest) =>
      if d.hasRecords && SkipWs(rest) == ""
      then Read(Snapshot(d.version, d.lastCycle, d.cycleCount, Present(d.records)))
      else Rejected
  }

  /** fastDecodeSnapshot. */
  function FastDecode(rt: Runtime, data: Bytes): Decoded {
    Finished(ParseObject(SnapshotSwitch(rt), data, NOTHING_DECODED))
  }
}
