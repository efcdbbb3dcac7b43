/** fastDecodeSnapshot in the form of the source: loops over members and elements that move the
    parser over the data, one per level of the snapshot. Each level is proved to be the function
    of the codec on the text that is left. */
module SnapshotDecoder {
  import opened Base
  import opened JsonText
  import opened JsonNumber
  import opened JsonGrammar
  import opened Types
  import opened SnapshotCodec
  import opened FastParser

  /** The state between two members of an object: what is left decides the result. */
  lemma MemberStep<T(!new)>(field: (Field, Bytes, T) -> Parsed<T>, s: Bytes, acc: T, f: Field, u: Bytes)
    requires Shrinks(field)
    requires ParseString(s).Ok? && FieldOf(ParseString(s).value) == f && Consume(':', ParseString(s).rest) == Ok((), u)
    ensures MemberLoop(field, s, acc) ==
            if !field(f, u, acc).Ok? then Stopped(field(f, u, acc).Panic?)
            else BehindMember(field, field(f, u, acc).rest, field(f, u, acc).value)
  {
  }

  lemma BehindStep<T(!new)>(field: (Field, Bytes, T) -> Parsed<T>, s: Bytes, acc: T)
    requires Shrinks(field)
    ensures BehindMember(field, s, acc) ==
            match StepOf('}', s)
            case Done => Ok(acc, SkipWs(s)[1..])
            case More => MemberLoop(field, SkipWs(SkipWs(s)[1..]), acc)
            case Refused => Fail
  {
  }

  lemma ItemStep<T>(item: Bytes -> Parsed<T>, s: Bytes, acc: seq<T>)
    requires ItemShrinks(item) && item(s).Ok?
    ensures ItemLoop(item, s, acc) ==
            var t := item(s).rest;
            var acc' := acc + [item(s).value];
            match StepOf(']', t)
            case Done => Ok(acc', SkipWs(t)[1..])
            case More => ItemLoop(item, SkipWs(SkipWs(t)[1..]), acc')
            case Refused => Fail
  {
  }

  // ----- the parts of a member -----

  /** How a decoding step that may panic ends; a caller passes a panic on. */
  datatype Ending = Good | Bad | Panicked

  function Judged<T>(ending: Ending, value: T, rest: Bytes): Parsed<T> {
    match ending
    case Good => Ok(value, rest)
    case Bad => Fail
    case Panicked => Panic
  }

  function Graded(ok: bool): Ending {
    if ok then Good else Bad
  }

  /** The opening brace or bracket, and whether something stands before the closing one. */
  method Enter(p: FastJSONParser, open: char, close: char) returns (ok: bool, empty: bool)
    requires p.Valid()
    modifies p
    ensures p.Valid() && p.pos >= old(p.pos) && (ok ==> p.pos > old(p.pos))
    ensures ok <==> Consume(open, old(p.Rest())).Ok?
    ensures ok ==> (empty <==> StartsWith(SkipWs(Consume(open, old(p.Rest())).rest), close))
    ensures ok ==> p.Rest() == if empty then SkipWs(Consume(open, old(p.Rest())).rest)[1..]
                               else SkipWs(Consume(open, old(p.Rest())).rest)
  {
    empty := false;
    ok := p.ConsumeByte(open);
    if ok {
      ghost var t := p.Rest();
      empty := p.ConsumeByte(close);
      assert Consume(close, t).Ok? <==> StartsWith(SkipWs(t), close);
    }
  }

  method NextKey(p: FastJSONParser) returns (f: Field, ok: bool)
    requires p.Valid()
    modifies p
    ensures p.Valid() && p.pos >= old(p.pos) && (ok ==> p.pos > old(p.pos))
    ensures ok ==> ParseString(old(p.Rest())).Ok? && FieldOf(ParseString(old(p.Rest())).value) == f
    ensures ok ==> Consume(':', ParseString(old(p.Rest())).rest) == Ok((), p.Rest())
    ensures !ok ==> ParseString(old(p.Rest())).Fail? || Consume(':', ParseString(old(p.Rest())).rest).Fail?
  {
    var key;
    key, ok := p.ParseStringBytes();
    f := FieldOf(key);
    if ok {
      ok := p.ConsumeByte(':');
    }
  }

  method DecodeTime(p: FastJSONParser, rt: Runtime) returns (t: Time, ok: bool)
    requires p.Valid()
    modifies p
    ensures p.Valid() && p.pos >= old(p.pos) && (ok ==> p.pos > old(p.pos))
    ensures ParseTime(rt, old(p.Rest())) == Outcome(ok, t, p.Rest())
  {
    t := ZERO_TIME;
    var text;
    text, ok := p.ParseStringBytes();
    if ok {
      var parsed := rt.parse(text);
      ok := parsed.Some?;
      t := if ok then parsed.value else ZERO_TIME;
    }
  }

  /** The default case of the switches. */
  method SkipMember<T>(p: FastJSONParser, ghost acc: T) returns (ok: bool)
    requires p.Valid()
    modifies p
    ensures p.Valid() && p.pos >= old(p.pos) && (ok ==> p.pos > old(p.pos))
    ensures Skipped(old(p.Rest()), acc) == Outcome(ok, acc, p.Rest())
  {
    ok := p.SkipAny();
  }

  // ----- samples -----

  method DecodeSampleField(p: FastJSONParser, rt: Runtime, f: Field, m0: Sample) returns (m: Sample, ok: bool)
    requires p.Valid()
    modifies p
    ensures p.Valid() && p.pos >= old(p.pos) && (ok ==> p.pos > old(p.pos))
    ensures SampleField(rt, f, old(p.Rest()), m0) == Outcome(ok, m, p.Rest())
  {
    hide ParseString, ParseInt, ParseUint, ParseBool, ParseTime, ParseArray, ParseObject, SkipValue, Skipped;
    hide ParseSamples;
    m := m0;
    match f
    case CycleId => var v, good := p.ParseUnsigned(); m, ok := m.(cycleID := v), good;
    case TestedAt => var v, good := DecodeTime(p, rt); m, ok := m.(testedAt := v), good;
    case Status => var v, good := p.ParseStringBytes(); m, ok := m.(status := v), good;
    case Category => var v, good := p.ParseStringBytes(); m, ok := m.(category := v), good;
    case StatusCode => var v, good := p.ParseInteger(); m, ok := m.(statusCode := v), good;
    case Latency => var v, good := p.ParseInteger(); m, ok := m.(latency := v), good;
    case Attempts => var v, good := p.ParseInteger(); m, ok := m.(attempts := v), good;
    case TransportOk => var v, good := p.ParseBoolean(); m, ok := m.(transportOK := v), good;
    case TransportLatency => var v, good := p.ParseInteger(); m, ok := m.(transportLatency := v), good;
    case TransportEvidenceKnown => var v, good := p.ParseBoolean(); m, ok := m.(transportEvidenceKnown := v), good;
    case Jitter => var v, good := p.ParseInteger(); m, ok := m.(jitter := v), good;
    case ClaudeStatus => var v, good := p.ParseStringBytes(); m, ok := m.(claudeStatus := v), good;
    case ClaudeCategory => var v, good := p.ParseStringBytes(); m, ok := m.(claudeCategory := v), good;
    case ClaudeLatency => var v, good := p.ParseInteger(); m, ok := m.(claudeLatency := v), good;
    case _ => ok := SkipMember(p, m0);
  }

  method DecodeSample(p: FastJSONParser, rt: Runtime) returns (m: Sample, ok: bool)
    requires p.Valid()
    modifies p
    ensures p.Valid() && p.pos >= old(p.pos) && (ok ==> p.pos > old(p.pos))
    ensures ParseSample(rt)(old(p.Rest())) == Outcome(ok, m, p.Rest())
  {
    hide FieldOf, SampleField, HistField, LatestField, RecordField, SnapshotField;
    m := NO_SAMPLE;
    ghost var field := SampleSwitch(rt);
    var empty;
    ok, empty := Enter(p, '{', '}');
    if !ok || empty { return; }
    ghost var total := MemberLoop(field, p.Rest(), m);
    while true
      invariant p.Valid() && p.pos > old(p.pos)
      invariant MemberLoop(field, p.Rest(), m) == total
      decreases |p.data| - p.pos
    {
      ghost var s, acc := p.Rest(), m;
      var f;
      f, ok := NextKey(p);
      if !ok { return; }
      MemberStep(field, s, acc, f, p.Rest());
      m, ok := DecodeSampleField(p, rt, f, m);
      if !ok { return; }
      BehindStep(field, p.Rest(), m);
      var step := p.Separator('}');
      if step != More { return m, step == Done; }
    }
  }

  /** Room for `count` samples is made behind the bracket. */
  method DecodeSamples(p: FastJSONParser, rt: Runtime, count: int) returns (ms: seq<Sample>, ending: Ending)
    requires p.Valid()
    modifies p
    ensures p.Valid() && p.pos >= old(p.pos) && (ending == Good ==> p.pos > old(p.pos))
    ensures ParseSamples(rt, count, old(p.Rest())) == Judged(ending, ms, p.Rest())
  {
    ms, ending := [], Bad;
    var ok, empty := Enter(p, '[', ']');
    if !ok { return; }
    if count < 0 || count > rt.maxCount { return [], Panicked; }
    if empty { return [], Good; }
    ghost var total := ItemLoop(ParseSample(rt), p.Rest(), ms);
    while true
      invariant p.Valid() && p.pos > old(p.pos)
      invariant ItemLoop(ParseSample(rt), p.Rest(), ms) == total
      decreases |p.data| - p.pos
    {
      ghost var s := p.Rest();
      var m;
      m, ok := DecodeSample(p, rt);
      if !ok { return ms, Bad; }
      ItemStep(ParseSample(rt), s, ms);
      ms := ms + [m];
      var step := p.Separator(']');
      if step != More { return ms, Graded(step == Done); }
    }
  }

  // ----- histories -----

  method DecodeHistField(p: FastJSONParser, rt: Runtime, f: Field, h0: Hist) returns (h: Hist, ending: Ending)
    requires p.Valid()
    modifies p
    ensures p.Valid() && p.pos >= old(p.pos) && (ending == Good ==> p.pos > old(p.pos))
    ensures HistField(rt, f, old(p.Rest()), h0) == Judged(ending, h, p.Rest())
  {
    hide ParseString, ParseInt, ParseUint, ParseBool, ParseTime, ParseArray, ParseObject, SkipValue, Skipped;
    hide ParseSamples;
    h := h0;
    match f
    case Capacity => var v, good := p.ParseInteger(); h, ending := h.(capacity := v), Graded(good);
    case Count => var v, good := p.ParseInteger(); h, ending := h.(count := v), Graded(good);
    case Start => var v, good := p.ParseInteger(); h, ending := h.(start := v), Graded(good);
    case Samples => var v, end := DecodeSamples(p, rt, h.count); h, ending := h.(samples := v), end;
    case _ => var good := SkipMember(p, h0); ending := Graded(good);
  }

  method DecodeHist(p: FastJSONParser, rt: Runtime, h0: Hist) returns (h: Hist, ending: Ending)
    requires p.Valid()
    modifies p
    ensures p.Valid() && p.pos >= old(p.pos) && (ending == Good ==> p.pos > old(p.pos))
    ensures ParseObject(HistSwitch(rt), old(p.Rest()), h0) == Judged(ending, h, p.Rest())
  {
    hide FieldOf, SampleField, HistField, LatestField, RecordField, SnapshotField;
    h := h0;
    ghost var field := HistSwitch(rt);
    var ok, empty := Enter(p, '{', '}');
    ending := Graded(ok);
    if !ok || empty { return; }
    ghost var total := MemberLoop(field, p.Rest(), h);
    while true
      invariant p.Valid() && p.pos > old(p.pos)
      invariant MemberLoop(field, p.Rest(), h) == total
      decreases |p.data| - p.pos
    {
      ghost var s, acc := p.Rest(), h;
      var f;
      f, ok := NextKey(p);
      if !ok { ending := Bad; return; }
      MemberStep(field, s, acc, f, p.Rest());
      h, ending := DecodeHistField(p, rt, f, h);
      if ending != Good { return; }
      BehindStep(field, p.Rest(), h);
      var step := p.Separator('}');
      if step != More { return h, Graded(step == Done); }
    }
  }

  // ----- latest results -----

  method DecodeWarnings(p: FastJSONParser) returns (ws: seq<Bytes>, ok: bool)
    requires p.Valid()
    modifies p
    ensures p.Valid() && p.pos >= old(p.pos) && (ok ==> p.pos > old(p.pos))
    ensures ParseArray(ParseString, old(p.Rest())) == Outcome(ok, ws, p.Rest())
  {
    ws := [];
    var empty;
    ok, empty := Enter(p, '[', ']');
    if !ok || empty { return; }
    ghost var total := ItemLoop(ParseString, p.Rest(), ws);
    while true
      invariant p.Valid() && p.pos > old(p.pos)
      invariant ItemLoop(ParseString, p.Rest(), ws) == total
      decreases |p.data| - p.pos
    {
      ghost var s := p.Rest();
      var w;
      w, ok := p.ParseStringBytes();
      if !ok { return; }
      ItemStep(ParseString, s, ws);
      ws := ws + [w];
      var step := p.Separator(']');
      if step != More { return ws, step == Done; }
    }
  }

  method DecodeLatestField(p: FastJSONParser, rt: Runtime, f: Field, l0: Result) returns (l: Result, ok: bool)
    requires p.Valid()
    modifies p
    ensures p.Valid() && p.pos >= old(p.pos) && (ok ==> p.pos > old(p.pos))
    ensures LatestField(rt, f, old(p.Rest()), l0) == Outcome(ok, l, p.Rest())
  {
    hide ParseString, ParseInt, ParseUint, ParseBool, ParseTime, ParseArray, ParseObject, SkipValue, Skipped;
    hide ParseSamples;
    l := l0;
    match f
    case Link => var v, good := p.ParseStringBytes(); l, ok := l.(link := v), good;
    case Status => var v, good := p.ParseStringBytes(); l, ok := l.(status := v), good;
    case Reason => var v, good := p.ParseStringBytes(); l, ok := l.(reason := v), good;
    case Category => var v, good := p.ParseStringBytes(); l, ok := l.(category := v), good;
    case StatusCode => var v, good := p.ParseInteger(); l, ok := l.(statusCode := v), good;
    case Latency => var v, good := p.ParseInteger(); l, ok := l.(latency := v), good;
    case TestedAt => var v, good := DecodeTime(p, rt); l, ok := l.(testedAt := v), good;
    case Attempts => var v, good := p.ParseInteger(); l, ok := l.(attempts := v), good;
    case TransportOk => var v, good := p.ParseBoolean(); l, ok := l.(transportOK := v), good;
    case TransportLatency => var v, good := p.ParseInteger(); l, ok := l.(transportLatency := v), good;
    case TransportEvidenceKnown => var v, good := p.ParseBoolean(); l, ok := l.(transportEvidenceKnown := v), good;
    case Jitter => var v, good := p.ParseInteger(); l, ok := l.(jitter := v), good;
    case Warnings => var v, good := DecodeWarnings(p); l, ok := l.(warnings := v), good;
    case _ => ok := SkipMember(p, l0);
  }

  method DecodeLatest(p: FastJSONParser, rt: Runtime, l0: Result) returns (l: Result, ok: bool)
    requires p.Valid()
    modifies p
    ensures p.Valid() && p.pos >= old(p.pos) && (ok ==> p.pos > old(p.pos))
    ensures ParseObject(LatestSwitch(rt), old(p.Rest()), l0) == Outcome(ok, l, p.Rest())
  {
    hide FieldOf, SampleField, HistField, LatestField, RecordField, SnapshotField;
    l := l0;
    ghost var field := LatestSwitch(rt);
    var empty;
    ok, empty := Enter(p, '{', '}');
    if !ok || empty { return; }
    ghost var total := MemberLoop(field, p.Rest(), l);
    while true
      invariant p.Valid() && p.pos > old(p.pos)
      invariant MemberLoop(field, p.Rest(), l) == total
      decreases |p.data| - p.pos
    {
      ghost var s, acc := p.Rest(), l;
      var f;
      f, ok := NextKey(p);
      if !ok { return; }
      MemberStep(field, s, acc, f, p.Rest());
      l, ok := DecodeLatestField(p, rt, f, l);
      if !ok { return; }
      BehindStep(field, p.Rest(), l);
      var step := p.Separator('}');
      if step != More { return l, step == Done; }
    }
  }

  // ----- records -----

  method DecodeRecordField(p: FastJSONParser, rt: Runtime, f: Field, r0: Record) returns (r: Record, ending: Ending)
    requires p.Valid()
    modifies p
    ensures p.Valid() && p.pos >= old(p.pos) && (ending == Good ==> p.pos > old(p.pos))
    ensures RecordField(rt, f, old(p.Rest()), r0) == Judged(ending, r, p.Rest())
  {
    hide ParseString, ParseInt, ParseUint, ParseBool, ParseTime, ParseArray, ParseObject, SkipValue, Skipped;
    hide ParseSamples;
    hide SampleField, HistField, LatestField, SnapshotField, FieldOf, ParseSample, ParseRecord;
    hide LatestSwitch, HistSwitch;
    r := r0;
    match f
    case CanonicalLink => var v, good := p.ParseStringBytes(); r, ending := r.(canonicalLink := v), Graded(good);
    case ActiveLink => var v, good := p.ParseStringBytes(); r, ending := r.(activeLink := v), Graded(good);
    case AbsentCycles => var v, good := p.ParseInteger(); r, ending := r.(absentCycles := v), Graded(good);
    case Latest => var v, good := DecodeLatest(p, rt, r.latest); r, ending := r.(latest := v), Graded(good);
    case History => var v, end := DecodeHist(p, rt, r.history); r, ending := r.(history := v), end;
    case _ => var good := SkipMember(p, r0); ending := Graded(good);
  }

  method DecodeRecord(p: FastJSONParser, rt: Runtime) returns (r: Record, ending: Ending)
    requires p.Valid()
    modifies p
    ensures p.Valid() && p.pos >= old(p.pos) && (ending == Good ==> p.pos > old(p.pos))
    ensures ParseRecord(rt)(old(p.Rest())) == Judged(ending, r, p.Rest())
  {
    hide FieldOf, SampleField, HistField, LatestField, RecordField, SnapshotField;
    r := NO_RECORD;
    ghost var field := RecordSwitch(rt);
    var ok, empty := Enter(p, '{', '}');
    ending := Graded(ok);
    if !ok || empty { return; }
    ghost var total := MemberLoop(field, p.Rest(), r);
    while true
      invariant p.Valid() && p.pos > old(p.pos)
      invariant MemberLoop(field, p.Rest(), r) == total
      decreases |p.data| - p.pos
    {
      ghost var s, acc := p.Rest(), r;
      var f;
      f, ok := NextKey(p);
      if !ok { ending := Bad; return; }
      MemberStep(field, s, acc, f, p.Rest());
      r, ending := DecodeRecordField(p, rt, f, r);
      if ending != Good { return; }
      BehindStep(field, p.Rest(), r);
      var step := p.Separator('}');
      if step != More { return r, Graded(step == Done); }
    }
  }

  method DecodeRecords(p: FastJSONParser, rt: Runtime) returns (rs: seq<Record>, ending: Ending)
    requires p.Valid()
    modifies p
    ensures p.Valid() && p.pos >= old(p.pos) && (ending == Good ==> p.pos > old(p.pos))
    ensures ParseArray(ParseRecord(rt), old(p.Rest())) == Judged(ending, rs, p.Rest())
  {
    rs := [];
    var ok, empty := Enter(p, '[', ']');
    ending := Graded(ok);
    if !ok || empty { return; }
    ghost var total := ItemLoop(ParseRecord(rt), p.Rest(), rs);
    while true
      invariant p.Valid() && p.pos > old(p.pos)
      invariant ItemLoop(ParseRecord(rt), p.Rest(), rs) == total
      decreases |p.data| - p.pos
    {
      ghost var s := p.Rest();
      var r;
      r, ending := DecodeRecord(p, rt);
      if ending != Good { return; }
      ItemStep(ParseRecord(rt), s, rs);
      rs := rs + [r];
      var step := p.Separator(']');
      if step != More { return rs, Graded(step == Done); }
    }
  }

  // ----- the snapshot -----

  method DecodeSnapshotField(p: FastJSONParser, rt: Runtime, f: Field, d0: Decoding)
    returns (d: Decoding, ending: Ending)
    requires p.Valid()
    modifies p
    ensures p.Valid() && p.pos >= old(p.pos) && (ending == Good ==> p.pos > old(p.pos))
    ensures SnapshotField(rt, f, old(p.Rest()), d0) == Judged(ending, d, p.Rest())
  {
    hide ParseString, ParseInt, ParseUint, ParseBool, ParseTime, ParseArray, ParseObject, SkipValue, Skipped;
    hide ParseSamples;
    hide SampleField, HistField, LatestField, RecordField, FieldOf, ParseRecord, ParseSample;
    d := d0;
    match f
    case Version => var v, good := p.ParseInteger(); d, ending := d.(version := v), Graded(good);
    case LastCycle => var v, good := DecodeTime(p, rt); d, ending := d.(lastCycle := v), Graded(good);
    case CycleCount => var v, good := p.ParseInteger(); d, ending := d.(cycleCount := v), Graded(good);
    case Records => var v, end := DecodeRecords(p, rt); d, ending := d.(records := v, hasRecords := true), end;
    case _ => var good := SkipMember(p, d0); ending := Graded(good);
  }

  method DecodeRoot(p: FastJSONParser, rt: Runtime) returns (d: Decoding, ending: Ending)
    requires p.Valid()
    modifies p
    ensures p.Valid() && p.pos >= old(p.pos)
    ensures ParseObject(SnapshotSwitch(rt), old(p.Rest()), NOTHING_DECODED) == Judged(ending, d, p.Rest())
  {
    hide FieldOf, SampleField, HistField, LatestField, RecordField, SnapshotField;
    d := NOTHING_DECODED;
    ghost var field := SnapshotSwitch(rt);
    var ok, empty := Enter(p, '{', '}');
    ending := Graded(ok);
    if !ok || empty { return; }
    ghost var total := MemberLoop(field, p.Rest(), d);
    while true
      invariant p.Valid() && p.pos > old(p.pos)
      invariant MemberLoop(field, p.Rest(), d) == total
      decreases |p.data| - p.pos
    {
      ghost var s, acc := p.Rest(), d;
      var f;
      f, ok := NextKey(p);
      if !ok { ending := Bad; return; }
      MemberStep(field, s, acc, f, p.Rest());
      d, ending := DecodeSnapshotField(p, rt, f, d);
      if ending != Good { return; }
      BehindStep(field, p.Rest(), d);
      var step := p.Separator('}');
      if step != More { return d, Graded(step == Done); }
    }
  }

  function Ended(d: Decoding, atEnd: bool): Decoded {
    if atEnd then Read(Snapshot(d.version, d.lastCycle, d.cycleCount, Present(d.records))) else Rejected
  }

  lemma FinishedAs(ending: Ending, d: Decoding, rest: Bytes)
    ensures Finished(Judged(ending, d, rest)) ==
            if ending == Panicked then Panics
            else if ending == Bad || !d.hasRecords then Rejected
            else Ended(d, SkipWs(rest) == "")
  {
  }

  /** fastDecodeSnapshot. */
  method FastDecodeSnapshot(rt: Runtime, data: Bytes) returns (snap: Decoded)
    ensures snap == FastDecode(rt, data)
  {
    hide ParseObject, Finished, Ended, Judged, SkipWs;
    var p := new FastJSONParser(data);
    var d, ending := DecodeRoot(p, rt);
    assert FastDecode(rt, data) == Finished(Judged(ending, d, p.Rest()));
    FinishedAs(ending, d, p.Rest());
    if ending == Panicked { return Panics; }
    if ending == Bad || !d.hasRecords { return Rejected; }
    p.SkipWhitespace();
    snap := Ended(d, p.pos == |data|);
  }
}
