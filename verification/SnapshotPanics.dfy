/** When decoding panics. A slice for samples is made with the count that was read before it, so what
    decides is which lists of samples the loops arrive at, and with which count. */
module SnapshotPanics {
  import opened Base
  import opened JsonText
  import opened JsonNumber
  import opened JsonGrammar
  import opened Types
  import opened SnapshotCodec

  // ----- arriving at a member or an element -----

  /** A comma with another part behind it. */
  predicate MoreAt(close: char, s: Bytes) {
    var t := SkipWs(s);
    !StartsWith(t, close) && StartsWith(t, ',') && !StartsWith(SkipWs(t[1..]), close)
  }

  function Next(s: Bytes): (r: Bytes)
    requires SkipWs(s) != ""
    ensures |r| < |s|
  {
    SkipWs(SkipWs(s)[1..])
  }

  /** The name of a member and its colon are there. */
  predicate Named(s: Bytes) {
    ParseString(s).Ok? && Consume(':', ParseString(s).rest).Ok?
  }

  function NameAt(s: Bytes): Field
    requires Named(s)
  {
    FieldOf(ParseString(s).value)
  }

  function ValueAt(s: Bytes): (r: Bytes)
    requires Named(s)
    ensures |r| < |s|
  {
    Consume(':', ParseString(s).rest).rest
  }

  /** The member loop arrives at the value `u` of a member `f`, with `acc'` read so far. */
  ghost predicate Reaches<T(!new)>(field: (Field, Bytes, T) -> Parsed<T>, s: Bytes, acc: T, f: Field, u: Bytes, acc': T)
    requires Shrinks(field)
    decreases |s|
  {
    Named(s) &&
    var r := field(NameAt(s), ValueAt(s), acc);
    || (NameAt(s) == f && ValueAt(s) == u && acc == acc')
    || (r.Ok? && MoreAt('}', r.rest) && Reaches(field, Next(r.rest), r.value, f, u, acc'))
  }

  ghost predicate ObjectReaches<T(!new)>(field: (Field, Bytes, T) -> Parsed<T>, s: Bytes, acc: T, f: Field, u: Bytes,
                                         acc': T)
    requires Shrinks(field)
  {
    Consume('{', s).Ok? &&
    var t := SkipWs(Consume('{', s).rest);
    !StartsWith(t, '}') && Reaches(field, t, acc, f, u, acc')
  }

  /** The element loop arrives at the element `u`. */
  ghost predicate ItemReaches<T>(item: Bytes -> Parsed<T>, s: Bytes, u: Bytes)
    requires ItemShrinks(item)
    decreases |s|
  {
    || s == u
    || (item(s).Ok? && MoreAt(']', item(s).rest) && ItemReaches(item, Next(item(s).rest), u))
  }

  ghost predicate ArrayReaches<T>(item: Bytes -> Parsed<T>, s: Bytes, u: Bytes)
    requires ItemShrinks(item)
  {
    Consume('[', s).Ok? &&
    var t := SkipWs(Consume('[', s).rest);
    !StartsWith(t, ']') && ItemReaches(item, t, u)
  }

  // ----- a loop panics where a part of it does -----

  lemma {:induction false} LoopPanics<T(!new)>(field: (Field, Bytes, T) -> Parsed<T>, s: Bytes, acc: T)
    requires Shrinks(field)
    ensures MemberLoop(field, s, acc).Panic? <==>
            exists f, u, acc' :: Reaches(field, s, acc, f, u, acc') && field(f, u, acc').Panic?
    decreases |s|
  {
    hide FieldOf, SkipWs, ParseString, Consume;
    TokensNeverPanic(s);
    if Named(s) {
      var r := field(NameAt(s), ValueAt(s), acc);
      if r.Panic? {
        assert Reaches(field, s, acc, NameAt(s), ValueAt(s), acc);
      } else if r.Ok? && MoreAt('}', r.rest) {
        LoopPanics(field, Next(r.rest), r.value);
        assert MemberLoop(field, s, acc) == BehindMember(field, r.rest, r.value)
                                         == MemberLoop(field, Next(r.rest), r.value);
        if MemberLoop(field, s, acc).Panic? {
          var f, u, acc' :| Reaches(field, Next(r.rest), r.value, f, u, acc') && field(f, u, acc').Panic?;
          assert Reaches(field, s, acc, f, u, acc');
        }
      }
    }
  }

  lemma TokensNeverPanic(s: Bytes)
    ensures !ParseString(s).Panic? && forall c :: !Consume(c, s).Panic?
    ensures ParseString(s).Ok? ==> forall c :: !Consume(c, ParseString(s).rest).Panic?
  {
    hide ScanBody, Unescape, SkipWs;
  }

  lemma ObjectPanics<T(!new)>(field: (Field, Bytes, T) -> Parsed<T>, s: Bytes, acc: T)
    requires Shrinks(field)
    ensures ParseObject(field, s, acc).Panic? <==>
            exists f, u, acc' :: ObjectReaches(field, s, acc, f, u, acc') && field(f, u, acc').Panic?
  {
    hide MemberLoop, Reaches, SkipWs;
    if Consume('{', s).Ok? && !StartsWith(SkipWs(Consume('{', s).rest), '}') {
      LoopPanics(field, SkipWs(Consume('{', s).rest), acc);
      if ParseObject(field, s, acc).Panic? {
        var f, u, acc' :| Reaches(field, SkipWs(Consume('{', s).rest), acc, f, u, acc') && field(f, u, acc').Panic?;
        assert ObjectReaches(field, s, acc, f, u, acc');
      }
    }
  }

  lemma {:induction false} ItemsPanic<T>(item: Bytes -> Parsed<T>, s: Bytes, acc: seq<T>)
    requires ItemShrinks(item)
    ensures ItemLoop(item, s, acc).Panic? <==> exists u :: ItemReaches(item, s, u) && item(u).Panic?
    decreases |s|
  {
    hide SkipWs;
    if item(s).Panic? {
      assert ItemReaches(item, s, s);
    } else if item(s).Ok? && MoreAt(']', item(s).rest) {
      ItemsPanic(item, Next(item(s).rest), acc + [item(s).value]);
      assert ItemLoop(item, s, acc) == BehindItem(item, item(s).rest, acc + [item(s).value])
                                    == ItemLoop(item, Next(item(s).rest), acc + [item(s).value]);
      if ItemLoop(item, s, acc).Panic? {
        var u :| ItemReaches(item, Next(item(s).rest), u) && item(u).Panic?;
        assert ItemReaches(item, s, u);
      }
    }
  }

  lemma ArrayPanics<T>(item: Bytes -> Parsed<T>, s: Bytes)
    requires ItemShrinks(item)
    ensures ParseArray(item, s).Panic? <==> exists u :: ArrayReaches(item, s, u) && item(u).Panic?
  {
    hide ItemLoop, ItemReaches, SkipWs;
    if Consume('[', s).Ok? && !StartsWith(SkipWs(Consume('[', s).rest), ']') {
      ItemsPanic(item, SkipWs(Consume('[', s).rest), []);
      if ParseArray(item, s).Panic? {
        var u :| ItemReaches(item, SkipWs(Consume('[', s).rest), u) && item(u).Panic?;
        assert ArrayReaches(item, s, u);
      }
    }
  }

  // ----- the levels of a snapshot -----

  lemma OtherTokensNeverPanic(rt: Runtime, s: Bytes)
    ensures !ParseInt(s).Panic? && !ParseUint(s).Panic? && !ParseBool(s).Panic? && !ParseTime(rt, s).Panic?
  {
    hide ParseString, SkipWs;
    TokensNeverPanic(s);
  }

  lemma SkippingNeverPanics<T>(s: Bytes, acc: T)
    ensures !Skipped(s, acc).Panic?
  {
    hide SkipValue;
  }

  lemma WarningsNeverPanic(s: Bytes)
    ensures !ParseArray(ParseString, s).Panic?
  {
    hide ParseArray, ParseString;
    ArrayPanics(ParseString, s);
    forall u ensures !ParseString(u).Panic? {
      TokensNeverPanic(u);
    }
  }

  lemma FieldsNeverPanic(rt: Runtime, f: Field, s: Bytes, m: Sample, l: Result)
    ensures !SampleField(rt, f, s, m).Panic?
    ensures !LatestField(rt, f, s, l).Panic?
  {
    hide ParseString, ParseInt, ParseUint, ParseBool, ParseTime, ParseArray, Skipped;
    TokensNeverPanic(s);
    OtherTokensNeverPanic(rt, s);
    WarningsNeverPanic(s);
    SkippingNeverPanics(s, m);
    SkippingNeverPanics(s, l);
  }

  lemma SamplesPanic(rt: Runtime, count: int, s: Bytes)
    ensures ParseSamples(rt, count, s).Panic? <==> Consume('[', s).Ok? && !CanMake(rt, count)
  {
    hide Consume, CanMake, ParseArray, SampleField, ParseObject;
    TokensNeverPanic(s);
    ArrayPanics(ParseSample(rt), s);
    forall u ensures !ParseSample(rt)(u).Panic? {
      ObjectPanics(SampleSwitch(rt), u, NO_SAMPLE);
      forall f, v, m ensures !SampleSwitch(rt)(f, v, m).Panic? {
        FieldsNeverPanic(rt, f, v, m, NO_RESULT);
      }
    }
  }

  /** Decoding a history arrives at a list of samples when the count is this. */
  ghost predicate HistReaches(rt: Runtime, s: Bytes, h0: Hist, count: int) {
    exists u, h :: ObjectReaches(HistSwitch(rt), s, h0, Samples, u, h) && Consume('[', u).Ok? && h.count == count
  }

  ghost predicate RecordReaches(rt: Runtime, s: Bytes, count: int) {
    exists u, r :: ObjectReaches(RecordSwitch(rt), s, NO_RECORD, History, u, r) && HistReaches(rt, u, r.history, count)
  }

  /** Decoding this text arrives at a list of samples when the count of its history is this. */
  ghost predicate SamplesReached(rt: Runtime, data: Bytes, count: int) {
    exists u, d, v ::
      && ObjectReaches(SnapshotSwitch(rt), data, NOTHING_DECODED, Records, u, d)
      && ArrayReaches(ParseRecord(rt), u, v) && RecordReaches(rt, v, count)
  }

  lemma HistFieldPanics(rt: Runtime, f: Field, s: Bytes, h: Hist)
    ensures HistField(rt, f, s, h).Panic? <==> f == Samples && Consume('[', s).Ok? && !CanMake(rt, h.count)
  {
    hide ParseSamples, ParseInt, Skipped, Consume, CanMake;
    OtherTokensNeverPanic(rt, s);
    SkippingNeverPanics(s, h);
    SamplesPanic(rt, h.count, s);
  }

  lemma HistPanics(rt: Runtime, s: Bytes, h0: Hist)
    ensures ParseObject(HistSwitch(rt), s, h0).Panic? <==>
            exists count :: HistReaches(rt, s, h0, count) && !CanMake(rt, count)
  {
    hide ObjectReaches, HistField, CanMake, ParseObject, Consume;
    ObjectPanics(HistSwitch(rt), s, h0);
    forall f, u, h ensures HistSwitch(rt)(f, u, h).Panic? <==>
                           f == Samples && Consume('[', u).Ok? && !CanMake(rt, h.count) {
      HistFieldPanics(rt, f, u, h);
    }
    if ParseObject(HistSwitch(rt), s, h0).Panic? {
      var f, u, h :| ObjectReaches(HistSwitch(rt), s, h0, f, u, h) && HistSwitch(rt)(f, u, h).Panic?;
      assert HistReaches(rt, s, h0, h.count);
    }
    if count :| HistReaches(rt, s, h0, count) && !CanMake(rt, count) {
      var u, h :| ObjectReaches(HistSwitch(rt), s, h0, Samples, u, h) && Consume('[', u).Ok? && h.count == count;
      assert HistSwitch(rt)(Samples, u, h).Panic?;
    }
  }

  lemma LatestNeverPanics(rt: Runtime, s: Bytes, l: Result)
    ensures !ParseObject(LatestSwitch(rt), s, l).Panic?
  {
    hide ParseObject, LatestField;
    ObjectPanics(LatestSwitch(rt), s, l);
    forall f, u, l' ensures !LatestSwitch(rt)(f, u, l').Panic? {
      FieldsNeverPanic(rt, f, u, NO_SAMPLE, l');
    }
  }

  lemma RecordFieldPanics(rt: Runtime, f: Field, s: Bytes, r: Record)
    ensures RecordField(rt, f, s, r).Panic? <==>
            f == History && ParseObject(HistSwitch(rt), s, r.history).Panic?
  {
    hide ParseObject, ParseInt, ParseString, Skipped;
    OtherTokensNeverPanic(rt, s);
    TokensNeverPanic(s);
    SkippingNeverPanics(s, r);
    LatestNeverPanics(rt, s, r.latest);
  }

  lemma RecordPanics(rt: Runtime, s: Bytes)
    ensures ParseRecord(rt)(s).Panic? <==> exists count :: RecordReaches(rt, s, count) && !CanMake(rt, count)
  {
    hide ObjectReaches, RecordField, HistReaches, CanMake, ParseObject;
    ObjectPanics(RecordSwitch(rt), s, NO_RECORD);
    forall f, u, r ensures RecordSwitch(rt)(f, u, r).Panic? <==>
                           f == History && ParseObject(HistSwitch(rt), u, r.history).Panic? {
      RecordFieldPanics(rt, f, u, r);
    }
    if ParseRecord(rt)(s).Panic? {
      var f, u, r :| ObjectReaches(RecordSwitch(rt), s, NO_RECORD, f, u, r) && RecordSwitch(rt)(f, u, r).Panic?;
      HistPanics(rt, u, r.history);
      var count :| HistReaches(rt, u, r.history, count) && !CanMake(rt, count);
      assert RecordReaches(rt, s, count);
    }
    if count :| RecordReaches(rt, s, count) && !CanMake(rt, count) {
      var u, r :| ObjectReaches(RecordSwitch(rt), s, NO_RECORD, History, u, r) && HistReaches(rt, u, r.history, count);
      HistPanics(rt, u, r.history);
      assert RecordSwitch(rt)(History, u, r).Panic?;
    }
  }

  lemma SnapshotFieldPanics(rt: Runtime, f: Field, s: Bytes, d: Decoding)
    ensures SnapshotField(rt, f, s, d).Panic? <==> f == Records && ParseArray(ParseRecord(rt), s).Panic?
  {
    hide ParseArray, ParseInt, ParseTime, Skipped;
    OtherTokensNeverPanic(rt, s);
    SkippingNeverPanics(s, d);
  }

  /** Decoding a text panics exactly when it arrives at a list of samples for which no slice can be made
      with the count read so far. */
  lemma DecodePanicsExactly(rt: Runtime, data: Bytes)
    ensures FastDecode(rt, data).Panics? <==> exists count :: SamplesReached(rt, data, count) && !CanMake(rt, count)
  {
    hide ObjectReaches, ArrayReaches, SnapshotField, RecordReaches, CanMake, ParseObject, ParseArray, ParseRecord;
    ObjectPanics(SnapshotSwitch(rt), data, NOTHING_DECODED);
    forall f, u, d ensures SnapshotSwitch(rt)(f, u, d).Panic? <==>
                           f == Records && ParseArray(ParseRecord(rt), u).Panic? {
      SnapshotFieldPanics(rt, f, u, d);
    }
    if FastDecode(rt, data).Panics? {
      var f, u, d :| ObjectReaches(SnapshotSwitch(rt), data, NOTHING_DECODED, f, u, d)
                     && SnapshotSwitch(rt)(f, u, d).Panic?;
      ArrayPanics(ParseRecord(rt), u);
      var v :| ArrayReaches(ParseRecord(rt), u, v) && ParseRecord(rt)(v).Panic?;
      RecordPanics(rt, v);
      var count :| RecordReaches(rt, v, count) && !CanMake(rt, count);
      assert SamplesReached(rt, data, count);
    }
    if count :| SamplesReached(rt, data, count) && !CanMake(rt, count) {
      var u, d, v :|
        && ObjectReaches(SnapshotSwitch(rt), data, NOTHING_DECODED, Records, u, d)
        && ArrayReaches(ParseRecord(rt), u, v) && RecordReaches(rt, v, count);
      RecordPanics(rt, v);
      ArrayPanics(ParseRecord(rt), u);
      assert SnapshotSwitch(rt)(Records, u, d).Panic?;
    }
  }
}
