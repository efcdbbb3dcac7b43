/** The hand-written parser in the form of the source: an object that moves a position over the
    data. Each method is proved to do what the functions of the codec say about the text that is
    left. */
module FastParser {
  import opened Base
  import opened JsonText
  import opened JsonNumber
  import opened JsonGrammar
  import opened Types
  import opened SnapshotCodec
  import SnapshotRoundTrip

  /** The switch of appendJSONString over the bytes that need an escape. */
  method EscapeByte(c: char) returns (t: Bytes)
    requires !IsRaw(c)
    ensures t == RenderItem(ItemFor(c))
  {
    if c == '"' || c == '\\' { t := ['\\', c]; }
    else if c == 8 as char { t := "\\b"; }
    else if c == 12 as char { t := "\\f"; }
    else if c == '\n' { t := "\\n"; }
    else if c == '\r' { t := "\\r"; }
    else if c == '\t' { t := "\\t"; }
    else { t := ['\\', 'u', '0', '0', HexChar(c as int / 16), HexChar(c as int % 16)]; }
  }

  /** appendJSONString: runs of unescaped bytes are copied in one piece. */
  method AppendJSONString(dst: Bytes, s: Bytes) returns (out: Bytes)
    ensures out == dst + Quote(s)
  {
    out := dst + "\"";
    var start := 0;
    var i := 0;
    assert s[0..0] == "" && s[..0] == "";
    while i < |s|
      invariant start <= i <= |s|
      invariant forall k :: start <= k < i ==> IsRaw(s[k])
      invariant out == dst + "\"" + Escape(s[..start])
    {
      var c := s[i];
      if c == '"' || c == '\\' || c < ' ' {
        RawRun(s, start, i);
        EscapeNext(s, i);
        if i > start {
          Assoc(dst + "\"", Escape(s[..start]), s[start..i]);
          out := out + s[start..i];
        }
        var t := EscapeByte(c);
        Assoc(dst + "\"", Escape(s[..i]), t);
        out := out + t;
        start := i + 1;
      }
      i := i + 1;
    }
    RawRun(s, start, |s|);
    assert s[..|s|] == s;
    Assoc(dst + "\"", Escape(s[..start]), s[start..]);
    if start == 0 {
      assert s[0..] == s;
      out := out + s;
    } else if start < |s| {
      out := out + s[start..];
    }
    Assoc(dst, "\"", Escape(s));
    Assoc(dst, "\"" + Escape(s), "\"");
    Assoc("\"", Escape(s), "\"");
    out := out + "\"";
  }

  /** A run of unescaped bytes is its own text. */
  lemma RawRun(s: Bytes, start: nat, i: nat)
    requires start <= i <= |s| && forall k :: start <= k < i ==> IsRaw(s[k])
    ensures Escape(s[..i]) == Escape(s[..start]) + s[start..i]
    ensures start == i ==> Escape(s[..start]) + s[start..i] == Escape(s[..start])
  {
    assert s[..i] == s[..start] + s[start..i];
    EscapeConcat(s[..start], s[start..i]);
    SnapshotRoundTrip.RawEscape(s[start..i]);
  }

  lemma EscapeNext(s: Bytes, i: nat)
    requires i < |s|
    ensures Escape(s[..i+1]) == Escape(s[..i]) + RenderItem(ItemFor(s[i]))
  {
    assert s[..i+1] == s[..i] + [s[i]];
    EscapeConcat(s[..i], [s[i]]);
    assert RenderItem(ItemFor(s[i])) + "" == RenderItem(ItemFor(s[i]));
  }

  lemma {:induction false} EscapeConcat(a: Bytes, b: Bytes)
    ensures Escape(a + b) == Escape(a) + Escape(b)
  {
    if a == "" {
      assert a + b == b;
    } else {
      assert (a + b)[1..] == a[1..] + b;
      EscapeConcat(a[1..], b);
      Assoc(RenderItem(ItemFor(a[0])), Escape(a[1..]), Escape(b));
    }
  }

  lemma PrependTwice(a: Bytes, b: Bytes, r: Option<Bytes>)
    ensures Prepend(a, Prepend(b, r)) == Prepend(a + b, r)
  {
    if r.Some? {
      Assoc(a, b, r.value);
    }
  }

  /** unescapeJSON. */
  method UnescapeJSON(b: Bytes) returns (out: Bytes, ok: bool)
    ensures Unescape(b) == if ok then Some(out) else None
  {
    out := "";
    var i := 0;
    assert b[0..] == b;
    PrependNothing(Unescape(b));
    while i < |b|
      invariant i <= |b|
      invariant Unescape(b) == Prepend(out, Unescape(b[i..]))
    {
      var piece := [b[i]];
      var n := 1;
      if b[i] == '\\' {
        if i + 1 >= |b| { return "", false; }
        var c := b[i+1];
        n := 2;
        if IsEscape(c) {
          piece := [EscapeValue(c)];
        } else if c == 'u' {
          var h := Hex4(b[i+2..]);
          if h.None? { return "", false; }
          assert b[i..][2..] == b[i+2..] && b[i..][6..] == b[i+6..];
          n := 6;
          if IsSurrogate(h.value) {
            piece := Utf8(REPLACEMENT);
            var pair := SecondHalf(h.value, b[i+6..]);
            if pair.Some? {
              piece := Utf8(pair.value);
              n := 12;
            }
          } else {
            piece := Utf8(h.value);
          }
        } else {
          return "", false;
        }
      }
      assert b[i..][n..] == b[i+n..];
      PrependTwice(out, piece, Unescape(b[i+n..]));
      out := out + piece;
      i := i + n;
    }
    assert b[i..] == "" && out + "" == out;
    ok := true;
  }

  lemma PrependNothing(r: Option<Bytes>)
    ensures Prepend("", r) == r
  {
    if r.Some? {
      assert "" + r.value == r.value;
    }
  }

  /** What stands behind a member or an element. */
  datatype Step = Done | More | Refused

  function StepOf(close: char, s: Bytes): Step {
    var t := SkipWs(s);
    if StartsWith(t, close) then Done
    else if StartsWith(t, ',') && !StartsWith(SkipWs(t[1..]), close) then More
    else Refused
  }

  /** The result of a decoding step, as a parsed value of the codec. */
  function Outcome<T>(ok: bool, value: T, rest: Bytes): Parsed<T> {
    if ok then Ok(value, rest) else Fail
  }

  lemma Behind(data: Bytes, i: nat, n: nat)
    requires i + n <= |data|
    ensures data[i..][n..] == data[i+n..]
  {
  }

  /** A body that starts at `start`, one unit further. */
  lemma UnitStep(data: Bytes, start: nat, i: nat, n: nat, next: nat, total: Length)
    requires start <= i < |data| && data[i] != '"' && n == UnitLength(data[i..]) && next == i + n
    requires total == Plus(i - start, ScanBody(data[i..]))
    ensures data[i] != '\\' ==> n <= 1
    ensures total == if n == 0 then NoEnd else Plus(next - start, ScanBody(data[next..]))
  {
    Behind(data, i, n);
  }

  lemma {:induction false} UnescapePlain(b: Bytes)
    requires forall k :: 0 <= k < |b| ==> b[k] != '\\'
    ensures Unescape(b) == Some(b)
  {
    if b != "" {
      UnescapePlain(b[1..]);
      assert b == [b[0]] + b[1..];
    }
  }

  class FastJSONParser {
    const data: Bytes
    var pos: nat

    ghost predicate Valid()
      reads this
    {
      pos <= |data|
    }

    function Rest(): (s: Bytes)
      requires Valid()
      reads this
    {
      data[pos..]
    }

    constructor (data: Bytes)
      ensures this.data == data && Valid() && Rest() == data
    {
      this.data := data;
      pos := 0;
    }

    method SkipWhitespace()
      requires Valid()
      modifies this
      ensures Valid() && Rest() == SkipWs(old(Rest())) && pos >= old(pos)
    {
      while pos < |data| && IsWs(data[pos])
        invariant old(pos) <= pos <= |data|
        invariant SkipWs(Rest()) == SkipWs(old(Rest()))
      {
        assert Rest()[1..] == data[pos+1..];
        pos := pos + 1;
      }
    }

    method ConsumeByte(expected: char) returns (ok: bool)
      requires Valid()
      modifies this
      ensures Valid() && pos >= old(pos)
      ensures Consume(expected, old(Rest())) == Outcome(ok, (), Rest())
      ensures !ok ==> Rest() == SkipWs(old(Rest()))
      ensures ok ==> pos > old(pos)
    {
      SkipWhitespace();
      ok := pos < |data| && data[pos] == expected;
      if ok {
        assert Rest()[1..] == data[pos+1..];
        pos := pos + 1;
      }
    }

    /** The end of the enclosing object or array, a comma in front of another part, or neither. */
    method Separator(close: char) returns (step: Step)
      requires Valid()
      modifies this
      ensures Valid() && pos >= old(pos) && step == StepOf(close, old(Rest()))
      ensures step == Done ==> Rest() == SkipWs(old(Rest()))[1..]
      ensures step == More ==> Rest() == SkipWs(SkipWs(old(Rest()))[1..]) && pos > old(pos)
    {
      SkipWhitespace();
      SkipWsTwice(old(Rest()));
      var closed := ConsumeByte(close);
      if closed { return Done; }
      var comma := ConsumeByte(',');
      if !comma { return Refused; }
      SkipWhitespace();
      step := if pos < |data| && data[pos] == close then Refused else More;
    }

    method ParseStringBytes() returns (s: Bytes, ok: bool)
      requires Valid()
      modifies this
      ensures Valid() && pos >= old(pos) && (ok ==> pos > old(pos))
      ensures ParseString(old(Rest())) == Outcome(ok, s, Rest())
    {
      SkipWhitespace();
      if pos >= |data| || data[pos] != '"' { return "", false; }
      Behind(data, pos, 1);
      pos := pos + 1;
      s, ok := ParseBody();
    }

    /** Behind the opening quote. */
    method ParseBody() returns (s: Bytes, ok: bool)
      requires Valid()
      modifies this
      ensures Valid() && pos >= old(pos)
      ensures AfterQuote(old(Rest())) == Outcome(ok, s, Rest())
    {
      hide UnitLength, Hex4;
      var start := pos;
      var hasEscapes;
      hasEscapes, ok := ScanToQuote();
      if !ok { return "", false; }
      s := data[start..pos];
      Behind(data, start, pos - start + 1);
      assert data[start..][..pos - start] == s;
      pos := pos + 1;
      if hasEscapes {
        if '\\' !in s {
          UnescapePlain(s);
        }
        s, ok := UnescapeJSON(s);
      }
    }

    /** The length of the byte or escape at the position, 0 if it is refused. */
    method ScanUnit() returns (n: nat)
      requires Valid() && pos < |data|
      ensures n == UnitLength(Rest())
    {
      var b := data[pos];
      if b < ' ' { return 0; }
      if b != '\\' { return 1; }
      if pos + 1 >= |data| { return 0; }
      var esc := data[pos+1];
      if IsEscape(esc) { return 2; }
      Behind(data, pos, 2);
      n := if esc == 'u' && Hex4(data[pos+2..]).Some? then 6 else 0;
    }

    /** The loop of parseStringBytes: moves to the closing quote. */
    method ScanToQuote() returns (hasEscapes: bool, ok: bool)
      requires Valid()
      modifies this
      ensures Valid() && pos >= old(pos)
      ensures ScanBody(old(Rest())) == if ok then End(pos - old(pos)) else NoEnd
      ensures ok && !hasEscapes ==> forall k :: old(pos) <= k < pos ==> data[k] != '\\'
    {
      hasEscapes, ok := false, true;
      ghost var start, total := pos, ScanBody(Rest());
      while ok && pos < |data| && data[pos] != '"'
        invariant start <= pos <= |data|
        invariant total == if ok then Plus(pos - start, ScanBody(data[pos..])) else NoEnd
        invariant !hasEscapes ==> forall k :: start <= k < pos ==> data[k] != '\\'
        decreases ok, |data| - pos
      {
        var n := ScanUnit();
        var next := pos + n;
        UnitStep(data, start, pos, n, next, total);
        ok := n != 0;
        hasEscapes := hasEscapes || data[pos] == '\\';
        pos := next;
      }
      ok := ok && pos < |data|;
    }

    /** The loop over the digits of an integer part; the position stays put on failure. */
    method ScanInteger() returns (ok: bool)
      requires Valid()
      modifies this
      ensures Valid() && pos >= old(pos)
      ensures ok <==> IntegerPart(old(Rest())).Some?
      ensures ok ==> pos == old(pos) + IntegerPart(old(Rest())).value
    {
      if pos >= |data| { return false; }
      if data[pos] == '0' {
        if pos + 1 < |data| && IsDigit(data[pos+1]) { return false; }
        pos := pos + 1;
        return true;
      }
      if !IsDigit(data[pos]) { return false; }
      ScanDigits();
      ok := true;
    }

    method ScanDigits()
      requires Valid()
      modifies this
      ensures Valid() && pos == old(pos) + CountDigits(old(Rest()))
    {
      while pos < |data| && IsDigit(data[pos])
        invariant old(pos) <= pos <= |data|
        invariant CountDigits(old(Rest())) == pos - old(pos) + CountDigits(Rest())
      {
        assert Rest()[1..] == data[pos+1..];
        pos := pos + 1;
      }
    }

    /** The digits of an integer in front of a delimiter, and strconv's value of them. */
    method ScanMagnitude() returns (v: nat, ok: bool)
      requires Valid()
      modifies this
      ensures Valid() && pos >= old(pos) && (ok ==> pos > old(pos))
      ensures Magnitude(old(Rest())) == Outcome(ok, v, Rest())
    {
      v := 0;
      var start := pos;
      ok := ScanInteger();
      if !ok { return; }
      assert data[start..][pos - start..] == data[pos..] && data[start..][..pos - start] == data[start..pos];
      if pos < |data| && !IsDelimiter(data[pos]) { return 0, false; }
      AllDigitsAt(data[start..pos]);
      v := NatOf(data[start..pos]);
    }

    method ParseInteger() returns (v: int, ok: bool)
      requires Valid()
      modifies this
      ensures Valid() && pos >= old(pos) && (ok ==> pos > old(pos))
      ensures ParseInt(old(Rest())) == Outcome(ok, v, Rest())
    {
      SkipWhitespace();
      var negative := pos < |data| && data[pos] == '-';
      if negative {
        assert Rest()[1..] == data[pos+1..];
        pos := pos + 1;
      }
      ghost var t, u := SkipWs(old(Rest())), Rest();
      assert u == if StartsWith(t, '-') then t[1..] else t;
      v, ok := ScanMagnitude();
      assert Magnitude(u) == Outcome(ok, v, Rest());
      v := if negative then -v else v;
      ok := ok && IsInt64(v);
    }

    method ParseUnsigned() returns (v: nat, ok: bool)
      requires Valid()
      modifies this
      ensures Valid() && pos >= old(pos) && (ok ==> pos > old(pos))
      ensures ParseUint(old(Rest())) == Outcome(ok, v, Rest())
    {
      SkipWhitespace();
      v, ok := ScanMagnitude();
      ok := ok && v <= MAX_UINT64;
    }

    /** A word at the position that no identifier character continues. */
    method Word(word: Bytes) returns (ok: bool)
      requires Valid()
      modifies this
      ensures Valid() && pos >= old(pos)
      ensures Literal(word, old(Rest())) == Outcome(ok, (), Rest())
      ensures !ok ==> pos == old(pos)
    {
      var end := pos + |word|;
      ok := end <= |data| && data[pos..end] == word && !(end < |data| && IsIdentChar(data[end]));
      if end <= |data| {
        assert Rest()[..|word|] == data[pos..end] && Rest()[|word|..] == data[end..];
      }
      if ok {
        pos := end;
      }
    }

    method ParseBoolean() returns (v: bool, ok: bool)
      requires Valid()
      modifies this
      ensures Valid() && pos >= old(pos) && (ok ==> pos > old(pos))
      ensures ParseBool(old(Rest())) == Outcome(ok, v, Rest())
    {
      SkipWhitespace();
      ok := Word("true");
      if ok { return true, true; }
      ok := Word("false");
      v := false;
    }

    /** A run of at least one digit. */
    method SomeDigits() returns (ok: bool)
      requires Valid()
      modifies this
      ensures Valid() && pos >= old(pos)
      ensures Digits(old(Rest())) == if ok then Some(Rest()) else None
    {
      if pos >= |data| || !IsDigit(data[pos]) { return false; }
      ScanDigits();
      assert old(Rest())[pos - old(pos)..] == data[pos..];
      ok := true;
    }

    method ScanFraction() returns (ok: bool)
      requires Valid()
      modifies this
      ensures Valid() && pos >= old(pos)
      ensures SkipFrac(old(Rest())) == if ok then Some(Rest()) else None
    {
      if pos >= |data| || data[pos] != '.' { return true; }
      assert Rest()[1..] == data[pos+1..];
      pos := pos + 1;
      ok := SomeDigits();
    }

    method ScanExponent() returns (ok: bool)
      requires Valid()
      modifies this
      ensures Valid() && pos >= old(pos)
      ensures SkipExp(old(Rest())) == if ok then Some(Rest()) else None
    {
      if pos >= |data| || (data[pos] != 'e' && data[pos] != 'E') { return true; }
      assert Rest()[1..] == data[pos+1..];
      pos := pos + 1;
      if pos < |data| && (data[pos] == '+' || data[pos] == '-') {
        assert data[pos-1..][2..] == data[pos+1..];
        pos := pos + 1;
      }
      ok := SomeDigits();
    }

    /** parseNumber, behind the white space. */
    method ParseNumber() returns (ok: bool)
      requires Valid()
      modifies this
      ensures Valid() && pos >= old(pos)
      ensures SkipNumber(old(Rest())) == if ok then Some(Rest()) else None
    {
      if pos < |data| && data[pos] == '-' {
        Behind(data, pos, 1);
        pos := pos + 1;
      }
      ok := ScanUnsignedNumber();
    }

    method ScanUnsignedNumber() returns (ok: bool)
      requires Valid()
      modifies this
      ensures Valid() && pos >= old(pos)
      ensures SkipUnsigned(old(Rest())) == if ok then Some(Rest()) else None
    {
      ghost var u := Rest();
      ok := ScanInteger();
      if ok {
        Behind(data, old(pos), pos - old(pos));
        ghost var f := Rest();
        assert f == u[IntegerPart(u).value..];
        ok := ScanFraction();
        if ok {
          ghost var x := Rest();
          assert SkipFrac(f) == Some(x);
          ok := ScanExponent();
          ok := ok && (pos >= |data| || IsDelimiter(data[pos]));
        }
      }
    }

    method SkipAny() returns (ok: bool)
      requires Valid()
      modifies this
      ensures Valid() && pos >= old(pos) && (ok ==> pos > old(pos))
      ensures SkipValue(old(Rest())) == if ok then Some(Rest()) else None
      decreases |data| - pos, 1
    {
      SkipWhitespace();
      if pos >= |data| { return false; }
      SkipWsTwice(old(Rest()));
      var b := data[pos];
      if b == '"' {
        var _, good := ParseStringBytes();
        ok := good;
      } else if b == '{' {
        ok := SkipObject();
      } else if b == '[' {
        ok := SkipArray();
      } else if b == 't' || b == 'f' {
        var _, good := ParseBoolean();
        ok := good;
      } else if b == 'n' {
        ok := Word("null");
      } else if b == '-' || IsDigit(b) {
        ok := ParseNumber();
      } else {
        ok := false;
      }
    }

    method SkipObject() returns (ok: bool)
      requires Valid() && pos < |data| && data[pos] == '{'
      modifies this
      ensures Valid() && pos > old(pos)
      ensures SkipValue(old(Rest())) == if ok then Some(Rest()) else None
      decreases |data| - pos, 0
    {
      Behind(data, pos, 1);
      assert SkipWs(Rest()) == Rest();
      SkipWsTwice(data[pos+1..]);
      pos := pos + 1;
      ok := ConsumeByte('}');
      if !ok {
        ok := SkipMemberLoop();
      }
    }

    method SkipArray() returns (ok: bool)
      requires Valid() && pos < |data| && data[pos] == '['
      modifies this
      ensures Valid() && pos > old(pos)
      ensures SkipValue(old(Rest())) == if ok then Some(Rest()) else None
      decreases |data| - pos, 0
    {
      Behind(data, pos, 1);
      assert SkipWs(Rest()) == Rest();
      SkipWsTwice(data[pos+1..]);
      pos := pos + 1;
      ok := ConsumeByte(']');
      if !ok {
        ok := SkipElementLoop();
      }
    }

    method SkipMemberLoop() returns (ok: bool)
      requires Valid()
      modifies this
      ensures Valid() && pos >= old(pos)
      ensures SkipMembers(old(Rest())) == if ok then Some(Rest()) else None
      decreases |data| - pos, 2
    {
      while true
        invariant old(pos) <= pos <= |data|
        invariant SkipMembers(Rest()) == SkipMembers(old(Rest()))
        decreases |data| - pos
      {
        var _, good := ParseStringBytes();
        ok := good;
        if !ok { return; }
        ok := ConsumeByte(':');
        if !ok { return; }
        ok := SkipAny();
        if !ok { return; }
        var step := Separator('}');
        if step != More { return step == Done; }
      }
    }

    method SkipElementLoop() returns (ok: bool)
      requires Valid()
      modifies this
      ensures Valid() && pos >= old(pos)
      ensures SkipElements(old(Rest())) == if ok then Some(Rest()) else None
      decreases |data| - pos, 2
    {
      while true
        invariant old(pos) <= pos <= |data|
        invariant SkipElements(Rest()) == SkipElements(old(Rest()))
        decreases |data| - pos
      {
        ok := SkipAny();
        if !ok { return; }
        var step := Separator(']');
        if step != More { return step == Done; }
      }
    }
  }
}
