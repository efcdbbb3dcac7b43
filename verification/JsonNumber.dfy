/** Integers and booleans of the snapshot codec: strconv.AppendInt and AppendUint on one side,
    parseInt, parseUint and parseBool on the other. */
module JsonNumber {
  import opened Base
  import opened JsonText

  const MIN_INT64: int := -0x8000_0000_0000_0000
  const MAX_INT64: int := 0x7FFF_FFFF_FFFF_FFFF
  const MAX_UINT64: int := 0xFFFF_FFFF_FFFF_FFFF

  predicate IsInt64(n: int) { MIN_INT64 <= n <= MAX_INT64 }

  predicate IsDigit(c: char) { '0' <= c <= '9' }

  predicate AllDigits(s: Bytes) {
    s == "" || (IsDigit(s[0]) && AllDigits(s[1..]))
  }

  /** What may stand behind a number. */
  predicate IsDelimiter(c: char) {
    c == ',' || c == '}' || c == ']' || IsWs(c)
  }

  predicate AtDelimiter(s: Bytes) {
    s == "" || IsDelimiter(s[0])
  }

  /** isIdentChar. */
  predicate IsIdentChar(c: char) {
    'a' <= c <= 'z' || 'A' <= c <= 'Z' || IsDigit(c) || c == '_'
  }

  // ----- printing -----

  function DigitChar(d: nat): (c: char)
    requires d < 10
    ensures IsDigit(c) && DigitVal(c) == d
  {
    ('0' as int + d) as char
  }

  function Decimal(n: nat): (s: Bytes)
    ensures s != "" && IsDigit(s[0])
  {
    if n < 10 then [DigitChar(n)] else Decimal(n / 10) + [DigitChar(n % 10)]
  }

  function IntText(n: int): Bytes {
    if n < 0 then "-" + Decimal(-n) else Decimal(n)
  }

  // ----- scanning -----

  /** How many digits a text starts with: the scanners' inner loop. */
  function CountDigits(s: Bytes): (n: nat)
    ensures n <= |s| && AllDigits(s[..n])
    ensures n < |s| ==> !IsDigit(s[n])
  {
    if s != "" && IsDigit(s[0]) then
      var n := 1 + CountDigits(s[1..]);
      assert s[..n][1..] == s[1..][..n - 1];
      n
    else 0
  }

  function DigitVal(c: char): nat
    requires IsDigit(c)
  {
    c as int - '0' as int
  }

  function NatOf(s: Bytes): nat
    requires forall i :: 0 <= i < |s| ==> IsDigit(s[i])
  {
    if s == "" then 0 else 10 * NatOf(s[..|s| - 1]) + DigitVal(s[|s| - 1])
  }

  lemma {:induction false} AllDigitsAt(s: Bytes)
    ensures AllDigits(s) <==> forall i :: 0 <= i < |s| ==> IsDigit(s[i])
  {
    if s != "" {
      AllDigitsAt(s[1..]);
      assert s == [s[0]] + s[1..];
    }
  }

  /** The digits of an integer part without a leading zero: their number, or None. */
  function IntegerPart(s: Bytes): (n: Option<nat>)
    ensures n.Some? ==> 1 <= n.value <= |s| && AllDigits(s[..n.value])
    ensures n.Some? && n.value < |s| ==> !IsDigit(s[n.value])
  {
    if s == "" then None
    else if s[0] == '0' then
      if |s| > 1 && IsDigit(s[1]) then None else Some(1)
    else if IsDigit(s[0]) then Some(CountDigits(s))
    else None
  }

  /** An integer part in front of a delimiter, and its value. */
  function Magnitude(s: Bytes): (r: Parsed<nat>)
    ensures r.Ok? ==> |r.rest| < |s|
  {
    var n := IntegerPart(s);
    if n.None? || !AtDelimiter(s[n.value..]) then Fail
    else
      AllDigitsAt(s[..n.value]);
      Ok(NatOf(s[..n.value]), s[n.value..])
  }

  /** parseUint. */
  function ParseUint(s: Bytes): (r: Parsed<nat>)
    ensures r.Ok? ==> |r.rest| < |s| && r.value <= MAX_UINT64
  {
    var (v, t) :- Magnitude(SkipWs(s));
    if v <= MAX_UINT64 then Ok(v, t) else Fail
  }

  /** parseInt. */
  function ParseInt(s: Bytes): (r: Parsed<int>)
    ensures r.Ok? ==> |r.rest| < |s| && IsInt64(r.value)
  {
    var t := SkipWs(s);
    var negative := StartsWith(t, '-');
    var (n, u) :- Magnitude(if negative then t[1..] else t);
    var v: int := if negative then 0 - n else n;
    if IsInt64(v) then Ok(v, u) else Fail
  }

  /** The literal at the front of a text, not continued by an identifier character. */
  function Literal(word: Bytes, s: Bytes): (r: Parsed<()>)
    ensures r.Ok? ==> |r.rest| == |s| - |word|
  {
    if |word| <= |s| && s[..|word|] == word && (s[|word|..] == "" || !IsIdentChar(s[|word|..][0]))
    then Ok((), s[|word|..])
    else Fail
  }

  /** parseBool. */
  function ParseBool(s: Bytes): (r: Parsed<bool>)
    ensures r.Ok? ==> |r.rest| < |s|
  {
    var t := SkipWs(s);
    var yes := Literal("true", t);
    var no := Literal("false", t);
    if yes.Ok? then Ok(true, yes.rest)
    else if no.Ok? then Ok(false, no.rest)
    else Fail
  }

  // ----- round trips -----

  lemma {:induction false} DecimalReads(n: nat)
    ensures forall i :: 0 <= i < |Decimal(n)| ==> IsDigit(Decimal(n)[i])
    ensures NatOf(Decimal(n)) == n
    ensures Decimal(n)[0] == '0' ==> |Decimal(n)| == 1
  {
    if n >= 10 {
      DecimalReads(n / 10);
      var s := Decimal(n);
      assert s[..|s| - 1] == Decimal(n / 10);
      if n / 10 < 10 {
        assert Decimal(n / 10) == [DigitChar(n / 10)];
      }
    } else {
      assert Decimal(n)[..0] == "";
    }
  }

  lemma {:induction false} CountDigitsOf(s: Bytes, rest: Bytes)
    requires AllDigits(s) && (rest == "" || !IsDigit(rest[0]))
    ensures CountDigits(s + rest) == |s|
  {
    if s == "" {
      assert s + rest == rest;
    } else {
      assert (s + rest)[1..] == s[1..] + rest;
      CountDigitsOf(s[1..], rest);
    }
  }

  /** The digits of a number in front of a delimiter are found and read. */
  lemma DecimalScanned(n: nat, rest: Bytes)
    requires AtDelimiter(rest)
    ensures var u := Decimal(n) + rest; IsDigit(u[0]) && Magnitude(u) == Ok(n, rest)
  {
    DecimalReads(n);
    AllDigitsAt(Decimal(n));
    CountDigitsOf(Decimal(n), rest);
    var u := Decimal(n) + rest;
    assert u[0] == Decimal(n)[0];
    assert IntegerPart(u) == Some(|Decimal(n)|);
    assert u[..|Decimal(n)|] == Decimal(n) && u[|Decimal(n)|..] == rest;
  }

  lemma UintRoundTrip(n: nat, rest: Bytes)
    requires n <= MAX_UINT64 && AtDelimiter(rest)
    ensures ParseUint(Decimal(n) + rest) == Ok(n, rest)
  {
    DecimalScanned(n, rest);
  }

  lemma SignedScanned(negative: bool, u: Bytes)
    requires u != "" && IsDigit(u[0])
    ensures var s := if negative then "-" + u else u;
            SkipWs(s) == s && StartsWith(s, '-') == negative && (negative ==> s[1..] == u)
  {
  }

  lemma IntRoundTrip(n: int, rest: Bytes)
    requires IsInt64(n) && AtDelimiter(rest)
    ensures ParseInt(IntText(n) + rest) == Ok(n, rest)
  {
    var m: nat := if n < 0 then -n else n;
    DecimalScanned(m, rest);
    SignedScanned(n < 0, Decimal(m) + rest);
    Assoc("-", Decimal(m), rest);
  }

  lemma TrueRoundTrip(rest: Bytes)
    requires AtDelimiter(rest)
    ensures ParseBool("true" + rest) == Ok(true, rest)
  {
    var s := "true" + rest;
    assert SkipWs(s) == s;
    assert s[..4] == "true" && s[4..] == rest;
  }
}
