/** The tokens of the snapshot codec: what the hand-written printer emits for strings and
    integers, and what the hand-written scanner reads back. Each scanner is a function of the
    text that is left; the class in FastParser.dfy moves a position over the same text. */
module JsonText {
  import opened Base

  /** The outcome of one step: the value read and the text behind it, a refusal, or a run-time panic,
      which ends the program. */
  datatype Parsed<+T> = Fail | Panic | Ok(value: T, rest: Bytes) {
    predicate IsFailure() { !Ok? }
    function PropagateFailure<U>(): Parsed<U> requires !Ok? { Stopped(Panic?) }
    function Extract(): (T, Bytes) requires Ok? { (value, rest) }
  }

  function Stopped<T>(panics: bool): Parsed<T> {
    if panics then Panic else Fail
  }

  // ----- white space and single characters -----

  predicate IsWs(c: char) {
    c == ' ' || c == '\t' || c == '\r' || c == '\n'
  }

  predicate AllWs(s: Bytes) {
    s == "" || (IsWs(s[0]) && AllWs(s[1..]))
  }

  function SkipWs(s: Bytes): (r: Bytes)
    ensures |r| <= |s|
    ensures r != "" ==> !IsWs(r[0])
  {
    if s != "" && IsWs(s[0]) then SkipWs(s[1..]) else s
  }

  function Consume(c: char, s: Bytes): (r: Parsed<()>)
    ensures r.Ok? ==> |r.rest| < |s|
  {
    var t := SkipWs(s);
    if StartsWith(t, c) then Ok((), t[1..]) else Fail
  }

  lemma {:induction false} SkipWsOver(ws: Bytes, s: Bytes)
    requires AllWs(ws)
    ensures SkipWs(ws + s) == SkipWs(s)
  {
    if ws == "" {
      assert ws + s == s;
    } else {
      assert (ws + s)[1..] == ws[1..] + s;
      SkipWsOver(ws[1..], s);
    }
  }

  lemma FrontKept(c: char, rest: Bytes)
    requires !IsWs(c)
    ensures var s := [c] + rest; SkipWs(s) == s && StartsWith(s, c) && s[1..] == rest
  {
  }

  /** The white space that SkipWs drops. */
  lemma {:induction false} SkipWsSplit(s: Bytes) returns (ws: Bytes)
    ensures AllWs(ws) && s == ws + SkipWs(s)
  {
    if s != "" && IsWs(s[0]) {
      var tail := SkipWsSplit(s[1..]);
      ws := [s[0]] + tail;
      assert ws[1..] == tail;
      assert s == [s[0]] + s[1..];
    } else {
      ws := "";
    }
  }

  // ----- characters as code points -----

  predicate IsHexDigit(c: char) {
    '0' <= c <= '9' || 'a' <= c <= 'f' || 'A' <= c <= 'F'
  }

  function HexVal(c: char): (v: nat)
    requires IsHexDigit(c)
    ensures v < 16
  {
    if '0' <= c <= '9' then c as int - '0' as int
    else if 'a' <= c <= 'f' then c as int - 'a' as int + 10
    else c as int - 'A' as int + 10
  }

  function HexVal4(a: char, b: char, c: char, d: char): (v: nat)
    requires IsHexDigit(a) && IsHexDigit(b) && IsHexDigit(c) && IsHexDigit(d)
    ensures v < 0x10000
  {
    4096 * HexVal(a) + 256 * HexVal(b) + 16 * HexVal(c) + HexVal(d)
  }

  /** Four hexadecimal digits at the front of a text. */
  function Hex4(s: Bytes): Option<nat> {
    if |s| >= 4 && IsHexDigit(s[0]) && IsHexDigit(s[1]) && IsHexDigit(s[2]) && IsHexDigit(s[3])
    then Some(HexVal4(s[0], s[1], s[2], s[3]))
    else None
  }

  predicate IsSurrogate(r: nat) { 0xD800 <= r < 0xE000 }

  const REPLACEMENT: nat := 0xFFFD

  /** utf16.DecodeRune: the code point of a surrogate pair, or the replacement character. */
  function DecodeRune(r1: nat, r2: nat): (r: nat)
    ensures r == REPLACEMENT || 0x10000 <= r < 0x110000
  {
    if 0xD800 <= r1 < 0xDC00 && 0xDC00 <= r2 < 0xE000
    then (r1 - 0xD800) * 0x400 + (r2 - 0xDC00) + 0x10000
    else REPLACEMENT
  }

  /** utf8.AppendRune for a code point that is not a surrogate. */
  function Utf8(r: nat): (s: Bytes)
    requires r < 0x110000
    ensures 1 <= |s| <= 4
  {
    if r < 0x80 then [r as char]
    else if r < 0x800 then [(0xC0 + r / 0x40) as char, (0x80 + r % 0x40) as char]
    else if r < 0x10000 then
      [(0xE0 + r / 0x1000) as char, (0x80 + r / 0x40 % 0x40) as char, (0x80 + r % 0x40) as char]
    else
      [(0xF0 + r / 0x40000) as char, (0x80 + r / 0x1000 % 0x40) as char,
       (0x80 + r / 0x40 % 0x40) as char, (0x80 + r % 0x40) as char]
  }

  // ----- string bodies by RFC 8259, section 7 -----

  /** One `char` of the RFC grammar: an unescaped byte, a two-character escape or \uXXXX. */
  datatype Item = Raw(c: char) | Esc(c: char) | Hex(a: char, b: char, c: char, d: char)

  predicate IsRaw(c: char) {
    c >= ' ' && c != '"' && c != '\\'
  }

  predicate IsEscape(c: char) {
    c == '"' || c == '\\' || c == '/' || c == 'b' || c == 'f' || c == 'n' || c == 'r' || c == 't'
  }

  predicate ItemOk(x: Item) {
    match x
    case Raw(c) => IsRaw(c)
    case Esc(c) => IsEscape(c)
    case Hex(a, b, c, d) => IsHexDigit(a) && IsHexDigit(b) && IsHexDigit(c) && IsHexDigit(d)
  }

  predicate ItemsOk(items: seq<Item>) {
    forall i :: 0 <= i < |items| ==> ItemOk(items[i])
  }

  function RenderItem(x: Item): (s: Bytes)
    ensures 1 <= |s| <= 6
  {
    match x
    case Raw(c) => [c]
    case Esc(c) => ['\\', c]
    case Hex(a, b, c, d) => ['\\', 'u', a, b, c, d]
  }

  function RenderItems(items: seq<Item>): Bytes {
    if items == [] then "" else RenderItem(items[0]) + RenderItems(items[1..])
  }

  function EscapeValue(c: char): char {
    match c
    case 'b' => 8 as char
    case 'f' => 12 as char
    case 'n' => '\n'
    case 'r' => '\r'
    case 't' => '\t'
    case _ => c
  }

  /** What a string body means: escapes replaced, UTF-16 surrogate pairs joined, and every
      unpaired surrogate read as U+FFFD. */
  function Meaning(items: seq<Item>): Bytes
    requires ItemsOk(items)
  {
    if items == [] then ""
    else match items[0]
      case Raw(c) => [c] + Meaning(items[1..])
      case Esc(c) => [EscapeValue(c)] + Meaning(items[1..])
      case Hex(a, b, c, d) =>
        var r := HexVal4(a, b, c, d);
        if !IsSurrogate(r) then Utf8(r) + Meaning(items[1..])
        else if PairedWith(r, items[1..]) then
          Utf8(DecodeRune(r, HexOf(items[1]))) + Meaning(items[2..])
        else Utf8(REPLACEMENT) + Meaning(items[1..])
  }

  function HexOf(x: Item): nat
    requires x.Hex? && ItemOk(x)
  {
    HexVal4(x.a, x.b, x.c, x.d)
  }

  predicate PairedWith(r: nat, next: seq<Item>)
    requires ItemsOk(next)
  {
    next != [] && next[0].Hex? && DecodeRune(r, HexOf(next[0])) != REPLACEMENT
  }

  // ----- the printer of strings -----

  /** How the printer writes one byte. */
  function ItemFor(c: char): Item {
    if c == '"' || c == '\\' then Esc(c)
    else if c == 8 as char then Esc('b')
    else if c == 12 as char then Esc('f')
    else if c == '\n' then Esc('n')
    else if c == '\r' then Esc('r')
    else if c == '\t' then Esc('t')
    else if c < ' ' then Hex('0', '0', HexChar(c as int / 16), HexChar(c as int % 16))
    else Raw(c)
  }

  function HexChar(v: nat): (c: char)
    requires v < 16
    ensures IsHexDigit(c) && HexVal(c) == v
  {
    if v < 10 then ('0' as int + v) as char else ('a' as int + v - 10) as char
  }

  function ItemsFor(s: Bytes): seq<Item> {
    if s == "" then [] else [ItemFor(s[0])] + ItemsFor(s[1..])
  }

  function Escape(s: Bytes): Bytes {
    if s == "" then "" else RenderItem(ItemFor(s[0])) + Escape(s[1..])
  }

  /** appendJSONString. */
  function Quote(s: Bytes): Bytes {
    "\"" + (Escape(s) + "\"")
  }

  lemma ItemForMeans(c: char)
    ensures ItemOk(ItemFor(c))
    ensures match ItemFor(c)
            case Raw(d) => d == c
            case Esc(d) => EscapeValue(d) == c
            case Hex(x, y, z, w) => HexVal4(x, y, z, w) == c as int && !IsSurrogate(c as int) && Utf8(c as int) == [c]
  {
    if ItemFor(c).Hex? {
      assert HexVal4('0', '0', HexChar(c as int / 16), HexChar(c as int % 16)) == c as int;
    }
  }

  /** The printer writes a well-formed body whose meaning is the string itself. */
  lemma {:induction false} ItemsForMeans(s: Bytes)
    ensures ItemsOk(ItemsFor(s)) && RenderItems(ItemsFor(s)) == Escape(s)
    ensures Meaning(ItemsFor(s)) == s
  {
    if s != "" {
      ItemsForMeans(s[1..]);
      ItemForMeans(s[0]);
      assert ItemsFor(s)[1..] == ItemsFor(s[1..]);
      assert s == [s[0]] + s[1..];
    }
  }

  // ----- the scanner of strings -----

  /** Where the body of a string ends, if it does. */
  datatype Length = NoEnd | End(at: nat)

  /** The first loop of parseStringBytes: the length of the body, up to the closing quote. */
  function ScanBody(s: Bytes): (r: Length)
    ensures r.End? ==> r.at < |s| && s[r.at] == '"'
  {
    if s == "" then NoEnd
    else if s[0] == '"' then End(0)
    else
      var n := UnitLength(s);
      if n == 0 then NoEnd else Plus(n, ScanBody(s[n..]))
  }

  /** The length of the byte or escape at the front of a body; 0 if it is refused. */
  function UnitLength(s: Bytes): (n: nat)
    requires s != ""
    ensures n <= |s|
  {
    if s[0] < ' ' then 0
    else if s[0] != '\\' then 1
    else if |s| < 2 then 0
    else if IsEscape(s[1]) then 2
    else if s[1] == 'u' && Hex4(s[2..]).Some? then 6
    else 0
  }

  function Plus(n: nat, r: Length): Length {
    if r.End? then End(n + r.at) else NoEnd
  }

  /** unescapeJSON. */
  function Unescape(b: Bytes): Option<Bytes> {
    if b == "" then Some("")
    else if b[0] != '\\' then Prepend([b[0]], Unescape(b[1..]))
    else if |b| < 2 then None
    else if b[1] == 'u' then
      var h := Hex4(b[2..]);
      if h.None? then None
      else if !IsSurrogate(h.value) then Prepend(Utf8(h.value), Unescape(b[6..]))
      else
        var pair := SecondHalf(h.value, b[6..]);
        if pair.Some? then Prepend(Utf8(pair.value), Unescape(b[12..]))
        else Prepend(Utf8(REPLACEMENT), Unescape(b[6..]))
    else if IsEscape(b[1]) then Prepend([EscapeValue(b[1])], Unescape(b[2..]))
    else None
  }

  /** The code point of a surrogate whose other half follows as another \uXXXX. */
  function SecondHalf(r: nat, b: Bytes): (c: Option<nat>)
    ensures c.Some? ==> |b| >= 6 && 0x10000 <= c.value < 0x110000
  {
    if |b| >= 6 && b[0] == '\\' && b[1] == 'u' && Hex4(b[2..]).Some? &&
       DecodeRune(r, Hex4(b[2..]).value) != REPLACEMENT
    then Some(DecodeRune(r, Hex4(b[2..]).value))
    else None
  }

  function Prepend(s: Bytes, r: Option<Bytes>): Option<Bytes> {
    if r.Some? then Some(s + r.value) else None
  }

  /** parseStringBytes. */
  function ParseString(s: Bytes): (r: Parsed<Bytes>)
    ensures r.Ok? ==> |r.rest| < |s|
  {
    var t := SkipWs(s);
    if StartsWith(t, '"') then AfterQuote(t[1..]) else Fail
  }

  /** Behind the opening quote. */
  function AfterQuote(s: Bytes): (r: Parsed<Bytes>)
    ensures r.Ok? ==> |r.rest| < |s|
  {
    var n := ScanBody(s);
    if n.NoEnd? then Fail else FinishString(s[..n.at], s[n.at + 1..])
  }

  /** Behind the closing quote: a body without a backslash is taken as it is. */
  function FinishString(body: Bytes, rest: Bytes): (r: Parsed<Bytes>)
    ensures r.Ok? ==> r.rest == rest
  {
    if '\\' !in body then Ok(body, rest)
    else
      var u := Unescape(body);
      if u.Some? then Ok(u.value, rest) else Fail
  }

  lemma RenderFirst(items: seq<Item>, more: Bytes)
    requires items != []
    ensures RenderItems(items) + more == RenderItem(items[0]) + (RenderItems(items[1..]) + more)
  {
  }

  lemma Assoc(a: Bytes, b: Bytes, c: Bytes)
    ensures (a + b) + c == a + (b + c)
  {
  }

  lemma DropFront(x: Bytes, y: Bytes)
    ensures (x + y)[|x|..] == y
  {
  }

  lemma ItemUnit(x: Item, tail: Bytes)
    requires ItemOk(x)
    ensures var s := RenderItem(x) + tail; s[0] != '"' && UnitLength(s) == |RenderItem(x)|
  {
    var s := RenderItem(x) + tail;
    assert s[0] == RenderItem(x)[0];
    match x
    case Raw(_) =>
    case Esc(c) => assert s[1] == c;
    case Hex(a, b, c, d) => assert s[1] == 'u' && s[2..][0] == a && s[2..][1] == b && s[2..][2] == c && s[2..][3] == d;
  }

  lemma ScanItem(x: Item, tail: Bytes)
    requires ItemOk(x)
    ensures ScanBody(RenderItem(x) + tail) == Plus(|RenderItem(x)|, ScanBody(tail))
  {
    hide UnitLength, RenderItem;
    ItemUnit(x, tail);
    DropFront(RenderItem(x), tail);
  }

  /** The scanner finds the end of every well-formed body. */
  lemma {:induction false} ScanRendered(items: seq<Item>, rest: Bytes)
    requires ItemsOk(items)
    ensures ScanBody(RenderItems(items) + ("\"" + rest)) == End(|RenderItems(items)|)
  {
    if items == [] {
      assert "" + ("\"" + rest) == "\"" + rest;
    } else {
      var tail := RenderItems(items[1..]) + ("\"" + rest);
      RenderFirst(items, "\"" + rest);
      ScanRendered(items[1..], rest);
      ScanItem(items[0], tail);
    }
  }

  /** Whatever the scanner takes for a body is a body of the RFC grammar. */
  lemma {:induction false} ScanSound(s: Bytes) returns (items: seq<Item>)
    requires ScanBody(s).End?
    ensures ItemsOk(items) && RenderItems(items) == s[..ScanBody(s).at]
  {
    if s[0] == '"' {
      items := [];
    } else {
      var x := if s[0] != '\\' then Raw(s[0])
               else if IsEscape(s[1]) then Esc(s[1])
               else Hex(s[2], s[3], s[4], s[5]);
      var k := |RenderItem(x)|;
      assert RenderItem(x) == s[..k] && ItemOk(x) && ScanBody(s) == Plus(k, ScanBody(s[k..]));
      var tail := ScanSound(s[k..]);
      items := [x] + tail;
      ConsItems(x, tail);
      SplitTake(s, k, ScanBody(s[k..]).at);
    }
  }

  lemma ConsItems(x: Item, tail: seq<Item>)
    requires ItemOk(x) && ItemsOk(tail)
    ensures ItemsOk([x] + tail) && RenderItems([x] + tail) == RenderItem(x) + RenderItems(tail)
  {
    assert ([x] + tail)[1..] == tail;
  }

  lemma SplitTake(s: Bytes, k: nat, n: nat)
    requires k + n <= |s|
    ensures s[..k + n] == s[..k] + s[k..][..n]
  {
  }

  /** Unescaping a well-formed body gives its meaning; in particular it never fails, with
      unpaired surrogates in it or not. */
  lemma {:induction false} UnescapeMeans(items: seq<Item>)
    requires ItemsOk(items)
    ensures Unescape(RenderItems(items)) == Some(Meaning(items))
    decreases |items|
  {
    hide Utf8, DecodeRune, HexVal4, SecondHalf, EscapeValue, PairedWith, Hex4;
    if items != [] {
      var x := items[0];
      var tail := items[1..];
      var b := RenderItems(items);
      DropFront(RenderItem(x), RenderItems(tail));
      UnescapeMeans(tail);
      if x.Hex? {
        HexUnescaped(x, RenderItems(tail));
        SecondHalfPairs(HexOf(x), tail);
        if IsSurrogate(HexOf(x)) && PairedWith(HexOf(x), tail) {
          PairBehind(HexOf(x), tail);
          UnescapeMeans(tail[1..]);
          assert b[12..] == b[6..][6..];
          assert items[2..] == tail[1..];
        }
      }
    }
  }

  /** What unescaping does at \uXXXX. */
  lemma HexUnescaped(x: Item, more: Bytes)
    requires x.Hex? && ItemOk(x)
    ensures var b, r := RenderItem(x) + more, HexOf(x);
            b[6..] == more && Unescape(b) ==
              if !IsSurrogate(r) then Prepend(Utf8(r), Unescape(more))
              else if SecondHalf(r, more).Some? then Prepend(Utf8(SecondHalf(r, more).value), Unescape(b[12..]))
              else Prepend(Utf8(REPLACEMENT), Unescape(more))
  {
    hide Utf8, DecodeRune, HexVal4, SecondHalf;
    var b := RenderItem(x) + more;
    DropFront(RenderItem(x), more);
    assert b[0] == '\\' && b[1] == 'u';
    assert b[2..][0] == x.a && b[2..][1] == x.b && b[2..][2] == x.c && b[2..][3] == x.d;
  }

  lemma PairBehind(r: nat, tail: seq<Item>)
    requires ItemsOk(tail) && PairedWith(r, tail)
    ensures tail != [] && tail[0].Hex? && RenderItems(tail)[6..] == RenderItems(tail[1..]) && |RenderItems(tail)| >= 6
  {
    DropFront(RenderItem(tail[0]), RenderItems(tail[1..]));
  }

  lemma SecondHalfPairs(r: nat, tail: seq<Item>)
    requires ItemsOk(tail)
    ensures SecondHalf(r, RenderItems(tail)) ==
            if PairedWith(r, tail) then Some(DecodeRune(r, HexOf(tail[0]))) else None
  {
    if tail != [] {
      var b := RenderItems(tail);
      DropFront(RenderItem(tail[0]), RenderItems(tail[1..]));
      if tail[0].Hex? {
        assert b[2..][..4] == [tail[0].a, tail[0].b, tail[0].c, tail[0].d];
      }
    }
  }

  lemma {:induction false} PlainMeans(items: seq<Item>)
    requires ItemsOk(items) && '\\' !in RenderItems(items)
    ensures Meaning(items) == RenderItems(items)
  {
    if items != [] {
      var b := RenderItems(items);
      assert b[0] == RenderItem(items[0])[0];
      DropFront(RenderItem(items[0]), RenderItems(items[1..]));
      assert forall c :: c in b[|RenderItem(items[0])|..] ==> c in b;
      PlainMeans(items[1..]);
    }
  }

  /** The scanner reads every well-formed string of the RFC grammar as its meaning. */
  lemma ParseRendered(items: seq<Item>, rest: Bytes)
    requires ItemsOk(items)
    ensures ParseString("\"" + (RenderItems(items) + ("\"" + rest))) == Ok(Meaning(items), rest)
  {
    hide ItemsOk, RenderItems, Meaning, ScanBody, Unescape;
    var body := RenderItems(items);
    var s := "\"" + (body + ("\"" + rest));
    assert s[1..] == body + ("\"" + rest);
    ScanRendered(items, rest);
    assert s[1..][..|body|] == body;
    assert s[1..][|body| + 1..] == rest;
    if '\\' in body {
      UnescapeMeans(items);
    } else {
      PlainMeans(items);
    }
  }

  /** The scanner fails on a string only where the scan for its end fails: unescaping a body
      that was accepted never does. */
  lemma UnescapeNeverFails(s: Bytes)
    requires ScanBody(s).End?
    ensures Unescape(s[..ScanBody(s).at]).Some?
  {
    var items := ScanSound(s);
    UnescapeMeans(items);
  }

  /** The string codec: any byte string, valid UTF-8 or not, in front of any text. */
  lemma StringRoundTrip(s: Bytes, rest: Bytes)
    ensures ParseString(Quote(s) + rest) == Ok(s, rest)
  {
    ItemsForMeans(s);
    ParseRendered(ItemsFor(s), rest);
    Assoc("\"", Escape(s) + "\"", rest);
    Assoc(Escape(s), "\"", rest);
  }
}
