/** skipValue against the grammar of RFC 8259, sections 2 to 7. A value of the datatype Json is
    a parse tree with every byte of its rendering, white space included. */
module JsonGrammar {
  import opened Base
  import opened JsonText
  import opened JsonNumber

  // ----- the grammar -----

  datatype Exponent = Exponent(e: char, sign: Bytes, digits: Bytes)

  datatype Number = Number(negative: bool, whole: Bytes, frac: Option<Bytes>, exp: Option<Exponent>)

  datatype Json =
    | Word(text: Bytes)
    | Num(n: Number)
    | Str(items: seq<Item>)
    | EmptyArray(ws: Bytes)
    | Array(elems: Elements)
    | EmptyObject(ws: Bytes)
    | Object(members: Members)

  /** The elements of a non-empty array, each with the white space around it. */
  datatype Elements =
    | LastElement(pre: Bytes, v: Json, post: Bytes)
    | MoreElements(pre: Bytes, v: Json, post: Bytes, tail: Elements)

  datatype Members =
    | LastMember(head: MemberHead, v: Json, post: Bytes)
    | MoreMembers(head: MemberHead, v: Json, post: Bytes, tail: Members)

  /** The name of a member, up to the white space behind the colon. */
  datatype MemberHead = MemberHead(pre: Bytes, name: seq<Item>, mid: Bytes, gap: Bytes)

  predicate DigitsOk(s: Bytes) {
    s != "" && AllDigits(s)
  }

  predicate NumberOk(n: Number) {
    && DigitsOk(n.whole) && (n.whole[0] == '0' ==> |n.whole| == 1)
    && (n.frac.Some? ==> DigitsOk(n.frac.value))
    && (n.exp.Some? ==> ExponentOk(n.exp.value))
  }

  predicate ExponentOk(x: Exponent) {
    (x.e == 'e' || x.e == 'E') && (x.sign == "" || x.sign == "+" || x.sign == "-") && DigitsOk(x.digits)
  }

  predicate JsonOk(v: Json) {
    match v
    case Word(t) => t == "true" || t == "false" || t == "null"
    case Num(n) => NumberOk(n)
    case Str(items) => ItemsOk(items)
    case EmptyArray(ws) => AllWs(ws)
    case Array(es) => ElementsOk(es)
    case EmptyObject(ws) => AllWs(ws)
    case Object(ms) => MembersOk(ms)
  }

  predicate ElementsOk(es: Elements) {
    AllWs(es.pre) && JsonOk(es.v) && AllWs(es.post) && (es.MoreElements? ==> ElementsOk(es.tail))
  }

  predicate MembersOk(ms: Members) {
    HeadOk(ms.head) && JsonOk(ms.v) && AllWs(ms.post) && (ms.MoreMembers? ==> MembersOk(ms.tail))
  }

  predicate HeadOk(h: MemberHead) {
    AllWs(h.pre) && ItemsOk(h.name) && AllWs(h.mid) && AllWs(h.gap)
  }

  // The text of each part in front of the text that follows it.

  function ShowExp(x: Option<Exponent>, rest: Bytes): Bytes {
    if x.Some? then [x.value.e] + (x.value.sign + (x.value.digits + rest)) else rest
  }

  function ShowFrac(f: Option<Bytes>, rest: Bytes): Bytes {
    if f.Some? then "." + (f.value + rest) else rest
  }

  function ShowNumber(n: Number, rest: Bytes): Bytes {
    var u := n.whole + ShowFrac(n.frac, ShowExp(n.exp, rest));
    if n.negative then "-" + u else u
  }

  function ShowString(items: seq<Item>, rest: Bytes): Bytes {
    "\"" + (RenderItems(items) + ("\"" + rest))
  }

  function Show(v: Json, rest: Bytes): Bytes {
    match v
    case Word(t) => t + rest
    case Num(n) => ShowNumber(n, rest)
    case Str(items) => ShowString(items, rest)
    case EmptyArray(ws) => "[" + (ws + ("]" + rest))
    case Array(es) => "[" + ShowElements(es, rest)
    case EmptyObject(ws) => "{" + (ws + ("}" + rest))
    case Object(ms) => "{" + ShowMembers(ms, rest)
  }

  function ShowElements(es: Elements, rest: Bytes): Bytes {
    es.pre + Show(es.v, es.post +
      (if es.MoreElements? then "," + ShowElements(es.tail, rest) else "]" + rest))
  }

  function ShowMembers(ms: Members, rest: Bytes): Bytes {
    ShowHead(ms.head, Show(ms.v, ms.post +
      (if ms.MoreMembers? then "," + ShowMembers(ms.tail, rest) else "}" + rest)))
  }

  function ShowHead(h: MemberHead, rest: Bytes): Bytes {
    h.pre + ShowString(h.name, h.mid + (":" + (h.gap + rest)))
  }

  /** The rendering of a value. */
  function Render(v: Json): Bytes {
    Show(v, "")
  }

  // ----- the scanner -----

  /** One or more digits: the scanner's check of a fraction or an exponent. */
  function Digits(s: Bytes): (r: Option<Bytes>)
    ensures r.Some? ==> |r.value| < |s|
  {
    if s != "" && IsDigit(s[0]) then Some(s[CountDigits(s)..]) else None
  }

  function SkipFrac(s: Bytes): (r: Option<Bytes>)
    ensures r.Some? ==> |r.value| <= |s|
  {
    if StartsWith(s, '.') then Digits(s[1..]) else Some(s)
  }

  function SkipExp(s: Bytes): (r: Option<Bytes>)
    ensures r.Some? ==> |r.value| <= |s|
  {
    if StartsWith(s, 'e') || StartsWith(s, 'E') then
      Digits(if StartsWith(s[1..], '+') || StartsWith(s[1..], '-') then s[2..] else s[1..])
    else Some(s)
  }

  /** parseNumber, behind the white space. */
  function SkipNumber(s: Bytes): (r: Option<Bytes>)
    ensures r.Some? ==> |r.value| < |s| && AtDelimiter(r.value)
  {
    SkipUnsigned(if StartsWith(s, '-') then s[1..] else s)
  }

  function SkipUnsigned(u: Bytes): (r: Option<Bytes>)
    ensures r.Some? ==> |r.value| < |u| && AtDelimiter(r.value)
  {
    var n := IntegerPart(u);
    if n.None? then None
    else
      var f := SkipFrac(u[n.value..]);
      if f.None? then None
      else
        var x := SkipExp(f.value);
        if x.Some? && AtDelimiter(x.value) then x else None
  }

  /** skipValue. */
  function SkipValue(s: Bytes): (r: Option<Bytes>)
    ensures r.Some? ==> |r.value| < |s|
    decreases |s|, 0
  {
    var t := SkipWs(s);
    if t == "" then None
    else if t[0] == '"' then
      var q := ParseString(t);
      if q.Ok? then Some(q.rest) else None
    else if t[0] == '{' then
      var close := Consume('}', t[1..]);
      if close.Ok? then Some(close.rest) else SkipMembers(SkipWs(t[1..]))
    else if t[0] == '[' then
      var close := Consume(']', t[1..]);
      if close.Ok? then Some(close.rest) else SkipElements(SkipWs(t[1..]))
    else if t[0] == 't' || t[0] == 'f' then
      var b := ParseBool(t);
      if b.Ok? then Some(b.rest) else None
    else if t[0] == 'n' then
      var l := Literal("null", t);
      if l.Ok? then Some(l.rest) else None
    else if t[0] == '-' || IsDigit(t[0]) then SkipNumber(t)
    else None
  }

  /** The loop over array elements. */
  function SkipElements(s: Bytes): (r: Option<Bytes>)
    ensures r.Some? ==> |r.value| < |s|
    decreases |s|, 1
  {
    var v := SkipValue(s);
    if v.Some? then AfterElement(v.value) else None
  }

  function AfterElement(s: Bytes): (r: Option<Bytes>)
    ensures r.Some? ==> |r.value| < |s|
    decreases |s|, 2
  {
    var t := SkipWs(s);
    if StartsWith(t, ']') then Some(t[1..])
    else if !StartsWith(t, ',') then None
    else
      var u := SkipWs(t[1..]);
      if StartsWith(u, ']') then None else SkipElements(u)
  }

  /** The loop over object members. */
  function SkipMembers(s: Bytes): (r: Option<Bytes>)
    ensures r.Some? ==> |r.value| < |s|
    decreases |s|, 1
  {
    var name := ParseString(s);
    if !name.Ok? then None
    else
      var colon := Consume(':', name.rest);
      if !colon.Ok? then None
      else
        var v := SkipValue(colon.rest);
        if v.Some? then AfterMember(v.value) else None
  }

  function AfterMember(s: Bytes): (r: Option<Bytes>)
    ensures r.Some? ==> |r.value| < |s|
    decreases |s|, 2
  {
    var t := SkipWs(s);
    if StartsWith(t, '}') then Some(t[1..])
    else if !StartsWith(t, ',') then None
    else
      var u := SkipWs(t[1..]);
      if StartsWith(u, '}') then None else SkipMembers(u)
  }

  // ----- every rendering of a value is accepted -----

  /** Where a value may stop: numbers and words must not run into what follows. */
  predicate Boundary(v: Json, rest: Bytes) {
    match v
    case Num(_) => AtDelimiter(rest)
    case Word(_) => rest == "" || !IsIdentChar(rest[0])
    case _ => true
  }

  lemma DigitsAccepted(d: Bytes, rest: Bytes)
    requires DigitsOk(d) && (rest == "" || !IsDigit(rest[0]))
    ensures Digits(d + rest) == Some(rest)
  {
    CountDigitsOf(d, rest);
    assert (d + rest)[0] == d[0];
    DropFront(d, rest);
  }

  lemma SignSkipped(e: char, sign: Bytes, d: Bytes)
    requires (sign == "" || sign == "+" || sign == "-") && d != "" && IsDigit(d[0])
    ensures var s := [e] + (sign + d);
            d == if StartsWith(s[1..], '+') || StartsWith(s[1..], '-') then s[2..] else s[1..]
  {
    var s := [e] + (sign + d);
    assert s[1..] == sign + d;
    if sign == "" {
      assert sign + d == d;
    } else {
      assert s[2..] == d;
    }
  }

  lemma ExpAccepted(x: Option<Exponent>, rest: Bytes)
    requires (x.Some? ==> ExponentOk(x.value)) && AtDelimiter(rest)
    ensures SkipExp(ShowExp(x, rest)) == Some(rest)
  {
    hide Digits;
    if x.Some? {
      DigitsAccepted(x.value.digits, rest);
      assert (x.value.digits + rest)[0] == x.value.digits[0];
      SignSkipped(x.value.e, x.value.sign, x.value.digits + rest);
    }
  }

  lemma FracAccepted(f: Option<Bytes>, rest: Bytes)
    requires (f.Some? ==> DigitsOk(f.value)) && (rest == "" || (!IsDigit(rest[0]) && rest[0] != '.'))
    ensures SkipFrac(ShowFrac(f, rest)) == Some(rest)
  {
    if f.Some? {
      DigitsAccepted(f.value, rest);
    }
  }

  lemma NumberAccepted(n: Number, rest: Bytes)
    requires NumberOk(n) && AtDelimiter(rest)
    ensures SkipNumber(ShowNumber(n, rest)) == Some(rest)
    ensures StartsWith(ShowNumber(n, rest), '-') || IsDigit(ShowNumber(n, rest)[0])
  {
    var x := ShowExp(n.exp, rest);
    var f := ShowFrac(n.frac, x);
    var u := n.whole + f;
    assert u[0] == n.whole[0];
    CountDigitsOf(n.whole, f);
    assert n.whole[0] == '0' ==> |n.whole| == 1;
    assert IntegerPart(u) == Some(|n.whole|);
    DropFront(n.whole, f);
    FracAccepted(n.frac, x);
    ExpAccepted(n.exp, rest);
  }

  lemma LiteralThere(t: Bytes, rest: Bytes)
    requires rest == "" || !IsIdentChar(rest[0])
    ensures Literal(t, t + rest) == Ok((), rest)
  {
    assert (t + rest)[..|t|] == t;
    DropFront(t, rest);
  }

  lemma LiteralElsewhere(t: Bytes, s: Bytes)
    requires t != "" && s != "" && t[0] != s[0]
    ensures Literal(t, s).Fail?
  {
    if |t| <= |s| {
      assert s[..|t|][0] == s[0];
    }
  }

  lemma WordAccepted(t: Bytes, rest: Bytes)
    requires JsonOk(Word(t)) && Boundary(Word(t), rest)
    ensures SkipValue(t + rest) == Some(rest)
  {
    hide Literal, SkipMembers, SkipElements, SkipNumber, ParseString, Consume;
    LiteralThere(t, rest);
    assert (t + rest)[0] == t[0];
    if t == "false" {
      LiteralElsewhere("true", t + rest);
    }
  }

  lemma ConsumeOver(ws: Bytes, c: char, rest: Bytes)
    requires AllWs(ws) && !IsWs(c)
    ensures Consume(c, ws + ([c] + rest)) == Ok((), rest)
    ensures SkipWs(ws + ([c] + rest)) == [c] + rest && ([c] + rest)[1..] == rest
  {
    SkipWsOver(ws, [c] + rest);
  }

  lemma SkipValueOverWs(ws: Bytes, s: Bytes)
    requires AllWs(ws)
    ensures SkipValue(ws + s) == SkipValue(s)
  {
    SkipWsOver(ws, s);
  }

  lemma ShowStarts(v: Json, rest: Bytes)
    requires JsonOk(v)
    ensures var s := Show(v, rest); s != "" && !IsWs(s[0]) && s[0] != ']' && SkipWs(s) == s
  {
  }

  lemma SkipWsTwice(s: Bytes)
    ensures SkipWs(SkipWs(s)) == SkipWs(s)
  {
  }

  /** Leading white space does not matter to the loops. */
  lemma SkipElementsTrimmed(s: Bytes)
    ensures SkipElements(SkipWs(s)) == SkipElements(s)
  {
    SkipWsTwice(s);
    assert SkipValue(SkipWs(s)) == SkipValue(s);
  }

  lemma SkipMembersTrimmed(s: Bytes)
    ensures SkipMembers(SkipWs(s)) == SkipMembers(s)
  {
    SkipWsTwice(s);
    assert ParseString(SkipWs(s)) == ParseString(s);
  }

  lemma OpenArray(x: Bytes)
    requires !StartsWith(SkipWs(x), ']')
    ensures SkipValue("[" + x) == SkipElements(x)
  {
    assert ("[" + x)[1..] == x;
    SkipElementsTrimmed(x);
  }

  lemma OpenObject(x: Bytes)
    requires !StartsWith(SkipWs(x), '}')
    ensures SkipValue("{" + x) == SkipMembers(x)
  {
    assert ("{" + x)[1..] == x;
    SkipMembersTrimmed(x);
  }

  lemma EmptyAccepted(ws: Bytes, rest: Bytes)
    requires AllWs(ws)
    ensures SkipValue("[" + (ws + ("]" + rest))) == Some(rest)
    ensures SkipValue("{" + (ws + ("}" + rest))) == Some(rest)
  {
    ConsumeOver(ws, ']', rest);
    ConsumeOver(ws, '}', rest);
    assert ("[" + (ws + ("]" + rest)))[1..] == ws + ("]" + rest);
    assert ("{" + (ws + ("}" + rest)))[1..] == ws + ("}" + rest);
  }

  lemma NumberValueAccepted(n: Number, rest: Bytes)
    requires NumberOk(n) && AtDelimiter(rest)
    ensures SkipValue(ShowNumber(n, rest)) == Some(rest)
  {
    NumberAccepted(n, rest);
    DispatchNumber(ShowNumber(n, rest));
  }

  lemma DispatchNumber(s: Bytes)
    requires s != "" && (s[0] == '-' || IsDigit(s[0]))
    ensures SkipValue(s) == SkipNumber(s)
  {
    var c := s[0];
    assert c != '"' && c != '{' && c != '[' && c != 't' && c != 'f' && c != 'n' && !IsWs(c);
    assert SkipWs(s) == s;
  }

  lemma StringAccepted(items: seq<Item>, rest: Bytes)
    requires ItemsOk(items)
    ensures SkipValue(ShowString(items, rest)) == Some(rest)
  {
    ParseRendered(items, rest);
  }

  /** Any rendering of a value, in any white space layout, is accepted up to its last byte. */
  lemma {:induction false} ValueAccepted(v: Json, rest: Bytes)
    requires JsonOk(v) && Boundary(v, rest)
    ensures SkipValue(Show(v, rest)) == Some(rest)
    decreases v
  {
    match v
    case Word(t) => WordAccepted(t, rest);
    case Num(n) => NumberValueAccepted(n, rest);
    case Str(items) => StringAccepted(items, rest);
    case EmptyArray(ws) => EmptyAccepted(ws, rest);
    case EmptyObject(ws) => EmptyAccepted(ws, rest);
    case Array(es) =>
      ElementsAccepted(es, rest);
      ElementsStart(es, rest);
      OpenArray(ShowElements(es, rest));
    case Object(ms) =>
      MembersAccepted(ms, rest);
      MembersStart(ms, rest);
      OpenObject(ShowMembers(ms, rest));
  }

  lemma ElementsStart(es: Elements, rest: Bytes)
    requires ElementsOk(es)
    ensures !StartsWith(SkipWs(ShowElements(es, rest)), ']')
  {
    var more := es.post + (if es.MoreElements? then "," + ShowElements(es.tail, rest) else "]" + rest);
    SkipWsOver(es.pre, Show(es.v, more));
    ShowStarts(es.v, more);
  }

  lemma HeadStart(h: MemberHead, rest: Bytes)
    requires HeadOk(h)
    ensures !StartsWith(SkipWs(ShowHead(h, rest)), '}')
  {
    SkipWsOver(h.pre, ShowString(h.name, h.mid + (":" + (h.gap + rest))));
  }

  lemma MembersStart(ms: Members, rest: Bytes)
    requires MembersOk(ms)
    ensures !StartsWith(SkipWs(ShowMembers(ms, rest)), '}')
  {
    HeadStart(ms.head, Show(ms.v, ms.post +
      (if ms.MoreMembers? then "," + ShowMembers(ms.tail, rest) else "}" + rest)));
  }

  lemma AfterValue(post: Bytes, c: char, rest: Bytes)
    requires AllWs(post) && IsDelimiter(c) && !IsWs(c)
    ensures var after := post + ([c] + rest); AtDelimiter(after) && SkipWs(after) == [c] + rest
    ensures ([c] + rest)[1..] == rest
  {
    ConsumeOver(post, c, rest);
    assert (post + ([c] + rest))[0] == if post == "" then c else post[0];
  }

  lemma {:induction false} ElementsAccepted(es: Elements, rest: Bytes)
    requires ElementsOk(es)
    ensures SkipElements(ShowElements(es, rest)) == Some(rest)
    decreases es
  {
    var c := if es.MoreElements? then ',' else ']';
    var behind := if es.MoreElements? then ShowElements(es.tail, rest) else rest;
    var after := es.post + ([c] + behind);
    AfterValue(es.post, c, behind);
    SkipValueOverWs(es.pre, Show(es.v, after));
    ValueAccepted(es.v, after);
    if es.MoreElements? {
      ElementsAccepted(es.tail, rest);
      SkipElementsTrimmed(behind);
      ElementsStart(es.tail, rest);
    }
  }

  lemma HeadAccepted(h: MemberHead, rest: Bytes)
    requires HeadOk(h)
    ensures ParseString(ShowHead(h, rest)) == Ok(Meaning(h.name), h.mid + (":" + (h.gap + rest)))
    ensures Consume(':', h.mid + (":" + (h.gap + rest))) == Ok((), h.gap + rest)
    ensures SkipValue(h.gap + rest) == SkipValue(rest)
  {
    var behind := h.mid + (":" + (h.gap + rest));
    SkipWsOver(h.pre, ShowString(h.name, behind));
    ParseRendered(h.name, behind);
    ConsumeOver(h.mid, ':', h.gap + rest);
    SkipValueOverWs(h.gap, rest);
  }

  /** One turn of the member loop, up to the comma or the closing brace. */
  lemma MemberTurn(h: MemberHead, value: Bytes, after: Bytes)
    requires HeadOk(h) && SkipValue(value) == Some(after)
    ensures SkipMembers(ShowHead(h, value)) == AfterMember(after)
  {
    HeadAccepted(h, value);
  }

  lemma {:induction false} MembersAccepted(ms: Members, rest: Bytes)
    requires MembersOk(ms)
    ensures SkipMembers(ShowMembers(ms, rest)) == Some(rest)
    decreases ms
  {
    var c := if ms.MoreMembers? then ',' else '}';
    var behind := if ms.MoreMembers? then ShowMembers(ms.tail, rest) else rest;
    var after := ms.post + ([c] + behind);
    AfterValue(ms.post, c, behind);
    ValueAccepted(ms.v, after);
    MemberTurn(ms.head, Show(ms.v, after), after);
    if ms.MoreMembers? {
      MembersAccepted(ms.tail, rest);
      SkipMembersTrimmed(behind);
      MembersStart(ms.tail, rest);
    }
  }

  // ----- whatever is accepted is a value -----

  lemma DigitsSound(s: Bytes) returns (d: Bytes)
    requires Digits(s).Some?
    ensures DigitsOk(d) && s == d + Digits(s).value
  {
    d := s[..CountDigits(s)];
  }

  lemma FracSound(s: Bytes) returns (f: Option<Bytes>)
    requires SkipFrac(s).Some?
    ensures (f.Some? ==> DigitsOk(f.value)) && s == ShowFrac(f, SkipFrac(s).value)
  {
    if StartsWith(s, '.') {
      var d := DigitsSound(s[1..]);
      f := Some(d);
      assert s == "." + s[1..];
    } else {
      f := None;
    }
  }

  lemma ExpSound(s: Bytes) returns (x: Option<Exponent>)
    requires SkipExp(s).Some?
    ensures (x.Some? ==> ExponentOk(x.value)) && s == ShowExp(x, SkipExp(s).value)
  {
    if StartsWith(s, 'e') || StartsWith(s, 'E') {
      assert s == [s[0]] + s[1..];
      if StartsWith(s[1..], '+') || StartsWith(s[1..], '-') {
        assert s[1..] == [s[1]] + s[2..];
        var d := DigitsSound(s[2..]);
        x := Some(Exponent(s[0], [s[1]], d));
      } else {
        var d := DigitsSound(s[1..]);
        x := Some(Exponent(s[0], "", d));
        assert s[1..] == "" + s[1..];
      }
    } else {
      x := None;
    }
  }

  lemma NumberSound(s: Bytes) returns (n: Number)
    requires SkipNumber(s).Some?
    ensures NumberOk(n) && s == ShowNumber(n, SkipNumber(s).value)
  {
    var negative := StartsWith(s, '-');
    var u := if negative then s[1..] else s;
    assert s == if negative then "-" + u else u;
    var whole := WholeSound(u);
    var f := FracSound(u[|whole|..]);
    var x := ExpSound(SkipFrac(u[|whole|..]).value);
    n := Number(negative, whole, f, x);
  }

  lemma WholeSound(u: Bytes) returns (whole: Bytes)
    requires IntegerPart(u).Some?
    ensures DigitsOk(whole) && (whole[0] == '0' ==> |whole| == 1)
    ensures IntegerPart(u) == Some(|whole|) && u == whole + u[|whole|..]
  {
    whole := u[..IntegerPart(u).value];
    assert whole[0] == u[0];
  }

  lemma StringEnds(s: Bytes)
    requires ParseString(s).Ok?
    ensures var t := SkipWs(s);
            && t != "" && t == "\"" + t[1..] && ScanBody(t[1..]).End?
            && ParseString(s).rest == t[1..][ScanBody(t[1..]).at + 1..]
  {
  }

  lemma StringSound(s: Bytes) returns (ws: Bytes, items: seq<Item>)
    requires ParseString(s).Ok?
    ensures AllWs(ws) && ItemsOk(items)
    ensures s == ws + SkipWs(s) && SkipWs(s) == ShowString(items, ParseString(s).rest)
  {
    StringEnds(s);
    ws := SkipWsSplit(s);
    var body := SkipWs(s)[1..];
    items := BodySound(body);
  }

  lemma BodySound(s: Bytes) returns (items: seq<Item>)
    requires ScanBody(s).End?
    ensures ItemsOk(items) && s == RenderItems(items) + ("\"" + s[ScanBody(s).at + 1..])
  {
    items := ScanSound(s);
    SplitAtQuote(s, ScanBody(s).at);
  }

  lemma SplitAtQuote(s: Bytes, n: nat)
    requires n < |s| && s[n] == '"'
    ensures s == s[..n] + ("\"" + s[n + 1..])
  {
  }

  lemma ConsumeSound(c: char, s: Bytes) returns (ws: Bytes)
    requires Consume(c, s).Ok?
    ensures AllWs(ws) && s == ws + ([c] + Consume(c, s).rest)
  {
    ws := SkipWsSplit(s);
    assert SkipWs(s) == [c] + SkipWs(s)[1..];
  }

  /** The words of the grammar, at the front of a text without white space. */
  lemma WordSound(t: Bytes) returns (v: Json)
    requires t != "" && !IsWs(t[0]) && (t[0] == 't' || t[0] == 'f' || t[0] == 'n') && SkipValue(t).Some?
    ensures JsonOk(v) && Boundary(v, SkipValue(t).value) && t == Show(v, SkipValue(t).value)
  {
    if t[0] == 'n' {
      v := Word("null");
    } else {
      v := Word(if Literal("true", t).Ok? then "true" else "false");
    }
    assert t == v.text + t[|v.text|..];
  }

  lemma ArrayOpened(t: Bytes)
    requires StartsWith(t, '[') && SkipValue(t).Some?
    ensures t == "[" + t[1..]
    ensures SkipValue(t) == if Consume(']', t[1..]).Ok? then Some(Consume(']', t[1..]).rest)
                            else SkipElements(t[1..])
  {
    SkipElementsTrimmed(t[1..]);
  }

  lemma ObjectOpened(t: Bytes)
    requires StartsWith(t, '{') && SkipValue(t).Some?
    ensures t == "{" + t[1..]
    ensures SkipValue(t) == if Consume('}', t[1..]).Ok? then Some(Consume('}', t[1..]).rest)
                            else SkipMembers(t[1..])
  {
    SkipMembersTrimmed(t[1..]);
  }

  /** The values that contain no other value, at the front of a text without white space. */
  lemma LeafSound(t: Bytes) returns (v: Json)
    requires t != "" && !IsWs(t[0]) && t[0] != '[' && t[0] != '{' && SkipValue(t).Some?
    ensures JsonOk(v) && Boundary(v, SkipValue(t).value) && t == Show(v, SkipValue(t).value)
  {
    if t[0] == '"' {
      var _, items := StringSound(t);
      v := Str(items);
    } else if t[0] == 't' || t[0] == 'f' || t[0] == 'n' {
      v := WordSound(t);
    } else {
      var n := NumberSound(t);
      v := Num(n);
    }
  }

  /** What is accepted is white space and a value of the grammar, up to where it stops. */
  lemma {:induction false} ValueSound(s: Bytes) returns (ws: Bytes, v: Json)
    requires SkipValue(s).Some?
    ensures AllWs(ws) && JsonOk(v) && Boundary(v, SkipValue(s).value)
    ensures s == ws + Show(v, SkipValue(s).value)
    decreases |s|, 0
  {
    ws := SkipWsSplit(s);
    var t := SkipWs(s);
    SkipValueOverWs(ws, t);
    if t[0] == '{' {
      ObjectOpened(t);
      if Consume('}', t[1..]).Ok? {
        var inner := ConsumeSound('}', t[1..]);
        v := EmptyObject(inner);
      } else {
        var ms := MembersSound(t[1..]);
        v := Object(ms);
      }
    } else if t[0] == '[' {
      ArrayOpened(t);
      if Consume(']', t[1..]).Ok? {
        var inner := ConsumeSound(']', t[1..]);
        v := EmptyArray(inner);
      } else {
        var es := ElementsSound(t[1..]);
        v := Array(es);
      }
    } else {
      v := LeafSound(t);
    }
  }

  lemma ElementTail(s: Bytes) returns (post: Bytes, c: char, more: Bytes)
    requires AfterElement(s).Some?
    ensures AllWs(post) && s == post + ([c] + more)
    ensures (c == ']' && AfterElement(s) == Some(more)) || (c == ',' && AfterElement(s) == SkipElements(more))
  {
    post := SkipWsSplit(s);
    var t := SkipWs(s);
    c, more := t[0], t[1..];
    assert t == [c] + more;
    SkipElementsTrimmed(more);
  }

  lemma {:induction false} ElementsSound(s: Bytes) returns (es: Elements)
    requires SkipElements(s).Some?
    ensures ElementsOk(es) && s == ShowElements(es, SkipElements(s).value)
    decreases |s|, 1
  {
    var pre, v := ValueSound(s);
    var post, c, more := ElementTail(SkipValue(s).value);
    if c == ']' {
      es := LastElement(pre, v, post);
    } else {
      var tail := ElementsSound(more);
      es := MoreElements(pre, v, post, tail);
    }
  }

  lemma HeadSound(s: Bytes) returns (h: MemberHead)
    requires ParseString(s).Ok? && Consume(':', ParseString(s).rest).Ok?
    ensures HeadOk(h) && h.gap == "" && s == ShowHead(h, Consume(':', ParseString(s).rest).rest)
  {
    var pre, name := StringSound(s);
    var mid := ConsumeSound(':', ParseString(s).rest);
    h := MemberHead(pre, name, mid, "");
    var rest := Consume(':', ParseString(s).rest).rest;
    assert "" + rest == rest;
  }

  lemma MemberTail(s: Bytes) returns (post: Bytes, c: char, more: Bytes)
    requires AfterMember(s).Some?
    ensures AllWs(post) && s == post + ([c] + more)
    ensures (c == '}' && AfterMember(s) == Some(more)) || (c == ',' && AfterMember(s) == SkipMembers(more))
  {
    post := SkipWsSplit(s);
    var t := SkipWs(s);
    c, more := t[0], t[1..];
    assert t == [c] + more;
    SkipMembersTrimmed(more);
  }

  lemma {:induction false} MembersSound(s: Bytes) returns (ms: Members)
    requires SkipMembers(s).Some?
    ensures MembersOk(ms) && s == ShowMembers(ms, SkipMembers(s).value)
    decreases |s|, 1
  {
    var h := HeadSound(s);
    var value := Consume(':', ParseString(s).rest).rest;
    var gap, v := ValueSound(value);
    var after := SkipValue(value).value;
    WithGap(h, gap, Show(v, after));
    var head := h.(gap := gap);
    var post, c, more := MemberTail(after);
    if c == '}' {
      ms := LastMember(head, v, post);
    } else {
      var tail := MembersSound(more);
      ms := MoreMembers(head, v, post, tail);
    }
  }

  lemma WithGap(h: MemberHead, gap: Bytes, rest: Bytes)
    requires h.gap == ""
    ensures ShowHead(h, gap + rest) == ShowHead(h.(gap := gap), rest)
  {
    assert "" + (gap + rest) == gap + rest;
  }

  // ----- the text of a value does not depend on what follows -----

  lemma NumberThen(n: Number, a: Bytes, b: Bytes)
    ensures ShowNumber(n, a + b) == ShowNumber(n, a) + b
  {
    if n.exp.Some? {
      var x := n.exp.value;
      Assoc(x.digits, a, b);
      Assoc(x.sign, x.digits + a, b);
      Assoc([x.e], x.sign + (x.digits + a), b);
    }
    var e := ShowExp(n.exp, a);
    if n.frac.Some? {
      Assoc(n.frac.value, e, b);
      Assoc(".", n.frac.value + e, b);
    }
    var f := ShowFrac(n.frac, e);
    Assoc(n.whole, f, b);
    Assoc("-", n.whole + f, b);
  }

  lemma StringThen(items: seq<Item>, a: Bytes, b: Bytes)
    ensures ShowString(items, a + b) == ShowString(items, a) + b
  {
    Assoc("\"", a, b);
    Assoc(RenderItems(items), "\"" + a, b);
    Assoc("\"", RenderItems(items) + ("\"" + a), b);
  }

  lemma {:induction false} ShowThen(v: Json, a: Bytes, b: Bytes)
    ensures Show(v, a + b) == Show(v, a) + b
    decreases v
  {
    match v
    case Word(t) => Assoc(t, a, b);
    case Num(n) => NumberThen(n, a, b);
    case Str(items) => StringThen(items, a, b);
    case EmptyArray(ws) => Assoc("]", a, b); Assoc(ws, "]" + a, b); Assoc("[", ws + ("]" + a), b);
    case Array(es) => ElementsThen(es, a, b); Assoc("[", ShowElements(es, a), b);
    case EmptyObject(ws) => Assoc("}", a, b); Assoc(ws, "}" + a, b); Assoc("{", ws + ("}" + a), b);
    case Object(ms) => MembersThen(ms, a, b); Assoc("{", ShowMembers(ms, a), b);
  }

  lemma {:induction false} ElementsThen(es: Elements, a: Bytes, b: Bytes)
    ensures ShowElements(es, a + b) == ShowElements(es, a) + b
    decreases es
  {
    var c := if es.MoreElements? then "," else "]";
    var behind := if es.MoreElements? then ShowElements(es.tail, a) else a;
    if es.MoreElements? {
      ElementsThen(es.tail, a, b);
    }
    Assoc(c, behind, b);
    Assoc(es.post, c + behind, b);
    ShowThen(es.v, es.post + (c + behind), b);
    Assoc(es.pre, Show(es.v, es.post + (c + behind)), b);
  }

  lemma {:induction false} MembersThen(ms: Members, a: Bytes, b: Bytes)
    ensures ShowMembers(ms, a + b) == ShowMembers(ms, a) + b
    decreases ms
  {
    var c := if ms.MoreMembers? then "," else "}";
    var behind := if ms.MoreMembers? then ShowMembers(ms.tail, a) else a;
    if ms.MoreMembers? {
      MembersThen(ms.tail, a, b);
    }
    Assoc(c, behind, b);
    Assoc(ms.post, c + behind, b);
    ShowThen(ms.v, ms.post + (c + behind), b);
    var value := Show(ms.v, ms.post + (c + behind));
    var h := ms.head;
    Assoc(h.gap, value, b);
    Assoc(":", h.gap + value, b);
    Assoc(h.mid, ":" + (h.gap + value), b);
    StringThen(h.name, h.mid + (":" + (h.gap + value)), b);
    Assoc(h.pre, ShowString(h.name, h.mid + (":" + (h.gap + value))), b);
  }

  /** A text is white space, the rendering of a value of the grammar, and `rest` where that
      value may stop. */
  ghost predicate IsRendering(s: Bytes, ws: Bytes, v: Json, rest: Bytes) {
    AllWs(ws) && JsonOk(v) && Boundary(v, rest) && s == ws + (Render(v) + rest)
  }

  /** skipValue accepts a text up to `rest` exactly when the grammar allows it. */
  lemma SkipValueExact(s: Bytes, rest: Bytes)
    ensures SkipValue(s) == Some(rest) <==> exists ws, v :: IsRendering(s, ws, v, rest)
  {
    if SkipValue(s) == Some(rest) {
      var ws, v := ValueSound(s);
      ShowThen(v, "", rest);
      assert "" + rest == rest;
      assert IsRendering(s, ws, v, rest);
    }
    forall ws, v | IsRendering(s, ws, v, rest) ensures SkipValue(s) == Some(rest) {
      ShowThen(v, "", rest);
      assert "" + rest == rest;
      SkipValueOverWs(ws, Show(v, rest));
      ValueAccepted(v, rest);
    }
  }
}
