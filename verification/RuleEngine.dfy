/** The declarative rule engine: validation and partition of a flat rule list into phases, and the
    evaluation of a response through them. */
module RuleEngine {
  import opened Base
  import opened Types

  // ----- conditions -----

  datatype Signal = RawBody | NormalizedBody | OtherSignal(name: Bytes)

  datatype Matcher = ContainsAny(phrases: seq<Bytes>) | OtherMatcher(name: Bytes)

  /** A condition tree; every part may be nil. */
  datatype Condition =
    | Leaf(signal: Option<Signal>, matcher: Option<Matcher>)
    | AllOf(parts: seq<Option<Condition>>)
    | AnyOf(parts: seq<Option<Condition>>)
    | Not(part: Option<Condition>)

  datatype Context = Context(statusCode: int, headers: Bytes, body: Bytes, latency: int)

  /** What the engine takes from elsewhere: signal extraction, text matching, the Retry-After parser, the
      interception phrases, the lower-casing and trimming of phase names, and number formatting. */
  datatype Engine = Engine(
    extract: (Context, Signal) -> Bytes,
    matches: (Matcher, Bytes) -> bool,
    retryAfter: Bytes -> Option<int>,
    detect: Bytes -> Option<(Bytes, Bytes)>,
    phaseName: Bytes -> Bytes,
    number: int -> Bytes)

  predicate Holds(e: Engine, c: Condition, ctx: Context) {
    match c
    case Leaf(signal, matcher) =>
      signal.Some? && matcher.Some? && e.matches(matcher.value, e.extract(ctx, signal.value))
    case AllOf(parts) => parts != [] && forall i :: 0 <= i < |parts| ==> parts[i].Some? && Holds(e, parts[i].value, ctx)
    case AnyOf(parts) => exists i :: 0 <= i < |parts| && parts[i].Some? && Holds(e, parts[i].value, ctx)
    case Not(part) => part.Some? && !Holds(e, part.value, ctx)
  }

  /** validateCondition: no ContainsAny on the raw body, anywhere in the tree. */
  predicate ConditionValid(c: Condition) {
    match c
    case Leaf(signal, matcher) => !(signal == Some(RawBody) && matcher.Some? && matcher.value.ContainsAny?)
    case AllOf(parts) => forall i :: 0 <= i < |parts| && parts[i].Some? ==> ConditionValid(parts[i].value)
    case AnyOf(parts) => forall i :: 0 <= i < |parts| && parts[i].Some? ==> ConditionValid(parts[i].value)
    case Not(part) => part.Some? ==> ConditionValid(part.value)
  }

  /** Condition.Evaluate, with the loops of AllOf and AnyOf that stop early. */
  method EvaluateCondition(e: Engine, c: Condition, ctx: Context) returns (holds: bool)
    ensures holds <==> Holds(e, c, ctx)
    decreases c
  {
    match c {
      case Leaf(signal, matcher) =>
        if signal.None? || matcher.None? { return false; }
        holds := e.matches(matcher.value, e.extract(ctx, signal.value));
      case AllOf(parts) =>
        if |parts| == 0 { return false; }
        for i := 0 to |parts|
          invariant forall j :: 0 <= j < i ==> parts[j].Some? && Holds(e, parts[j].value, ctx)
        {
          if parts[i].None? { return false; }
          var part := EvaluateCondition(e, parts[i].value, ctx);
          if !part { return false; }
        }
        holds := true;
      case AnyOf(parts) =>
        if |parts| == 0 { return false; }
        for i := 0 to |parts|
          invariant forall j :: 0 <= j < i ==> !(parts[j].Some? && Holds(e, parts[j].value, ctx))
        {
          if parts[i].Some? {
            var part := EvaluateCondition(e, parts[i].value, ctx);
            if part { return true; }
          }
        }
        holds := false;
      case Not(part) =>
        if part.None? { return false; }
        var inner := EvaluateCondition(e, part.value, ctx);
        holds := !inner;
    }
  }

  /** validateCondition, which stops at the first part it refuses. A nil condition is valid. */
  method ValidateCondition(c: Option<Condition>) returns (ok: bool)
    ensures ok <==> (c.Some? ==> ConditionValid(c.value))
    decreases c
  {
    if c.None? { return true; }
    match c.value {
      case Leaf(signal, matcher) =>
        if signal == Some(RawBody) {
          if matcher.Some? && matcher.value.ContainsAny? { return false; }
        }
        ok := true;
      case AllOf(parts) =>
        for i := 0 to |parts|
          invariant forall j :: 0 <= j < i && parts[j].Some? ==> ConditionValid(parts[j].value)
        {
          ok := ValidateCondition(parts[i]);
          if !ok { return; }
        }
        ok := true;
      case AnyOf(parts) =>
        for i := 0 to |parts|
          invariant forall j :: 0 <= j < i && parts[j].Some? ==> ConditionValid(parts[j].value)
        {
          ok := ValidateCondition(parts[i]);
          if !ok { return; }
        }
        ok := true;
      case Not(part) =>
        ok := ValidateCondition(part);
    }
  }

  // ----- rules and their phases -----

  datatype Verdict = Verdict(status: Bytes, category: Bytes, reason: Bytes)

  datatype Rule = Rule(phase: Bytes, condition: Option<Condition>, verdict: Verdict)

  datatype Phase = Interception | Rejection | Verification

  function PhaseText(p: Phase): Bytes {
    match p
    case Interception => "interception"
    case Rejection => "rejection"
    case Verification => "verification"
  }

  function PhaseNamed(name: Bytes): Option<Phase> {
    if name == "interception" then Some(Interception)
    else if name == "rejection" then Some(Rejection)
    else if name == "verification" then Some(Verification)
    else None
  }

  /** The phase that a rule names, or that its verdict implies. */
  function PhaseOf(e: Engine, r: Rule): Option<Phase> {
    var name := e.phaseName(r.phase);
    if name == "" then Some(if r.verdict.status == PASSED then Verification else Rejection) else PhaseNamed(name)
  }

  predicate VerdictValid(v: Verdict) {
    if v.status == PASSED then v.category == NO_ERROR || v.category == ""
    else (v.status == FAILED || v.status == INCONCLUSIVE) && v.category != "" && v.category != NO_ERROR
  }

  /** A rule that validation lets through: a pass stands exactly in the verification phase. */
  predicate RuleValid(e: Engine, r: Rule) {
    && VerdictValid(r.verdict) && (r.condition.Some? ==> ConditionValid(r.condition.value))
    && PhaseOf(e, r).Some? && (PhaseOf(e, r).value == Verification <==> r.verdict.status == PASSED)
  }

  /** The copy of a valid rule that goes into its bucket. */
  function Normal(e: Engine, r: Rule): Rule
    requires PhaseOf(e, r).Some?
  {
    r.(phase := PhaseText(PhaseOf(e, r).value),
       verdict := r.verdict.(category := if r.verdict.status == PASSED then NO_ERROR else r.verdict.category))
  }

  /** The rules of a phase, in list order. */
  function OfPhase(e: Engine, rules: seq<Rule>, p: Phase): seq<Rule> {
    if rules == [] then []
    else
      var last := rules[|rules|-1];
      OfPhase(e, rules[..|rules|-1], p) + if PhaseOf(e, last) == Some(p) then [last] else []
  }

  /** The bucket of a phase: the normalized copies. */
  function Bucket(e: Engine, rules: seq<Rule>, p: Phase): seq<Rule> {
    if rules == [] then []
    else
      var last := rules[|rules|-1];
      Bucket(e, rules[..|rules|-1], p) + if PhaseOf(e, last) == Some(p) then [Normal(e, last)] else []
  }

  ghost predicate RulesValid(e: Engine, rules: seq<Rule>) {
    forall i :: 0 <= i < |rules| ==> RuleValid(e, rules[i])
  }

  // ----- rule sets -----

  datatype Spec = Spec(
    mode: Bytes,
    acceptedCodes: seq<int>,
    fallbackReason: Bytes,
    rules: seq<Rule>,
    interceptions: seq<Rule>,
    rejections: seq<Rule>,
    verifications: seq<Rule>,
    initialized: bool)

  const STRICT: Bytes := "strict"
  const PERMISSIVE: Bytes := "permissive"

  predicate ModeValid(mode: Bytes) {
    mode == STRICT || mode == PERMISSIVE || mode == ""
  }

  /** A rule set that validation accepts. */
  ghost predicate SpecValid(e: Engine, s: Spec) {
    ModeValid(s.mode) && RulesValid(e, s.rules)
  }

  /** What validation makes of an acceptable rule set. */
  function Compiled(e: Engine, s: Spec): Spec {
    s.(mode := if s.mode == "" then STRICT else s.mode,
       acceptedCodes := if s.acceptedCodes == [] then [200] else s.acceptedCodes,
       interceptions := Bucket(e, s.rules, Interception),
       rejections := Bucket(e, s.rules, Rejection),
       verifications := Bucket(e, s.rules, Verification),
       initialized := true)
  }

  class RuleSet {
    const engine: Engine
    var mode: Bytes
    var acceptedCodes: seq<int>
    var fallbackReason: Bytes
    var rules: seq<Rule>
    var interceptions: seq<Rule>
    var rejections: seq<Rule>
    var verifications: seq<Rule>
    var initialized: bool

    function Value(): Spec
      reads this
    {
      Spec(mode, acceptedCodes, fallbackReason, rules, interceptions, rejections, verifications, initialized)
    }

    constructor (engine: Engine, mode: Bytes, acceptedCodes: seq<int>, fallbackReason: Bytes, rules: seq<Rule>)
      ensures this.engine == engine && Value() == Spec(mode, acceptedCodes, fallbackReason, rules, [], [], [], false)
    {
      this.engine, this.mode, this.acceptedCodes, this.fallbackReason := engine, mode, acceptedCodes, fallbackReason;
      this.rules, interceptions, rejections, verifications, initialized := rules, [], [], [], false;
    }

    /** The body of the loop over rules: validates one rule and puts its copy into a bucket. */
    method AddRule(r0: Rule) returns (ok: bool)
      modifies this`interceptions, this`rejections, this`verifications
      ensures ok <==> RuleValid(engine, r0)
      ensures !ok ==> Value() == old(Value())
      ensures ok ==>
        var p := PhaseOf(engine, r0).value;
        && interceptions == old(interceptions) + (if p == Interception then [Normal(engine, r0)] else [])
        && rejections == old(rejections) + (if p == Rejection then [Normal(engine, r0)] else [])
        && verifications == old(verifications) + (if p == Verification then [Normal(engine, r0)] else [])
    {
      StatusesDiffer();
      var r := r0;
      if r.verdict.status == PASSED {
        if r.verdict.category != NO_ERROR && r.verdict.category != "" { return false; }
        r := r.(verdict := r.verdict.(category := NO_ERROR));
      } else if r.verdict.status == FAILED || r.verdict.status == INCONCLUSIVE {
        if r.verdict.category == "" || r.verdict.category == NO_ERROR { return false; }
      } else {
        return false;
      }
      ok := ValidateCondition(r.condition);
      if !ok { return; }
      var name := engine.phaseName(r.phase);
      if name == "" {
        name := if r.verdict.status == PASSED then "verification" else "rejection";
      }
      PhaseNames();
      if name == "interception" {
        if r.verdict.status == PASSED { return false; }
        interceptions := interceptions + [r.(phase := "interception")];
      } else if name == "rejection" {
        if r.verdict.status == PASSED { return false; }
        rejections := rejections + [r.(phase := "rejection")];
      } else if name == "verification" {
        if r.verdict.status == FAILED || r.verdict.status == INCONCLUSIVE { return false; }
        verifications := verifications + [r.(phase := "verification")];
      } else {
        return false;
      }
      ok := true;
    }

    /** The loop over rules: fails at the first one that is not valid. */
    method Partition() returns (ok: bool)
      modifies this`interceptions, this`rejections, this`verifications
      ensures ok <==> RulesValid(engine, rules)
      ensures ok ==> interceptions == Bucket(engine, rules, Interception)
      ensures ok ==> rejections == Bucket(engine, rules, Rejection)
      ensures ok ==> verifications == Bucket(engine, rules, Verification)
    {
      hide RuleValid, Normal, PhaseOf;
      interceptions, rejections, verifications := [], [], [];
      for i := 0 to |rules|
        invariant forall j :: 0 <= j < i ==> RuleValid(engine, rules[j])
        invariant interceptions == Bucket(engine, rules[..i], Interception)
        invariant rejections == Bucket(engine, rules[..i], Rejection)
        invariant verifications == Bucket(engine, rules[..i], Verification)
      {
        ok := AddRule(rules[i]);
        if !ok { return; }
        ValidHasPhase(engine, rules[i]);
        assert rules[..i+1][..i] == rules[..i];
      }
      assert rules[..|rules|] == rules;
      ok := true;
    }

    /** initAndValidate: succeeds exactly on valid rule sets, and leaves a refused one uninitialized. */
    method InitAndValidate() returns (ok: bool)
      modifies this
      ensures ok <==> SpecValid(engine, old(Value()))
      ensures ok ==> Value() == Compiled(engine, old(Value()))
      ensures !ok ==> !initialized
      ensures rules == old(rules) && fallbackReason == old(fallbackReason)
    {
      hide RulesValid, Bucket;
      initialized := false;
      if mode == "" {
        mode := STRICT;
      }
      if mode != STRICT && mode != PERMISSIVE { return false; }
      if acceptedCodes == [] {
        acceptedCodes := [200];
      }
      ok := Partition();
      initialized := ok;
    }
  }

  lemma ValidHasPhase(e: Engine, r: Rule)
    requires RuleValid(e, r)
    ensures PhaseOf(e, r).Some?
  {
  }

  lemma PhaseNames()
    ensures "interception" != "rejection" && "interception" != "verification" && "rejection" != "verification"
    ensures "interception" != "" && "rejection" != "" && "verification" != ""
  {
    assert "interception"[0] == 'i' && "rejection"[0] == 'r' && "verification"[0] == 'v';
  }

  /** Validating again changes nothing. */
  lemma ValidationIsIdempotent(e: Engine, s: Spec)
    requires SpecValid(e, s)
    ensures SpecValid(e, Compiled(e, s)) && Compiled(e, Compiled(e, s)) == Compiled(e, s)
  {
  }

  // ----- evaluation -----

  datatype Outcome = Outcome(status: Bytes, category: Bytes, statusCode: int, reason: Bytes, latency: int,
                             retryable: bool, retryAfter: Option<int>)

  const TARGET_OTHER: Bytes := "target_other"
  const CONFIG_ERROR: Bytes := "config_error"
  const TARGET_ERROR: Bytes := "target_error"
  const TARGET_RATE_LIMITED: Bytes := "target_rate_limited"
  const DEFAULT_FALLBACK: Bytes := "possible interception / false positive: positive verification signals absent"

  const UNINITIALIZED: Bytes :=
    "uninitialized ruleset: must be constructed via NewRuleSet or unmarshaled from valid JSON"

  function ClampLatency(d: int): int {
    if d <= 0 then 1 else d
  }

  /** ClassifyCommonHTTPStatus. */
  function CommonStatus(e: Engine, ctx: Context): Option<Outcome> {
    var latency := ClampLatency(ctx.latency);
    match ctx.statusCode
    case 429 => Some(Outcome(INCONCLUSIVE, TARGET_RATE_LIMITED, 429, "target HTTP 429 Too Many Requests", latency, true,
                             e.retryAfter(ctx.headers)))
    case 503 =>
      Some(Outcome(INCONCLUSIVE, TARGET_ERROR, 503, "target HTTP 503 Service Unavailable", latency, true, None))
    case 500 => Some(Outcome(INCONCLUSIVE, TARGET_ERROR, 500, "target HTTP " + e.number(500), latency, false, None))
    case 502 => Some(Outcome(INCONCLUSIVE, TARGET_ERROR, 502, "target HTTP " + e.number(502), latency, false, None))
    case 504 => Some(Outcome(INCONCLUSIVE, TARGET_ERROR, 504, "target HTTP " + e.number(504), latency, false, None))
    case 403 => Some(Outcome(FAILED, TARGET_DENIED, 403, "target HTTP 403 Forbidden", latency, false, None))
    case _ => None
  }

  predicate Matches(e: Engine, r: Rule, ctx: Context) {
    r.condition.Some? && Holds(e, r.condition.value, ctx)
  }

  /** The rule at a position matches, and none before it does. */
  predicate FirstAt(e: Engine, rules: seq<Rule>, ctx: Context, i: nat) {
    && i < |rules| && Matches(e, rules[i], ctx)
    && forall j :: 0 <= j < i ==> !Matches(e, rules[j], ctx)
  }

  /** The first rule of a bucket that matches. */
  function FirstMatch(e: Engine, rules: seq<Rule>, ctx: Context): (r: Option<Rule>)
    ensures r.None? <==> forall i :: 0 <= i < |rules| ==> !Matches(e, rules[i], ctx)
    ensures r.Some? <==> exists i: nat :: FirstAt(e, rules, ctx, i)
    ensures forall i: nat :: FirstAt(e, rules, ctx, i) ==> r == Some(rules[i])
  {
    if rules == [] then None
    else if Matches(e, rules[0], ctx) then
      assert FirstAt(e, rules, ctx, 0);
      Some(rules[0])
    else
      var rest := FirstMatch(e, rules[1..], ctx);
      assert forall i: nat :: FirstAt(e, rules, ctx, i) ==> i > 0 && FirstAt(e, rules[1..], ctx, i - 1);
      assert forall i: nat :: FirstAt(e, rules[1..], ctx, i) ==> FirstAt(e, rules, ctx, i + 1);
      rest
  }

  function Plain(ctx: Context, status: Bytes, category: Bytes, reason: Bytes): Outcome {
    Outcome(status, category, ctx.statusCode, reason, ClampLatency(ctx.latency), false, None)
  }

  /** Evaluate: five phases, the first match wins. */
  function Evaluate(e: Engine, ctx: Context, s: Spec): Outcome {
    if !s.initialized then
      Plain(ctx, FAILED, CONFIG_ERROR, UNINITIALIZED)
    else
      var common := CommonStatus(e, ctx);
      var accepted := if s.acceptedCodes == [] then [200] else s.acceptedCodes;
      if common.Some? then common.value
      else if ctx.statusCode !in accepted then
        Plain(ctx, FAILED, TARGET_OTHER, "unexpected HTTP status " + e.number(ctx.statusCode))
      else
        var detected := e.detect(ctx.body);
        if detected.Some? then Plain(ctx, FAILED, detected.value.0, detected.value.1)
        else
          var intercepted := FirstMatch(e, s.interceptions, ctx);
          var rejected := FirstMatch(e, s.rejections, ctx);
          var verified := FirstMatch(e, s.verifications, ctx);
          if intercepted.Some? then Ruled(ctx, intercepted.value.verdict)
          else if rejected.Some? then Ruled(ctx, rejected.value.verdict)
          else if verified.Some? then
            var reason := verified.value.verdict.reason;
            Plain(ctx, PASSED, NO_ERROR, if reason == "" then "ok" else reason)
          else if s.mode == PERMISSIVE then Plain(ctx, PASSED, NO_ERROR, "ok")
          else Plain(ctx, FAILED, TARGET_OTHER, if s.fallbackReason == "" then DEFAULT_FALLBACK else s.fallbackReason)
  }

  function Ruled(ctx: Context, v: Verdict): Outcome {
    Plain(ctx, v.status, v.category, v.reason)
  }

  /** The loop over a bucket, which stops at the first rule that matches. */
  method MatchBucket(e: Engine, rules: seq<Rule>, ctx: Context) returns (r: Option<Verdict>)
    ensures r == match FirstMatch(e, rules, ctx) case None => None case Some(rule) => Some(rule.verdict)
  {
    for i := 0 to |rules|
      invariant forall j :: 0 <= j < i ==> !Matches(e, rules[j], ctx)
    {
      if rules[i].condition.Some? {
        var holds := EvaluateCondition(e, rules[i].condition.value, ctx);
        if holds {
          assert FirstAt(e, rules, ctx, i);
          return Some(rules[i].verdict);
        }
      }
    }
    r := None;
  }

  /** ClassifyCommonHTTPStatus as a switch over the status code. */
  method ClassifyCommonStatus(e: Engine, ctx: Context) returns (r: Option<Outcome>)
    ensures r == CommonStatus(e, ctx)
  {
    var code, latency := ctx.statusCode, if ctx.latency > 0 then ctx.latency else 1;
    if code == 429 {
      var retryAfter := e.retryAfter(ctx.headers);
      return Some(Outcome(INCONCLUSIVE, TARGET_RATE_LIMITED, 429, "target HTTP 429 Too Many Requests", latency, true,
                          retryAfter));
    }
    if code == 503 {
      return Some(Outcome(INCONCLUSIVE, TARGET_ERROR, 503, "target HTTP 503 Service Unavailable", latency, true, None));
    }
    if code == 500 || code == 502 || code == 504 {
      return Some(Outcome(INCONCLUSIVE, TARGET_ERROR, code, "target HTTP " + e.number(code), latency, false, None));
    }
    if code == 403 {
      return Some(Outcome(FAILED, TARGET_DENIED, 403, "target HTTP 403 Forbidden", latency, false, None));
    }
    r := None;
  }

  /** Evaluate, phase by phase. */
  method EvaluateResponse(e: Engine, ctx: Context, s: Spec) returns (o: Outcome)
    ensures o == Evaluate(e, ctx, s)
  {
    hide Holds, Matches, CommonStatus;
    var code, latency := ctx.statusCode, if ctx.latency > 0 then ctx.latency else 1;
    if !s.initialized {
      return Outcome(FAILED, CONFIG_ERROR, code, UNINITIALIZED, latency, false, None);
    }
    var common := ClassifyCommonStatus(e, ctx);
    if common.Some? {
      return common.value;
    }
    var accepted := s.acceptedCodes;
    if |accepted| == 0 {
      accepted := [200];
    }
    var isAccepted := false;
    for i := 0 to |accepted|
      invariant isAccepted <==> code in accepted[..i]
    {
      if code == accepted[i] {
        isAccepted := true;
      }
    }
    if !isAccepted {
      return Outcome(FAILED, TARGET_OTHER, code, "unexpected HTTP status " + e.number(code), latency, false, None);
    }
    var detected := e.detect(ctx.body);
    if detected.Some? {
      return Outcome(FAILED, detected.value.0, code, detected.value.1, latency, false, None);
    }
    var verdict := MatchBucket(e, s.interceptions, ctx);
    if verdict.Some? {
      return Outcome(verdict.value.status, verdict.value.category, code, verdict.value.reason, latency, false, None);
    }
    verdict := MatchBucket(e, s.rejections, ctx);
    if verdict.Some? {
      return Outcome(verdict.value.status, verdict.value.category, code, verdict.value.reason, latency, false, None);
    }
    verdict := MatchBucket(e, s.verifications, ctx);
    if verdict.Some? {
      var reason := verdict.value.reason;
      if reason == "" {
        reason := "ok";
      }
      return Outcome(PASSED, NO_ERROR, code, reason, latency, false, None);
    }
    if s.mode == PERMISSIVE {
      return Outcome(PASSED, NO_ERROR, code, "ok", latency, false, None);
    }
    var fallback := s.fallbackReason;
    if fallback == "" {
      fallback := DEFAULT_FALLBACK;
    }
    o := Outcome(FAILED, TARGET_OTHER, code, fallback, latency, false, None);
  }

  // ----- what the rules decide -----

  /** The part of the decision that no rule has a say in. */
  predicate GatesOpen(e: Engine, ctx: Context, accepted: seq<int>) {
    && CommonStatus(e, ctx).None? && e.detect(ctx.body).None?
    && ctx.statusCode in (if accepted == [] then [200] else accepted)
  }

  lemma {:induction false} BucketMatches(e: Engine, rules: seq<Rule>, p: Phase, ctx: Context)
    ensures (exists b :: b in Bucket(e, rules, p) && Matches(e, b, ctx)) <==>
            exists r :: r in rules && PhaseOf(e, r) == Some(p) && Matches(e, r, ctx)
  {
    if rules != [] {
      var init, last := rules[..|rules|-1], rules[|rules|-1];
      BucketMatches(e, init, p, ctx);
      assert rules == init + [last];
      if PhaseOf(e, last) == Some(p) {
        assert Matches(e, Normal(e, last), ctx) == Matches(e, last, ctx);
        assert Bucket(e, rules, p) == Bucket(e, init, p) + [Normal(e, last)];
        assert Normal(e, last) in Bucket(e, rules, p);
      }
      if exists b :: b in Bucket(e, rules, p) && Matches(e, b, ctx) {
        var b :| b in Bucket(e, rules, p) && Matches(e, b, ctx);
        if b in Bucket(e, init, p) {
          var r :| r in init && PhaseOf(e, r) == Some(p) && Matches(e, r, ctx);
          assert r in rules;
        } else {
          assert last in rules;
        }
      }
      if exists r :: r in rules && PhaseOf(e, r) == Some(p) && Matches(e, r, ctx) {
        var r :| r in rules && PhaseOf(e, r) == Some(p) && Matches(e, r, ctx);
        if r in init {
          var b :| b in Bucket(e, init, p) && Matches(e, b, ctx);
          assert b in Bucket(e, rules, p);
        } else {
          assert r == last && Normal(e, last) in Bucket(e, rules, p);
        }
      }
    }
  }

  lemma {:induction false} BucketVerdicts(e: Engine, rules: seq<Rule>, p: Phase)
    requires RulesValid(e, rules)
    ensures forall b :: b in Bucket(e, rules, p) ==> (b.verdict.status == PASSED <==> p == Verification)
  {
    if rules != [] {
      BucketVerdicts(e, rules[..|rules|-1], p);
    }
  }

  ghost predicate SomeMatches(e: Engine, rules: seq<Rule>, p: Phase, ctx: Context) {
    exists r :: r in rules && PhaseOf(e, r) == Some(p) && Matches(e, r, ctx)
  }

  /** The response passes once the rule set is validated. */
  predicate Passes(e: Engine, ctx: Context, s: Spec) {
    Evaluate(e, ctx, Compiled(e, s)).status == PASSED
  }

  /** When a validated rule set lets a response pass, said of the flat rule list: the gates are open, no
      interception or rejection rule matches, and a verification rule does unless the mode is permissive. */
  lemma PassesExactly(e: Engine, ctx: Context, s: Spec)
    requires SpecValid(e, s)
    ensures Passes(e, ctx, s) <==>
            GatesOpen(e, ctx, s.acceptedCodes)
            && !SomeMatches(e, s.rules, Interception, ctx) && !SomeMatches(e, s.rules, Rejection, ctx)
            && (SomeMatches(e, s.rules, Verification, ctx) || s.mode == PERMISSIVE)
  {
    hide Evaluate, FirstMatch, RuleValid;
    BucketMatches(e, s.rules, Interception, ctx);
    BucketMatches(e, s.rules, Rejection, ctx);
    BucketMatches(e, s.rules, Verification, ctx);
    BucketVerdicts(e, s.rules, Interception);
    BucketVerdicts(e, s.rules, Rejection);
    FirstMatchExists(e, Bucket(e, s.rules, Interception), ctx);
    FirstMatchExists(e, Bucket(e, s.rules, Rejection), ctx);
    FirstMatchExists(e, Bucket(e, s.rules, Verification), ctx);
    BucketsDecide(e, ctx, Compiled(e, s));
    assert STRICT[0] != PERMISSIVE[0];
  }

  /** When the buckets let a response pass. */
  lemma BucketsDecide(e: Engine, ctx: Context, t: Spec)
    requires t.initialized
    requires forall b :: b in t.interceptions || b in t.rejections ==> b.verdict.status != PASSED
    ensures Evaluate(e, ctx, t).status == PASSED <==>
            GatesOpen(e, ctx, t.acceptedCodes)
            && FirstMatch(e, t.interceptions, ctx).None? && FirstMatch(e, t.rejections, ctx).None?
            && (FirstMatch(e, t.verifications, ctx).Some? || t.mode == PERMISSIVE)
  {
    hide Matches;
    StatusesDiffer();
  }

  lemma FirstMatchExists(e: Engine, rules: seq<Rule>, ctx: Context)
    ensures FirstMatch(e, rules, ctx).Some? <==> exists b :: b in rules && Matches(e, b, ctx)
  {
    if FirstMatch(e, rules, ctx).None? {
      forall b | b in rules ensures !Matches(e, b, ctx) {
        var i :| 0 <= i < |rules| && rules[i] == b;
      }
    }
  }

  /** Adding an interception or rejection rule anywhere never creates a pass. */
  lemma RejectingRuleNeverPasses(e: Engine, ctx: Context, s: Spec, a: seq<Rule>, r: Rule, b: seq<Rule>)
    requires s.rules == a + b && SpecValid(e, s) && RuleValid(e, r) && PhaseOf(e, r) != Some(Verification)
    ensures var more := s.(rules := a + [r] + b);
            SpecValid(e, more)
            && (Passes(e, ctx, more) ==> Passes(e, ctx, s))
  {
    hide Evaluate, Compiled;
    var more := s.(rules := a + [r] + b);
    InsertedValid(e, a, r, b);
    PassesExactly(e, ctx, s);
    PassesExactly(e, ctx, more);
    InsertedMatches(e, a, r, b, ctx, Interception);
    InsertedMatches(e, a, r, b, ctx, Rejection);
    InsertedMatches(e, a, r, b, ctx, Verification);
  }

  /** Adding a verification rule anywhere never destroys a pass, in either mode. */
  lemma VerifyingRuleNeverFails(e: Engine, ctx: Context, s: Spec, a: seq<Rule>, r: Rule, b: seq<Rule>)
    requires s.rules == a + b && SpecValid(e, s) && RuleValid(e, r) && PhaseOf(e, r) == Some(Verification)
    ensures var more := s.(rules := a + [r] + b);
            SpecValid(e, more)
            && (Passes(e, ctx, s) ==> Passes(e, ctx, more))
  {
    hide Evaluate, Compiled;
    var more := s.(rules := a + [r] + b);
    InsertedValid(e, a, r, b);
    PassesExactly(e, ctx, s);
    PassesExactly(e, ctx, more);
    InsertedMatches(e, a, r, b, ctx, Interception);
    InsertedMatches(e, a, r, b, ctx, Rejection);
    InsertedMatches(e, a, r, b, ctx, Verification);
  }

  lemma InsertedValid(e: Engine, a: seq<Rule>, r: Rule, b: seq<Rule>)
    requires RulesValid(e, a + b) && RuleValid(e, r)
    ensures RulesValid(e, a + [r] + b)
  {
    hide RuleValid;
    var more := a + [r] + b;
    forall i | 0 <= i < |more| ensures RuleValid(e, more[i]) {
      assert i < |a| ==> more[i] == (a + b)[i];
      assert i > |a| ==> more[i] == (a + b)[i-1];
    }
  }

  lemma InsertedMatches(e: Engine, a: seq<Rule>, r: Rule, b: seq<Rule>, ctx: Context, p: Phase)
    ensures SomeMatches(e, a + [r] + b, p, ctx) <==>
            SomeMatches(e, a + b, p, ctx) || (PhaseOf(e, r) == Some(p) && Matches(e, r, ctx))
  {
    hide PhaseOf, Matches;
    forall x ensures x in a + [r] + b <==> x in a + b || x == r {
    }
    if SomeMatches(e, a + b, p, ctx) {
      var x :| x in a + b && PhaseOf(e, x) == Some(p) && Matches(e, x, ctx);
      assert x in a + [r] + b;
    }
    if PhaseOf(e, r) == Some(p) && Matches(e, r, ctx) {
      assert r in a + [r] + b;
    }
  }

  // ----- reordering -----

  /** The same rules phase by phase, in the same order; rules of no phase count as a phase of their own. */
  ghost predicate SamePhases(e: Engine, a: seq<Rule>, b: seq<Rule>) {
    (forall p :: OfPhase(e, a, p) == OfPhase(e, b, p)) && Phaseless(e, a) == Phaseless(e, b)
  }

  function Phaseless(e: Engine, rules: seq<Rule>): seq<Rule> {
    if rules == [] then []
    else
      var last := rules[|rules|-1];
      Phaseless(e, rules[..|rules|-1]) + if PhaseOf(e, last).None? then [last] else []
  }

  lemma {:induction false} PhasesCover(e: Engine, rules: seq<Rule>, r: Rule)
    ensures r in rules <==>
            if PhaseOf(e, r).Some? then r in OfPhase(e, rules, PhaseOf(e, r).value) else r in Phaseless(e, rules)
  {
    if rules != [] {
      PhasesCover(e, rules[..|rules|-1], r);
      assert rules == rules[..|rules|-1] + [rules[|rules|-1]];
    }
  }

  lemma {:induction false} OfPhaseHasPhase(e: Engine, rules: seq<Rule>, p: Phase)
    ensures forall i :: 0 <= i < |OfPhase(e, rules, p)| ==> PhaseOf(e, OfPhase(e, rules, p)[i]) == Some(p)
  {
    if rules != [] {
      OfPhaseHasPhase(e, rules[..|rules|-1], p);
    }
  }

  function NormalAll(e: Engine, rules: seq<Rule>): seq<Rule>
    requires forall i :: 0 <= i < |rules| ==> PhaseOf(e, rules[i]).Some?
  {
    if rules == [] then [] else NormalAll(e, rules[..|rules|-1]) + [Normal(e, rules[|rules|-1])]
  }

  /** A bucket holds the normalized copies of the rules of its phase. */
  lemma {:induction false} BucketIsNormal(e: Engine, rules: seq<Rule>, p: Phase)
    ensures forall i :: 0 <= i < |OfPhase(e, rules, p)| ==> PhaseOf(e, OfPhase(e, rules, p)[i]).Some?
    ensures Bucket(e, rules, p) == NormalAll(e, OfPhase(e, rules, p))
  {
    OfPhaseHasPhase(e, rules, p);
    if rules != [] {
      var init, last := rules[..|rules|-1], rules[|rules|-1];
      BucketIsNormal(e, init, p);
      var kept := OfPhase(e, rules, p);
      if PhaseOf(e, last) == Some(p) {
        assert kept == OfPhase(e, init, p) + [last];
        assert kept[..|kept|-1] == OfPhase(e, init, p);
      } else {
        assert kept == OfPhase(e, init, p) && Bucket(e, rules, p) == Bucket(e, init, p);
      }
    }
  }

  /** Any reordering that keeps the order inside each phase is valid exactly when the original is, and
      evaluates alike on every response. */
  lemma ReorderingKeepsMeaning(e: Engine, s: Spec, rules: seq<Rule>, ctx: Context)
    requires SamePhases(e, s.rules, rules)
    ensures SpecValid(e, s.(rules := rules)) <==> SpecValid(e, s)
    ensures Evaluate(e, ctx, Compiled(e, s.(rules := rules))) == Evaluate(e, ctx, Compiled(e, s))
  {
    hide Evaluate;
    forall r ensures r in s.rules <==> r in rules {
      PhasesCover(e, s.rules, r);
      PhasesCover(e, rules, r);
    }
    if RulesValid(e, s.rules) {
      ValidByMember(e, s.rules, rules);
    }
    if RulesValid(e, rules) {
      ValidByMember(e, rules, s.rules);
    }
    forall p ensures Bucket(e, rules, p) == Bucket(e, s.rules, p) {
      BucketIsNormal(e, rules, p);
      BucketIsNormal(e, s.rules, p);
    }
    SameBuckets(e, ctx, Compiled(e, s), Compiled(e, s.(rules := rules)));
  }

  lemma ValidByMember(e: Engine, a: seq<Rule>, b: seq<Rule>)
    requires (forall r :: r in a <==> r in b) && RulesValid(e, a)
    ensures RulesValid(e, b)
  {
    hide RuleValid;
    forall i | 0 <= i < |b| ensures RuleValid(e, b[i]) {
      assert b[i] in a;
      var j :| 0 <= j < |a| && a[j] == b[i];
    }
  }

  /** Evaluation reads the buckets, not the flat list. */
  lemma SameBuckets(e: Engine, ctx: Context, s: Spec, t: Spec)
    requires t == s.(rules := t.rules)
    ensures Evaluate(e, ctx, t) == Evaluate(e, ctx, s)
  {
  }
}
