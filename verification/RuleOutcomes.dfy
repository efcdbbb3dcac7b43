/** The whole outcome of an evaluation under a validated rule set, said of the response and of the flat rule
    list. */
module RuleOutcomes {
  import opened Base
  import opened Types
  import opened RuleEngine

  function OutcomeOf(e: Engine, ctx: Context, s: Spec): Outcome {
    Evaluate(e, ctx, Compiled(e, s))
  }

  /** The rule at position `i` of the list is the first one of a phase that matches. */
  predicate FirstOf(e: Engine, rules: seq<Rule>, p: Phase, ctx: Context, i: nat) {
    && i < |rules| && PhaseOf(e, rules[i]) == Some(p) && Matches(e, rules[i], ctx)
    && forall j :: 0 <= j < i && PhaseOf(e, rules[j]) == Some(p) ==> !Matches(e, rules[j], ctx)
  }

  lemma {:induction false} FirstMatchAppended(e: Engine, rules: seq<Rule>, r: Rule, ctx: Context)
    ensures FirstMatch(e, rules + [r], ctx) ==
            if FirstMatch(e, rules, ctx).Some? then FirstMatch(e, rules, ctx)
            else if Matches(e, r, ctx) then Some(r) else None
  {
    hide Matches;
    var more := rules + [r];
    if FirstMatch(e, rules, ctx).Some? {
      var i: nat :| FirstAt(e, rules, ctx, i);
      assert FirstAt(e, more, ctx, i);
    } else if Matches(e, r, ctx) {
      assert FirstAt(e, more, ctx, |rules|);
    } else {
      assert forall i :: 0 <= i < |more| ==> !Matches(e, more[i], ctx);
    }
  }

  lemma NormalMatches(e: Engine, r: Rule, ctx: Context)
    requires PhaseOf(e, r).Some?
    ensures Matches(e, Normal(e, r), ctx) == Matches(e, r, ctx)
  {
  }

  lemma BucketGrows(e: Engine, rules: seq<Rule>, p: Phase)
    requires rules != []
    ensures var last := rules[|rules|-1];
            Bucket(e, rules, p) ==
            if PhaseOf(e, last) == Some(p) then Bucket(e, rules[..|rules|-1], p) + [Normal(e, last)]
            else Bucket(e, rules[..|rules|-1], p)
  {
  }

  /** No rule of a phase matches. */
  predicate NoneOf(e: Engine, rules: seq<Rule>, p: Phase, ctx: Context) {
    forall j :: 0 <= j < |rules| && PhaseOf(e, rules[j]) == Some(p) ==> !Matches(e, rules[j], ctx)
  }

  lemma EmptyBucket(e: Engine, p: Phase, ctx: Context)
    ensures FirstMatch(e, Bucket(e, [], p), ctx).None? && NoneOf(e, [], p, ctx)
  {
  }

  lemma FirstInside(e: Engine, rules: seq<Rule>, p: Phase, ctx: Context, i: nat)
    requires FirstOf(e, rules, p, ctx, i)
    ensures i < |rules|
  {
  }

  /** What one more rule at the end changes. */
  lemma FirstGrows(e: Engine, rules: seq<Rule>, p: Phase, ctx: Context)
    requires rules != []
    ensures var n, hit := |rules| - 1, PhaseOf(e, rules[|rules|-1]) == Some(p) && Matches(e, rules[|rules|-1], ctx);
            && (NoneOf(e, rules[..n], p, ctx) && hit ==> FirstOf(e, rules, p, ctx, n))
            && (NoneOf(e, rules[..n], p, ctx) && !hit ==> NoneOf(e, rules, p, ctx))
            && forall i: nat :: FirstOf(e, rules[..n], p, ctx, i) ==> FirstOf(e, rules, p, ctx, i)
  {
    hide Matches, PhaseOf;
  }

  /** The first match in the bucket of a phase is the copy of the first rule of the phase that matches. */
  lemma {:induction false} BucketFirst(e: Engine, rules: seq<Rule>, p: Phase, ctx: Context) returns (at: Option<nat>)
    ensures at.None? ==> NoneOf(e, rules, p, ctx) && FirstMatch(e, Bucket(e, rules, p), ctx).None?
    ensures at.Some? ==> FirstOf(e, rules, p, ctx, at.value)
    ensures at.Some? ==> FirstMatch(e, Bucket(e, rules, p), ctx) == Some(Normal(e, rules[at.value]))
  {
    hide FirstMatch, Normal, PhaseOf, Matches, Bucket, FirstOf, NoneOf;
    if rules == [] {
      EmptyBucket(e, p, ctx);
      at := None;
    } else {
      var n := |rules| - 1;
      var init, last := rules[..n], rules[n];
      at := BucketFirst(e, init, p, ctx);
      BucketGrows(e, rules, p);
      FirstGrows(e, rules, p, ctx);
      assert at.Some? ==> at.value < n by { if at.Some? { FirstInside(e, init, p, ctx, at.value); } }
      if PhaseOf(e, last) == Some(p) {
        FirstMatchAppended(e, Bucket(e, init, p), Normal(e, last), ctx);
        NormalMatches(e, last, ctx);
        if at.None? && Matches(e, last, ctx) {
          at := Some(n);
        }
      }
    }
  }

  /** Validation leaves the verdict of a rule that does not pass alone. */
  lemma VerdictKept(e: Engine, r: Rule)
    requires RuleValid(e, r) && PhaseOf(e, r) != Some(Verification)
    ensures Normal(e, r).verdict == r.verdict
  {
  }

  lemma ReasonKept(e: Engine, r: Rule)
    requires PhaseOf(e, r).Some?
    ensures Normal(e, r).verdict.reason == r.verdict.reason
  {
  }

  // ----- the gates -----

  /** What the answer to a response has in common whatever rules there are. */
  predicate Answers(o: Outcome, ctx: Context, status: Bytes, category: Bytes, retryable: bool) {
    && o.status == status && o.category == category && o.statusCode == ctx.statusCode && o.retryable == retryable
    && (ctx.latency > 0 ==> o.latency == ctx.latency) && (ctx.latency <= 0 ==> o.latency == 1)
  }

  /** Some status codes decide alone: 429 and 503 are to be tried again, 500, 502 and 504 are not, and 403 is
      a denial. A delay is asked for with 429 only, and only these two answers may be retried. */
  lemma StatusDecides(e: Engine, ctx: Context, s: Spec)
    ensures var o, code := OutcomeOf(e, ctx, s), ctx.statusCode;
            && (code == 429 ==> Answers(o, ctx, INCONCLUSIVE, "target_rate_limited", true))
            && (code == 503 ==> Answers(o, ctx, INCONCLUSIVE, "target_error", true))
            && (code == 500 || code == 502 || code == 504 ==> Answers(o, ctx, INCONCLUSIVE, "target_error", false))
            && (code == 403 ==> Answers(o, ctx, FAILED, "target_denied", false))
            && (o.retryable <==> code == 429 || code == 503)
            && o.retryAfter == if code == 429 then e.retryAfter(ctx.headers) else None
  {
    hide FirstMatch;
  }

  /** The response is not decided by its status code alone. */
  predicate Undecided(code: int) {
    code !in {429, 503, 500, 502, 504, 403}
  }

  predicate Accepted(s: Spec, code: int) {
    if s.acceptedCodes == [] then code == 200 else code in s.acceptedCodes
  }

  /** Other codes that are not accepted fail, and so does a body that shows an interception, before any rule
      is looked at. */
  lemma GatesDecide(e: Engine, ctx: Context, s: Spec)
    requires Undecided(ctx.statusCode)
    ensures var o, detected := OutcomeOf(e, ctx, s), e.detect(ctx.body);
            && (!Accepted(s, ctx.statusCode) ==>
                  Answers(o, ctx, FAILED, "target_other", false)
                  && o.reason == "unexpected HTTP status " + e.number(ctx.statusCode))
            && (Accepted(s, ctx.statusCode) && detected.Some? ==>
                  Answers(o, ctx, FAILED, detected.value.0, false) && o.reason == detected.value.1)
  {
    hide FirstMatch;
  }

  // ----- the rules -----

  predicate Open(e: Engine, ctx: Context, s: Spec) {
    Undecided(ctx.statusCode) && Accepted(s, ctx.statusCode) && e.detect(ctx.body).None?
  }

  lemma OpenIsOpen(e: Engine, ctx: Context, s: Spec)
    ensures Open(e, ctx, s) <==> GatesOpen(e, ctx, s.acceptedCodes)
  {
  }

  predicate AnswersVerdict(o: Outcome, ctx: Context, v: Verdict) {
    Answers(o, ctx, v.status, v.category, false) && o.reason == v.reason
  }

  predicate AnswersPass(o: Outcome, ctx: Context, reason: Bytes) {
    Answers(o, ctx, PASSED, NO_ERROR, false) && o.reason == if reason == "" then "ok" else reason
  }

  /** The verdict of an interception or rejection rule, once no earlier phase and no earlier rule of its own
      phase has matched. */
  lemma FirstRejectionDecides(e: Engine, ctx: Context, s: Spec, i: nat)
    requires SpecValid(e, s) && Open(e, ctx, s)
    requires || FirstOf(e, s.rules, Interception, ctx, i)
             || (NoneOf(e, s.rules, Interception, ctx) && FirstOf(e, s.rules, Rejection, ctx, i))
    ensures AnswersVerdict(OutcomeOf(e, ctx, s), ctx, s.rules[i].verdict)
  {
    hide FirstMatch, PhaseOf, Matches, Normal, RuleValid, Bucket;
    OpenIsOpen(e, ctx, s);
    VerdictKept(e, s.rules[i]);
    var a := BucketFirst(e, s.rules, Interception, ctx);
    var b := BucketFirst(e, s.rules, Rejection, ctx);
  }

  /** Without one the first verification rule passes the response with its reason; without any rule that
      matches the mode decides. */
  lemma VerificationDecides(e: Engine, ctx: Context, s: Spec)
    requires SpecValid(e, s) && Open(e, ctx, s)
    requires NoneOf(e, s.rules, Interception, ctx) && NoneOf(e, s.rules, Rejection, ctx)
    ensures forall i: nat :: FirstOf(e, s.rules, Verification, ctx, i) ==>
              AnswersPass(OutcomeOf(e, ctx, s), ctx, s.rules[i].verdict.reason)
    ensures NoneOf(e, s.rules, Verification, ctx) && s.mode == PERMISSIVE ==>
              AnswersPass(OutcomeOf(e, ctx, s), ctx, "ok")
    ensures NoneOf(e, s.rules, Verification, ctx) && s.mode != PERMISSIVE ==>
              Answers(OutcomeOf(e, ctx, s), ctx, FAILED, "target_other", false)
              && OutcomeOf(e, ctx, s).reason == if s.fallbackReason == "" then DEFAULT_FALLBACK else s.fallbackReason
  {
    hide FirstMatch, PhaseOf, Matches, Normal, RuleValid, Bucket;
    OpenIsOpen(e, ctx, s);
    assert STRICT[0] != PERMISSIVE[0];
    var a := BucketFirst(e, s.rules, Interception, ctx);
    var b := BucketFirst(e, s.rules, Rejection, ctx);
    var c := BucketFirst(e, s.rules, Verification, ctx);
    if c.Some? {
      ReasonKept(e, s.rules[c.value]);
    }
  }
}
