/** The scoring policy, and what it does to the score of a candidate as samples come in. */
module Policy {
  import opened Base
  import opened Types
  import opened Score
  import opened History

  datatype Config = Config(
    historyCapacity: int,
    decayLambda: real,
    minServableScore: real,
    minObservations: int,
    maxAbsentCycles: int,
    weights: Option<map<Bytes, real>>)

  const DEFAULT_WEIGHTS: map<Bytes, real> := map[
    "none" := 1.0, "region_blocked" := 0.0, "target_denied" := 0.0, "conn_refused" := 0.1,
    "conn_reset" := 0.1, "tls_error" := 0.1, "reality_error" := 0.1, "config_error" := 0.1,
    "target_other" := 0.1, "timeout" := 0.4, "proxy_rate_limited" := 0.5,
    "target_rate_limited" := 0.5, "target_error" := 0.5, "proxy_error" := 0.3]

  /** DefaultScoringConfig. */
  const DEFAULT_CONFIG := Config(10, 0.75, 0.65, 1, 2, Some(DEFAULT_WEIGHTS))

  predicate ConfigValid(c: Config) {
    && c.historyCapacity > 0 && 0.0 < c.decayLambda <= 1.0 && c.minServableScore > 0.0
    && c.minObservations > 0 && c.maxAbsentCycles > 0 && c.weights.Some?
  }

  /** NewWithConfig: what is missing or out of range is replaced by the default. */
  function Sanitized(c: Config): (r: Config)
    ensures ConfigValid(r) && (ConfigValid(c) ==> r == c)
  {
    Config(if c.historyCapacity <= 0 then 10 else c.historyCapacity,
           Decay(c.decayLambda),
           if c.minServableScore <= 0.0 then 0.65 else c.minServableScore,
           if c.minObservations <= 0 then 1 else c.minObservations,
           if c.maxAbsentCycles <= 0 then 2 else c.maxAbsentCycles,
           if c.weights.None? then Some(DEFAULT_WEIGHTS) else c.weights)
  }

  /** The score of a history under a policy. */
  function ScoreUnder(c: Config, h: Hist): real
    requires c.weights.Some? && HistValid(h)
  {
    HistoryScore(c.decayLambda, c.weights.value, "gemini", View(h))
  }

  predicate WeightsInUnit(weights: map<Bytes, real>) {
    forall k :: k in weights ==> 0.0 <= weights[k] <= 1.0
  }

  lemma WeightsBounded(weights: map<Bytes, real>, v: seq<Sample>)
    requires WeightsInUnit(weights)
    ensures forall i :: 0 <= i < |v| ==> 0.0 <= WeightsOf(weights, "gemini", v)[i] <= 1.0
  {
  }

  /** The score never leaves the range of the weights of its window. */
  lemma ScoreInRange(c: Config, h: Hist, lo: real, hi: real)
    requires c.weights.Some? && HistValid(h) && h.count > 0
    requires forall i :: 0 <= i < h.count ==> lo <= SampleWeight(c.weights.value, "gemini", View(h)[i]) <= hi
    ensures lo <= ScoreUnder(c, h) <= hi
  {
    ScoreBetween(Decay(c.decayLambda), WeightsOf(c.weights.value, "gemini", View(h)), lo, hi);
  }

  /** Pushing a pass never lowers the score, whether or not the buffer is full. */
  lemma PassNeverLowersScore(c: Config, h: Hist, m: Sample)
    requires c.weights.Some? && WeightsInUnit(c.weights.value) && HistValid(h) && m.status == PASSED
    ensures ScoreUnder(c, Pushed(h, m)) >= ScoreUnder(c, h)
  {
    var weights, v := c.weights.value, View(h);
    var ws := WeightsOf(weights, "gemini", v);
    WeightsBounded(weights, v);
    PushedView(h, m);
    if h.count < h.capacity {
      assert WeightsOf(weights, "gemini", v + [m]) == ws + [1.0];
      PassAppended(Decay(c.decayLambda), ws);
    } else {
      assert WeightsOf(weights, "gemini", LastOf(v + [m], h.capacity)) == ws[1..] + [1.0];
      PassReplacesOldest(Decay(c.decayLambda), ws);
    }
  }

  // ----- the default policy -----

  lemma DefaultWeightsInUnit()
    ensures WeightsInUnit(DEFAULT_WEIGHTS)
  {
  }

  lemma DefaultTotals()
    ensures Total(0.75, 2) == 1.75 && Total(0.75, 4) == 2.734375 && 3.77 < Total(0.75, 10) < 3.78
  {
    assert Total(0.75, 0) == 0.0 && Total(0.75, 1) == 1.0;
    assert Total(0.75, 2) == 1.75 && Total(0.75, 3) == 2.3125;
    assert Total(0.75, 4) == 2.734375;
    assert Total(0.75, 5) == 3.05078125;
    assert Total(0.75, 6) == 3.2880859375;
    assert 3.466 < Total(0.75, 7) < 3.4661;
    assert 3.599 < Total(0.75, 8) < 3.6;
    assert 3.699 < Total(0.75, 9) < 3.7;
  }

  /** The last n samples of a view, or all of them if there are fewer, have a property. */
  ghost predicate EndsIn(p: Sample -> bool, v: seq<Sample>, n: nat) {
    forall i :: 0 <= i < |v| && |v| - n <= i ==> p(v[i])
  }

  /** A push of a sample with the property makes the run longer. */
  lemma PushedEndsIn(p: Sample -> bool, h: Hist, m: Sample, n: nat)
    requires HistValid(h) && EndsIn(p, View(h), n) && p(m)
    ensures EndsIn(p, View(Pushed(h, m)), n + 1)
  {
    PushedView(h, m);
  }

  predicate IsLowFailure(m: Sample) {
    m.status == FAILED && SampleWeight(DEFAULT_WEIGHTS, "gemini", m) <= 0.1
  }

  /** Which failures the default policy weighs that low: all but those that say little about the candidate. */
  lemma LowFailures(category: Bytes)
    ensures OutcomeWeight(DEFAULT_WEIGHTS, FAILED, category) <= 0.1 <==>
            category !in {"timeout", "proxy_error", "proxy_rate_limited", "target_rate_limited", "target_error", "none"}
  {
    StatusesDiffer();
  }

  /** Four passes in a row reach the threshold, whatever came before. */
  lemma FourPassesReachThreshold(h: Hist)
    requires HistValid(h) && 0 < h.count && h.capacity <= 10 && EndsIn(IsPassed, View(h), 4)
    ensures ScoreUnder(DEFAULT_CONFIG, h) >= DEFAULT_CONFIG.minServableScore
  {
    var ws := WeightsOf(DEFAULT_WEIGHTS, "gemini", View(h));
    DefaultWeightsInUnit();
    WeightsBounded(DEFAULT_WEIGHTS, View(h));
    assert forall i :: 0 <= i < |ws| && |ws| - 4 <= i ==> IsPassed(View(h)[i]) && ws[i] == 1.0;
    if |ws| < 4 {
      ScoreAtLeast(0.75, ws, 1.0);
    } else {
      FourFullWeights(ws[..|ws|-4], ws[|ws|-4..]);
      assert ws == ws[..|ws|-4] + ws[|ws|-4..];
    }
  }

  lemma FourFullWeights(earlier: seq<real>, recent: seq<real>)
    requires |recent| == 4 && |earlier| <= 6
    requires forall i :: 0 <= i < |earlier| ==> 0.0 <= earlier[i] <= 1.0
    requires forall i :: 0 <= i < 4 ==> recent[i] == 1.0
    ensures ScoreOf(0.75, earlier + recent) >= 0.65
  {
    PassesWeigh(0.75, earlier, recent);
    DefaultTotals();
    TotalGrows(0.75, |earlier| + 4, 10);
    TotalGrows(0.75, 4, |earlier| + 4);
    HighQuotient(Weighed(0.75, earlier + recent), Total(0.75, |earlier| + 4));
  }

  lemma HighQuotient(n: real, t: real)
    requires 2.7 <= t <= 3.78 && n >= 2.7
    ensures n / t >= 0.65
  {
    QuotientAtLeast(n, t, 0.65);
  }

  /** Two failures of weight at most 0.1 in a row fall below it. */
  lemma TwoFailuresMissThreshold(h: Hist)
    requires HistValid(h) && 0 < h.count && h.capacity <= 10 && EndsIn(IsLowFailure, View(h), 2)
    ensures ScoreUnder(DEFAULT_CONFIG, h) < DEFAULT_CONFIG.minServableScore
  {
    var ws := WeightsOf(DEFAULT_WEIGHTS, "gemini", View(h));
    DefaultWeightsInUnit();
    WeightsBounded(DEFAULT_WEIGHTS, View(h));
    assert forall i :: 0 <= i < |ws| && |ws| - 2 <= i ==> IsLowFailure(View(h)[i]) && ws[i] <= 0.1;
    if |ws| < 2 {
      ScoreBetween(0.75, ws, 0.0, 0.1);
    } else {
      TwoLowWeights(ws[..|ws|-2], ws[|ws|-2..]);
      assert ws == ws[..|ws|-2] + ws[|ws|-2..];
    }
  }

  lemma TwoLowWeights(earlier: seq<real>, recent: seq<real>)
    requires |recent| == 2 && |earlier| <= 8
    requires forall i :: 0 <= i < |earlier| ==> 0.0 <= earlier[i] <= 1.0
    requires forall i :: 0 <= i < 2 ==> recent[i] <= 0.1
    ensures ScoreOf(0.75, earlier + recent) < 0.65
  {
    FailuresWeigh(0.75, earlier, recent, 0.1);
    DefaultTotals();
    TotalGrows(0.75, |earlier| + 2, 10);
    TotalGrows(0.75, 2, |earlier| + 2);
    LowQuotient(Weighed(0.75, earlier + recent), Total(0.75, |earlier| + 2));
  }

  lemma LowQuotient(n: real, t: real)
    requires 1.75 <= t <= 3.78 && n <= t - 1.75 + 0.1 * 1.75
    ensures n / t < 0.65
  {
    QuotientAtMost(n, t, 0.64);
  }
}
