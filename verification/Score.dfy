/** The recency-weighted reliability score, over real numbers. */
module Score {
  import opened Base
  import opened Types

  /** The decay that is used for a configured one: values outside (0, 1] are replaced. */
  function Decay(configured: real): (r: real)
    ensures 0.0 < r <= 1.0
  {
    if configured <= 0.0 || configured > 1.0 then 0.75 else configured
  }

  function Pow(x: real, n: nat): real {
    if n == 0 then 1.0 else x * Pow(x, n - 1)
  }

  /** SampleServiceOutcome: the status and category a sample shows for a service. */
  function SampleServiceOutcome(m: Sample, service: Bytes): (Bytes, Bytes) {
    if service == "claude" then
      if m.claudeStatus != "" then (m.claudeStatus, m.claudeCategory)
      else if (m.transportEvidenceKnown && !m.transportOK) || (m.status == FAILED && !IsTargetSpecific(m.category))
      then (m.status, m.category)
      else (INCONCLUSIVE, TIMEOUT)
    else (m.status, m.category)
  }

  function OutcomeWeight(weights: map<Bytes, real>, status: Bytes, category: Bytes): real {
    if status == PASSED then 1.0
    else if category in weights then weights[category]
    else if status == INCONCLUSIVE then 0.4
    else 0.1
  }

  function SampleWeight(weights: map<Bytes, real>, service: Bytes, m: Sample): real {
    var (status, category) := SampleServiceOutcome(m, service);
    OutcomeWeight(weights, status, category)
  }

  function WeightsOf(weights: map<Bytes, real>, service: Bytes, v: seq<Sample>): (ws: seq<real>)
    ensures |ws| == |v| && forall i :: 0 <= i < |v| ==> ws[i] == SampleWeight(weights, service, v[i])
  {
    seq(|v|, i requires 0 <= i < |v| => SampleWeight(weights, service, v[i]))
  }

  /** The weights, newest last, each decayed once per newer weight. */
  function Weighed(decay: real, ws: seq<real>): real {
    if ws == [] then 0.0 else decay * Weighed(decay, ws[..|ws|-1]) + ws[|ws|-1]
  }

  function Total(decay: real, n: nat): (t: real)
    ensures decay > 0.0 && n > 0 ==> t >= 1.0
  {
    if n == 0 then 0.0 else decay * Total(decay, n - 1) + 1.0
  }

  function ScoreOf(decay: real, ws: seq<real>): real
    requires decay > 0.0
  {
    if ws == [] then 0.0 else Weighed(decay, ws) / Total(decay, |ws|)
  }

  /** The score of a history view for a service. */
  function HistoryScore(decay: real, weights: map<Bytes, real>, service: Bytes, v: seq<Sample>): real {
    ScoreOf(Decay(decay), WeightsOf(weights, service, v))
  }

  // ----- the two ways to sum -----

  /** A weight after `n` newer samples. */
  function Faded(decay: real, n: nat, w: real): real {
    Pow(decay, n) * w
  }

  /** The sums in the source run forward and decay every weight by its final distance. */
  function ForwardWeighed(decay: real, ws: seq<real>, k: nat): real
    requires |ws| <= k
  {
    if ws == [] then 0.0
    else ForwardWeighed(decay, ws[..|ws|-1], k) + Faded(decay, k - |ws|, ws[|ws|-1])
  }

  function ForwardTotal(decay: real, n: nat, k: nat): real
    requires n <= k
  {
    if n == 0 then 0.0 else ForwardTotal(decay, n - 1, k) + Pow(decay, k - n)
  }

  lemma ForwardNext(decay: real, ws: seq<real>, i: nat, k: nat)
    requires i < |ws| <= k
    ensures ForwardWeighed(decay, ws[..i+1], k) == ForwardWeighed(decay, ws[..i], k) + Faded(decay, k - 1 - i, ws[i])
    ensures ForwardTotal(decay, i + 1, k) == ForwardTotal(decay, i, k) + Pow(decay, k - 1 - i)
  {
    assert ws[..i+1][..i] == ws[..i];
  }

  lemma {:induction false} ForwardWeighedIs(decay: real, ws: seq<real>, k: nat)
    requires |ws| <= k
    ensures ForwardWeighed(decay, ws, k) == Pow(decay, k - |ws|) * Weighed(decay, ws)
  {
    if ws == [] {
      assert Pow(decay, k) * 0.0 == 0.0;
    } else {
      var init, p := ws[..|ws|-1], Pow(decay, k - |ws|);
      ForwardWeighedIs(decay, init, k);
      Regroup(p, decay, Weighed(decay, init), ws[|ws|-1], Pow(decay, k - |init|), Weighed(decay, ws));
    }
  }

  lemma {:induction false} ForwardTotalIs(decay: real, n: nat, k: nat)
    requires n <= k
    ensures ForwardTotal(decay, n, k) == Pow(decay, k - n) * Total(decay, n)
  {
    if n == 0 {
      assert Pow(decay, k) * 0.0 == 0.0;
    } else {
      ForwardTotalIs(decay, n - 1, k);
      Regroup(Pow(decay, k - n), decay, Total(decay, n - 1), 1.0, Pow(decay, k - n + 1), Total(decay, n));
    }
  }

  lemma Regroup(p: real, x: real, a: real, b: real, q: real, r: real)
    requires q == x * p && r == x * a + b
    ensures q * a + p * b == p * r
  {
    assert p * (x * a) == (x * p) * a;
    assert p * r == p * (x * a) + p * b;
  }

  lemma ForwardIsScore(decay: real, ws: seq<real>)
    requires decay > 0.0
    ensures ForwardWeighed(decay, ws, |ws|) == Weighed(decay, ws)
    ensures ForwardTotal(decay, |ws|, |ws|) == Total(decay, |ws|)
  {
    ForwardWeighedIs(decay, ws, |ws|);
    ForwardTotalIs(decay, |ws|, |ws|);
  }

  // ----- bounds -----

  lemma SumsUnfold(decay: real, ws: seq<real>)
    requires ws != []
    ensures Weighed(decay, ws) == decay * Weighed(decay, ws[..|ws|-1]) + ws[|ws|-1]
    ensures Total(decay, |ws|) == decay * Total(decay, |ws| - 1) + 1.0
  {
  }

  lemma SumsOfNothing(decay: real, bound: real)
    ensures Weighed(decay, []) == 0.0 && bound * Total(decay, 0) == 0.0
  {
  }

  lemma {:induction false} WeighedAtMost(decay: real, ws: seq<real>, hi: real)
    requires 0.0 < decay && forall i :: 0 <= i < |ws| ==> ws[i] <= hi
    ensures Weighed(decay, ws) <= hi * Total(decay, |ws|)
  {
    hide Weighed, Total;
    if ws == [] {
      SumsOfNothing(decay, hi);
    } else {
      var init := ws[..|ws|-1];
      SumsUnfold(decay, ws);
      WeighedAtMost(decay, init, hi);
      AtMostStep(decay, Weighed(decay, init), Total(decay, |init|), ws[|ws|-1], hi,
                 Weighed(decay, ws), Total(decay, |ws|));
    }
  }

  lemma AtMostStep(x: real, n: real, t: real, w: real, hi: real, n': real, t': real)
    requires 0.0 < x && n <= hi * t && w <= hi && n' == x * n + w && t' == x * t + 1.0
    ensures n' <= hi * t'
  {
    ScaleBoth(x, n, hi * t);
    assert hi * t' == x * (hi * t) + hi;
  }

  lemma {:induction false} WeighedAtLeast(decay: real, ws: seq<real>, lo: real)
    requires 0.0 < decay && forall i :: 0 <= i < |ws| ==> lo <= ws[i]
    ensures lo * Total(decay, |ws|) <= Weighed(decay, ws)
  {
    hide Weighed, Total;
    if ws == [] {
      SumsOfNothing(decay, lo);
    } else {
      var init := ws[..|ws|-1];
      SumsUnfold(decay, ws);
      WeighedAtLeast(decay, init, lo);
      AtLeastStep(decay, Weighed(decay, init), Total(decay, |init|), ws[|ws|-1], lo,
                  Weighed(decay, ws), Total(decay, |ws|));
    }
  }

  lemma AtLeastStep(x: real, n: real, t: real, w: real, lo: real, n': real, t': real)
    requires 0.0 < x && lo * t <= n && lo <= w && n' == x * n + w && t' == x * t + 1.0
    ensures lo * t' <= n'
  {
    ScaleBoth(x, lo * t, n);
    assert lo * t' == x * (lo * t) + lo;
  }

  lemma ScaleBoth(x: real, a: real, b: real)
    requires 0.0 <= x && a <= b
    ensures x * a <= x * b
  {
    assert x * (b - a) >= 0.0;
  }

  lemma QuotientAtMost(n: real, t: real, hi: real)
    requires t > 0.0
    ensures n <= hi * t <==> n / t <= hi
  {
    var q := n / t;
    assert n == q * t;
    if q <= hi {
      ScaleBoth(t, q, hi);
    } else {
      assert (q - hi) * t > 0.0;
    }
  }

  lemma QuotientAtLeast(n: real, t: real, lo: real)
    requires t > 0.0
    ensures lo * t <= n <==> lo <= n / t
  {
    var q := n / t;
    assert n == q * t;
    if lo <= q {
      ScaleBoth(t, lo, q);
    } else {
      assert (lo - q) * t > 0.0;
    }
  }

  /** The score lies between the least and the greatest weight in the window. */
  lemma ScoreBetween(decay: real, ws: seq<real>, lo: real, hi: real)
    requires 0.0 < decay && ws != [] && forall i :: 0 <= i < |ws| ==> lo <= ws[i] <= hi
    ensures lo <= ScoreOf(decay, ws) <= hi
  {
    ScoreAtLeast(decay, ws, lo);
    WeighedAtMost(decay, ws, hi);
    QuotientAtMost(Weighed(decay, ws), Total(decay, |ws|), hi);
  }

  lemma ScoreAtLeast(decay: real, ws: seq<real>, lo: real)
    requires 0.0 < decay && ws != [] && forall i :: 0 <= i < |ws| ==> lo <= ws[i]
    ensures lo <= ScoreOf(decay, ws)
  {
    WeighedAtLeast(decay, ws, lo);
    QuotientAtLeast(Weighed(decay, ws), Total(decay, |ws|), lo);
  }

  // ----- splitting a window -----

  /** The newer part counts in full, the older part decayed by its length. */
  lemma {:induction false} WeighedSplit(decay: real, earlier: seq<real>, recent: seq<real>)
    ensures Weighed(decay, earlier + recent) ==
            Pow(decay, |recent|) * Weighed(decay, earlier) + Weighed(decay, recent)
  {
    hide Weighed, Total;
    if recent == [] {
      assert earlier + recent == earlier;
      SumsOfNothing(decay, 1.0);
    } else {
      var init := recent[..|recent|-1];
      SumsUnfold(decay, recent);
      SumsUnfold(decay, earlier + recent);
      WeighedSplit(decay, earlier, init);
      assert (earlier + recent)[..|earlier + recent|-1] == earlier + init;
      SplitStep(decay, Pow(decay, |init|), Weighed(decay, earlier), Weighed(decay, init), recent[|recent|-1],
                Pow(decay, |recent|), Weighed(decay, earlier + init),
                Weighed(decay, earlier + recent), Weighed(decay, recent));
    }
  }

  lemma SplitStep(x: real, q: real, w: real, r: real, v: real, p: real, s: real, a: real, b: real)
    requires p == x * q && s == q * w + r && a == x * s + v && b == x * r + v
    ensures a == p * w + b
  {
    assert x * s == x * (q * w) + x * r;
    assert x * (q * w) == (x * q) * w;
  }

  /** Leaving out the older part of a window. */
  lemma {:induction false} RecentAtLeast(decay: real, earlier: seq<real>, recent: seq<real>)
    requires 0.0 < decay && forall i :: 0 <= i < |earlier| ==> 0.0 <= earlier[i]
    ensures Weighed(decay, recent) <= Weighed(decay, earlier + recent)
  {
    if recent == [] {
      assert earlier + recent == earlier;
      NonNegativeWeighed(decay, earlier);
    } else {
      var init := recent[..|recent|-1];
      assert (earlier + recent)[..|earlier + recent|-1] == earlier + init;
      RecentAtLeast(decay, earlier, init);
      ScaleBoth(decay, Weighed(decay, init), Weighed(decay, earlier + init));
    }
  }

  lemma {:induction false} RecentAtMost(decay: real, earlier: seq<real>, recent: seq<real>)
    requires 0.0 < decay && forall i :: 0 <= i < |earlier| ==> 0.0 <= earlier[i] <= 1.0
    ensures Weighed(decay, earlier + recent) - Weighed(decay, recent) <=
            Total(decay, |earlier| + |recent|) - Total(decay, |recent|)
  {
    if recent == [] {
      assert earlier + recent == earlier;
      AtMostTotal(decay, earlier);
    } else {
      var init := recent[..|recent|-1];
      assert (earlier + recent)[..|earlier + recent|-1] == earlier + init;
      RecentAtMost(decay, earlier, init);
      ExcessStep(decay, Weighed(decay, earlier + init), Weighed(decay, init),
                 Total(decay, |earlier| + |init|), Total(decay, |init|), recent[|recent|-1]);
    }
  }

  lemma ExcessStep(x: real, a: real, b: real, c: real, d: real, v: real)
    requires 0.0 < x && a - b <= c - d
    ensures (x * a + v) - (x * b + v) <= (x * c + 1.0) - (x * d + 1.0)
  {
    ScaleBoth(x, a - b, c - d);
  }

  lemma AtMostTotal(decay: real, ws: seq<real>)
    requires 0.0 < decay && forall i :: 0 <= i < |ws| ==> 0.0 <= ws[i] <= 1.0
    ensures Weighed(decay, ws) <= Total(decay, |ws|)
  {
    WeighedAtMost(decay, ws, 1.0);
  }

  lemma {:induction false} TotalIsGeometric(decay: real, n: nat)
    ensures (1.0 - decay) * Total(decay, n) == 1.0 - Pow(decay, n)
  {
    if n > 0 {
      TotalIsGeometric(decay, n - 1);
      assert (1.0 - decay) * (decay * Total(decay, n - 1)) == decay * ((1.0 - decay) * Total(decay, n - 1));
    }
  }

  lemma {:induction false} PowPositive(decay: real, n: nat)
    requires 0.0 < decay
    ensures Pow(decay, n) > 0.0
  {
    if n > 0 {
      PowPositive(decay, n - 1);
    }
  }

  lemma {:induction false} TotalGrows(decay: real, m: nat, n: nat)
    requires 0.0 < decay && m <= n
    ensures Total(decay, m) <= Total(decay, n)
  {
    if m > 0 {
      TotalGrows(decay, m - 1, n - 1);
      GrowStep(decay, Total(decay, m - 1), Total(decay, n - 1), Total(decay, m), Total(decay, n));
    } else if n > 0 {
      assert Total(decay, n) >= 1.0;
    }
  }

  lemma GrowStep(x: real, a: real, b: real, a': real, b': real)
    requires 0.0 < x && a <= b && a' == x * a + 1.0 && b' == x * b + 1.0
    ensures a' <= b'
  {
    ScaleBoth(x, a, b);
  }

  // ----- a pass never lowers the score -----

  lemma Cancel(x: real, y: real, b: real)
    requires b > 0.0 && x * b <= y * b
    ensures x <= y
  {
    assert (y - x) * b >= 0.0;
  }

  lemma QuotientsOrdered(a: real, b: real, c: real, d: real)
    requires b > 0.0 && d > 0.0 && a * d <= c * b
    ensures a / b <= c / d
  {
    var q := a / b;
    assert a == q * b;
    assert (q * d) * b == a * d;
    Cancel(q * d, c, b);
    QuotientAtLeast(c, d, q);
  }

  /** While the window grows. */
  lemma PassAppended(decay: real, ws: seq<real>)
    requires 0.0 < decay <= 1.0 && forall i :: 0 <= i < |ws| ==> 0.0 <= ws[i] <= 1.0
    ensures ScoreOf(decay, ws) <= ScoreOf(decay, ws + [1.0])
  {
    hide Weighed, Total;
    var n, t := Weighed(decay, ws), Total(decay, |ws|);
    assert (ws + [1.0])[..|ws|] == ws;
    SumsUnfold(decay, ws + [1.0]);
    if ws == [] {
      ScoreAtLeast(decay, ws + [1.0], 1.0);
    } else {
      AtMostTotal(decay, ws);
      PassAppendedStep(decay, n, t, Weighed(decay, ws + [1.0]), Total(decay, |ws| + 1));
    }
  }

  lemma PassAppendedStep(x: real, n: real, t: real, n': real, t': real)
    requires 0.0 < x && 0.0 < t && n <= t && n' == x * n + 1.0 && t' == x * t + 1.0
    ensures t' > 0.0 && n / t <= n' / t'
  {
    assert x * t > 0.0;
    assert n * t' == x * (n * t) + n;
    assert n' * t == x * (n * t) + t;
    QuotientsOrdered(n, t, n', t');
  }

  /** Once the window is full and drops its oldest weight. */
  lemma PassReplacesOldest(decay: real, ws: seq<real>)
    requires 0.0 < decay <= 1.0 && ws != [] && forall i :: 0 <= i < |ws| ==> 0.0 <= ws[i] <= 1.0
    ensures ScoreOf(decay, ws) <= ScoreOf(decay, ws[1..] + [1.0])
  {
    var tail, k := ws[1..], |ws|;
    var n, n', t := Weighed(decay, ws), Weighed(decay, tail + [1.0]), Total(decay, k);
    assert (tail + [1.0])[..k-1] == tail;
    var p, w, rest := OldestSplit(decay, ws);
    AtMostTotal(decay, ws);
    TotalIsGeometric(decay, k);
    PowPositive(decay, k);
    OldestDropped(decay, p, Pow(decay, k), n, t, w, rest, n');
    QuotientGrows(n, n', t);
  }

  lemma OldestSplit(decay: real, ws: seq<real>) returns (p: real, w: real, rest: real)
    requires ws != []
    ensures p == Pow(decay, |ws| - 1) && w == ws[0] && rest == Weighed(decay, ws[1..])
    ensures Weighed(decay, ws) == p * w + rest
  {
    assert ws == [ws[0]] + ws[1..] && [ws[0]][..0] == [];
    WeighedSplit(decay, [ws[0]], ws[1..]);
    p, w, rest := Pow(decay, |ws| - 1), Weighed(decay, [ws[0]]), Weighed(decay, ws[1..]);
  }

  lemma OldestDropped(decay: real, p: real, p': real, n: real, t: real, w: real, rest: real, n': real)
    requires n' == decay * rest + 1.0
    requires 0.0 < decay <= 1.0 && w <= 1.0 && n <= t && n == p * w + rest
    requires (1.0 - decay) * t == 1.0 - p' && p' == decay * p && p' > 0.0
    ensures n' >= n
  {
    assert decay * (p * w) == p' * w;
    assert decay * n == decay * (p * w) + decay * rest;
    ScaleBoth(1.0 - decay, n, t);
    ScaleBoth(p', w, 1.0);
  }

  // ----- runs of passes and failures at the end of the window -----

  /** Passes at the end of a window outweigh everything before them. */
  lemma PassesWeigh(decay: real, earlier: seq<real>, recent: seq<real>)
    requires 0.0 < decay
    requires forall i :: 0 <= i < |earlier| ==> 0.0 <= earlier[i]
    requires forall i :: 0 <= i < |recent| ==> recent[i] == 1.0
    ensures Weighed(decay, earlier + recent) >= Total(decay, |recent|)
  {
    RecentAtLeast(decay, earlier, recent);
    WeighedAtLeast(decay, recent, 1.0);
  }

  lemma QuotientGrows(a: real, b: real, t: real)
    requires t > 0.0 && a <= b
    ensures a / t <= b / t
  {
    ScaleBoth(t, a, b);
    QuotientsOrdered(a, t, b, t);
  }

  lemma {:induction false} NonNegativeWeighed(decay: real, ws: seq<real>)
    requires 0.0 < decay && forall i :: 0 <= i < |ws| ==> 0.0 <= ws[i]
    ensures 0.0 <= Weighed(decay, ws)
  {
    if ws != [] {
      NonNegativeWeighed(decay, ws[..|ws|-1]);
      ScaleBoth(decay, 0.0, Weighed(decay, ws[..|ws|-1]));
    }
  }

  /** Low weights at the end of a window keep the sum away from its largest value. */
  lemma FailuresWeigh(decay: real, earlier: seq<real>, recent: seq<real>, most: real)
    requires 0.0 < decay
    requires forall i :: 0 <= i < |earlier| ==> 0.0 <= earlier[i] <= 1.0
    requires forall i :: 0 <= i < |recent| ==> recent[i] <= most
    ensures Weighed(decay, earlier + recent) <=
            Total(decay, |earlier| + |recent|) - Total(decay, |recent|) + most * Total(decay, |recent|)
  {
    RecentAtMost(decay, earlier, recent);
    WeighedAtMost(decay, recent, most);
  }

}
