/** The bounded history of a candidate: a circular buffer that stands for the last samples pushed,
    and the backward scans over it. */
module History {
  import opened Base
  import opened Score
  import opened Types

  const DEFAULT_CAPACITY := 10

  predicate HistValid(h: Hist) {
    && h.capacity > 0 && |h.samples| == h.capacity
    && 0 <= h.count <= h.capacity && 0 <= h.start < h.capacity
  }

  /** The position `i` of a ring of `n` places, at most one turn ahead. */
  function Wrap(i: nat, n: nat): (r: nat)
    requires i < n + n
    ensures r < n
  {
    if i < n then i else i - n
  }

  lemma WrapIsModulo(i: nat, n: nat)
    requires i < n + n
    ensures Wrap(i, n) == i % n
  {
    if i < n {
      SmallModulo(i, n);
    } else {
      assert i % n == (i - n) % n;
      SmallModulo(i - n, n);
    }
  }

  lemma SmallModulo(i: nat, n: nat)
    requires i < n
    ensures i % n == i
  {
  }

  /** `n` samples of a ring, from position `start` on. */
  function Ring(samples: seq<Sample>, start: nat, n: nat): (v: seq<Sample>)
    requires n <= |samples| && (samples != [] ==> start < |samples|)
    ensures |v| == n && forall i :: 0 <= i < n ==> v[i] == samples[Wrap(start + i, |samples|)]
  {
    seq(n, i requires 0 <= i < n => samples[Wrap(start + i, |samples|)])
  }

  /** ChronologicalSamples: the samples from oldest to newest. */
  function View(h: Hist): (v: seq<Sample>)
    requires HistValid(h)
    ensures |v| == h.count
  {
    Ring(h.samples, h.start, h.count)
  }

  function LastOf<T>(s: seq<T>, n: nat): (r: seq<T>)
    ensures |r| == if |s| <= n then |s| else n
  {
    if |s| <= n then s else s[|s| - n..]
  }

  function Blank(n: nat): (s: seq<Sample>)
    ensures |s| == n
  {
    seq(n, i => NO_SAMPLE)
  }

  // ----- normalization -----

  lemma ReadableAnyCapacity(h: Hist, capacity: int)
    ensures Readable(h.(capacity := capacity)) == Readable(h)
  {
  }

  function ClampCapacity(capacity: int, maxCapacity: int): (c: int)
    ensures c > 0
  {
    var most := if maxCapacity <= 0 then DEFAULT_CAPACITY else maxCapacity;
    if capacity <= 0 || capacity > most then most else capacity
  }

  function ClampCount(count: int, n: nat): (c: nat)
    ensures c <= n
  {
    if count < 0 then 0 else if count > n then n else count
  }

  function ClampStart(start: int, n: nat): (s: nat)
    ensures n > 0 ==> s < n
  {
    if 0 <= start < n then start else 0
  }

  /** What a buffer with any field values still shows: its ring read with a count and a start
      moved into range. */
  function Readable(h: Hist): (v: seq<Sample>)
    ensures HistValid(h) ==> v == View(h)
  {
    Ring(h.samples, ClampStart(h.start, |h.samples|), ClampCount(h.count, |h.samples|))
  }

  /** NormalizeAndValidate: a buffer of the wrong length is rewritten from position 0, one of the
      right length keeps its samples where they are. */
  function Normalized(h: Hist, maxCapacity: int): (r: Hist)
    ensures HistValid(r)
  {
    var capacity := ClampCapacity(h.capacity, maxCapacity);
    if |h.samples| == capacity then
      Hist(capacity, ClampCount(h.count, capacity), ClampStart(h.start, capacity), h.samples)
    else
      var kept := LastOf(Readable(h), capacity);
      Hist(capacity, |kept|, 0, kept + Blank(capacity - |kept|))
  }

  lemma NormalizedKeepsRecent(h: Hist, maxCapacity: int)
    ensures View(Normalized(h, maxCapacity)) == LastOf(Readable(h), ClampCapacity(h.capacity, maxCapacity))
  {
    var r := Normalized(h, maxCapacity);
    if |h.samples| != r.capacity {
      var kept := LastOf(Readable(h), r.capacity);
      forall i | 0 <= i < |kept| ensures View(r)[i] == kept[i] {
        assert Wrap(0 + i, r.capacity) == i && r.samples[i] == kept[i];
      }
    }
  }

  /** A valid buffer within the limit is left as it is. */
  lemma NormalizedFixpoint(h: Hist, maxCapacity: int)
    ensures Normalized(Normalized(h, maxCapacity), maxCapacity) == Normalized(h, maxCapacity)
    ensures HistValid(h) && h.capacity <= maxCapacity ==> Normalized(h, maxCapacity) == h
  {
  }

  // ----- pushing -----

  predicate NeedsNormalizing(h: Hist) {
    h.capacity <= 0 || |h.samples| != h.capacity
  }

  /** A buffer of the right length must have its count and start in range. */
  predicate Pushable(h: Hist) {
    NeedsNormalizing(h) || HistValid(h)
  }

  function Ready(h: Hist): (r: Hist)
    requires Pushable(h)
    ensures HistValid(r)
  {
    if NeedsNormalizing(h) then Normalized(h, h.capacity) else h
  }

  function Pushed(h: Hist, m: Sample): (r: Hist)
    requires Pushable(h)
    ensures HistValid(r) && r.capacity == Ready(h).capacity
  {
    PushValid(Ready(h), m)
  }

  function PushValid(b: Hist, m: Sample): (r: Hist)
    requires HistValid(b)
    ensures HistValid(r) && r.capacity == b.capacity
  {
    if b.count < b.capacity then
      b.(samples := b.samples[Wrap(b.start + b.count, b.capacity) := m], count := b.count + 1)
    else
      b.(samples := b.samples[b.start := m], start := Wrap(b.start + 1, b.capacity))
  }

  /** Writing behind the last sample extends the ring. */
  lemma RingExtended(samples: seq<Sample>, start: nat, n: nat, m: Sample)
    requires n < |samples| && start < |samples|
    ensures Ring(samples[Wrap(start + n, |samples|) := m], start, n + 1) == Ring(samples, start, n) + [m]
  {
  }

  /** Writing over the oldest sample of a full ring, and starting behind it. */
  lemma RingAdvanced(samples: seq<Sample>, start: nat, m: Sample)
    requires start < |samples|
    ensures var n := |samples|;
            Ring(samples[start := m], Wrap(start + 1, n), n) == Ring(samples, start, n)[1..] + [m]
  {
  }

  /** A push adds one sample at the end of the view, and drops the oldest one of a full buffer. */
  lemma PushedView(h: Hist, m: Sample)
    requires Pushable(h)
    ensures View(Pushed(h, m)) == LastOf(View(Ready(h)) + [m], Ready(h).capacity)
  {
    PushValidView(Ready(h), m);
  }

  lemma PushValidView(b: Hist, m: Sample)
    requires HistValid(b)
    ensures View(PushValid(b, m)) == LastOf(View(b) + [m], b.capacity)
  {
    var samples, start, n := b.samples, b.start, b.count;
    if n < b.capacity {
      assert View(PushValid(b, m)) == Ring(samples[Wrap(start + n, |samples|) := m], start, n + 1);
      RingExtended(samples, start, n, m);
    } else {
      assert View(PushValid(b, m)) == Ring(samples[start := m], Wrap(start + 1, |samples|), |samples|);
      RingAdvanced(samples, start, m);
      DropOldest(View(b), m);
    }
  }

  lemma DropOldest(v: seq<Sample>, m: Sample)
    requires v != []
    ensures LastOf(v + [m], |v|) == v[1..] + [m]
  {
  }

  function PushAll(h: Hist, ms: seq<Sample>): (r: Hist)
    requires Pushable(h)
    ensures ms != [] ==> HistValid(r)
    decreases |ms|
  {
    if ms == [] then h else PushAll(Pushed(h, ms[0]), ms[1..])
  }

  lemma LastOfAppended<T>(v: seq<T>, x: T, tail: seq<T>, n: nat)
    ensures LastOf(LastOf(v + [x], n) + tail, n) == LastOf(v + ([x] + tail), n)
  {
    assert v + ([x] + tail) == (v + [x]) + tail;
    var w := v + [x];
    if |w| > n {
      assert w == w[..|w| - n] + LastOf(w, n);
      assert w + tail == w[..|w| - n] + (LastOf(w, n) + tail);
    }
  }

  /** After any sequence of pushes the view is the last samples that fit. */
  lemma {:induction false} PushAllView(h: Hist, ms: seq<Sample>)
    requires HistValid(h)
    ensures HistValid(PushAll(h, ms)) && PushAll(h, ms).capacity == h.capacity
    ensures View(PushAll(h, ms)) == LastOf(View(h) + ms, h.capacity)
    decreases |ms|
  {
    if ms == [] {
      assert View(h) + [] == View(h);
    } else {
      PushedView(h, ms[0]);
      PushAllView(Pushed(h, ms[0]), ms[1..]);
      LastOfAppended(View(h), ms[0], ms[1..], h.capacity);
      assert ms == [ms[0]] + ms[1..];
    }
  }

  // ----- scans -----

  /** The position of the newest sample with a property. */
  function LastWhere(p: Sample -> bool, v: seq<Sample>): (r: Option<nat>)
    ensures r.None? <==> forall i :: 0 <= i < |v| ==> !p(v[i])
    ensures r.Some? ==> r.value < |v| && p(v[r.value]) && forall i :: r.value < i < |v| ==> !p(v[i])
  {
    if v == [] then None
    else if p(v[|v|-1]) then Some(|v| - 1)
    else LastWhere(p, v[..|v|-1])
  }

  predicate IsPassed(m: Sample) { m.status == PASSED }

  predicate IsConclusive(m: Sample) { m.status == PASSED || m.status == FAILED }

  predicate NotInconclusive(m: Sample) { m.status != INCONCLUSIVE }

  /** Whether a sample settles if the network works: transport evidence first, then any outcome
      that is a pass or a failure. */
  predicate SettlesNetwork(m: Sample) {
    m.transportEvidenceKnown || m.status == PASSED || m.status == FAILED
  }

  /** The latency of a working network, or nothing if the sample shows that it failed. */
  function NetworkLatency(m: Sample): Option<int> {
    if m.transportEvidenceKnown then
      if !m.transportOK then None
      else if m.transportLatency > 0 then Some(m.transportLatency)
      else if m.latency > 0 then Some(m.latency)
      else Some(0)
    else if m.status == PASSED || (m.status == FAILED && IsTargetSpecific(m.category)) then
      Some(if m.latency > 0 then m.latency else 0)
    else None
  }

  function LastPassedLatency(v: seq<Sample>): Option<int> {
    match LastWhere(IsPassed, v)
    case None => None
    case Some(i) => Some(v[i].latency)
  }

  function LatestConclusive(v: seq<Sample>): Option<Sample> {
    match LastWhere(IsConclusive, v)
    case None => None
    case Some(i) => Some(v[i])
  }

  function LastNetworkHealthyLatency(v: seq<Sample>): Option<int> {
    match LastWhere(SettlesNetwork, v)
    case None => None
    case Some(i) => NetworkLatency(v[i])
  }

  /** The last-known-good projection: the status of the newest conclusive sample. */
  predicate PreviouslyPassed(v: seq<Sample>) {
    match LatestConclusive(v)
    case None => false
    case Some(m) => m.status == PASSED
  }

  function ConsecutiveInconclusive(v: seq<Sample>): (n: nat)
    ensures n <= |v|
  {
    match LastWhere(NotInconclusive, v)
    case None => |v|
    case Some(i) => |v| - 1 - i
  }

  lemma LastWhereIs(p: Sample -> bool, v: seq<Sample>, i: nat)
    requires i < |v| && p(v[i]) && forall j :: i < j < |v| ==> !p(v[j])
    ensures LastWhere(p, v) == Some(i)
  {
  }

  function RunAfter(run: nat, m: Sample, capacity: nat): nat {
    if m.status != INCONCLUSIVE then 0 else if run < capacity then run + 1 else capacity
  }

  lemma RunAppended(v: seq<Sample>, m: Sample)
    ensures ConsecutiveInconclusive(v + [m]) == if m.status != INCONCLUSIVE then 0 else ConsecutiveInconclusive(v) + 1
  {
    var w := v + [m];
    if m.status != INCONCLUSIVE {
      LastWhereIs(NotInconclusive, w, |v|);
    } else {
      assert w[..|w|-1] == v;
    }
  }

  lemma RunOfTail(w: seq<Sample>)
    requires w != []
    ensures ConsecutiveInconclusive(w[1..]) ==
            if ConsecutiveInconclusive(w) == |w| then |w| - 1 else ConsecutiveInconclusive(w)
  {
    var at := LastWhere(NotInconclusive, w);
    if at.Some? && at.value > 0 {
      LastWhereIs(NotInconclusive, w[1..], at.value - 1);
    }
  }

  /** The trailing run of inconclusive samples after a push is 0, or one longer up to the capacity. */
  lemma InconclusiveRunAfterPush(h: Hist, m: Sample)
    requires HistValid(h)
    ensures ConsecutiveInconclusive(View(Pushed(h, m))) ==
            RunAfter(ConsecutiveInconclusive(View(h)), m, h.capacity)
  {
    PushedView(h, m);
    RunAppended(View(h), m);
    if h.count == h.capacity {
      RunOfTail(View(h) + [m]);
    }
  }

  /** The copy loop of a resize: a new buffer that starts with the ring behind its first `skip`
      samples. */
  method CopyRing(from: array<Sample>, start: nat, count: nat, skip: nat, capacity: nat)
    returns (to: array<Sample>, n: nat)
    requires start < from.Length && skip <= count <= from.Length && count - skip <= capacity
    ensures fresh(to) && n == count - skip
    ensures to[..] == Ring(from[..], start, count)[skip..] + Blank(capacity - n)
  {
    to := new Sample[capacity](i => NO_SAMPLE);
    n := 0;
    ghost var kept := Ring(from[..], start, count)[skip..];
    var i := skip;
    while i < count && i < from.Length && n < capacity
      invariant skip <= i <= count && n == i - skip
      invariant forall j :: 0 <= j < n ==> to[j] == kept[j]
      invariant forall j :: n <= j < capacity ==> to[j] == NO_SAMPLE
      modifies to
    {
      WrapIsModulo(start + i, from.Length);
      to[n] := from[(start + i) % from.Length];
      n := n + 1;
      i := i + 1;
    }
    Assembled(to[..], kept, capacity);
  }

  /** The rewriting of a buffer of the wrong length: what is read through the old ring, at most
      `capacity` samples of it, ends up at the front of a new buffer. */
  method CopyRecent(from: array<Sample>, count0: int, start0: int, capacity: nat)
    returns (to: array<Sample>, n: nat)
    ensures fresh(to) && to.Length == capacity
    ensures var kept := LastOf(Readable(Hist(capacity, count0, start0, from[..])), capacity);
            n == |kept| && to[..] == kept + Blank(capacity - |kept|)
  {
    if count0 > 0 && from.Length > 0 {
      var count := if count0 > from.Length then from.Length else count0;
      var start := if start0 < 0 || start0 >= from.Length then 0 else start0;
      var skip := if count > capacity then count - capacity else 0;
      ghost var ring := Ring(from[..], start, count);
      assert LastOf(ring, capacity) == ring[skip..];
      to, n := CopyRing(from, start, count, skip, capacity);
      assert |to[..]| == capacity;
    } else {
      to, n := new Sample[capacity](i => NO_SAMPLE), 0;
      Assembled(to[..], [], capacity);
    }
  }

  lemma Assembled(to: seq<Sample>, kept: seq<Sample>, capacity: nat)
    requires |to| == capacity >= |kept|
    requires forall j :: 0 <= j < |kept| ==> to[j] == kept[j]
    requires forall j :: |kept| <= j < capacity ==> to[j] == NO_SAMPLE
    ensures to == kept + Blank(capacity - |kept|)
  {
  }

  /** The weight of one sample in the loop of ComputeScoreFor. */
  method WeightFor(weights: map<Bytes, real>, status: Bytes, category: Bytes) returns (w: real)
    ensures w == OutcomeWeight(weights, status, category)
  {
    w := 0.1;
    if status == PASSED {
      w := 1.0;
    } else if category in weights {
      w := weights[category];
    } else if status == INCONCLUSIVE {
      w := 0.4;
    }
  }

  class BoundedHistory {
    var capacity: int
    var count: int
    var start: int
    var samples: array<Sample>

    function Value(): Hist
      reads this, samples
    {
      Hist(capacity, count, start, samples[..])
    }

    ghost predicate Valid()
      reads this, samples
    {
      HistValid(Value())
    }

    /** The sample at a chronological position. */
    function At(i: nat): (m: Sample)
      requires Valid() && i < count
      reads this, samples
      ensures m == View(Value())[i]
    {
      WrapIsModulo(start + i, capacity);
      samples[(start + i) % capacity]
    }

    /** NewBoundedHistory. */
    constructor (capacity: int)
      ensures Valid() && fresh(samples) && View(Value()) == []
      ensures var size := if capacity <= 0 then DEFAULT_CAPACITY else capacity;
              Value() == Hist(size, 0, 0, Blank(size))
    {
      var size := if capacity <= 0 then DEFAULT_CAPACITY else capacity;
      this.capacity, count, start := size, 0, 0;
      samples := new Sample[size](i => NO_SAMPLE);
    }

    /** The buffer with these field values. */
    constructor Of(h: Hist)
      ensures Value() == h && fresh(samples)
    {
      capacity, count, start := h.capacity, h.count, h.start;
      samples := new Sample[|h.samples|](i requires 0 <= i < |h.samples| => h.samples[i]);
    }

    method NormalizeAndValidate(maxCapacity: int)
      modifies this
      ensures Valid() && Value() == Normalized(old(Value()), maxCapacity)
      ensures samples == old(samples) || fresh(samples)
    {
      hide Readable, LastOf, Blank, Ring;
      ReadableAnyCapacity(Value(), ClampCapacity(capacity, maxCapacity));
      var most := if maxCapacity <= 0 then DEFAULT_CAPACITY else maxCapacity;
      if capacity <= 0 || capacity > most {
        capacity := most;
      }
      if samples.Length != capacity {
        samples, count := CopyRecent(samples, count, start, capacity);
        start := 0;
      } else {
        if count < 0 {
          count := 0;
        } else if count > capacity {
          count := capacity;
        }
        if start < 0 || start >= capacity {
          start := 0;
        }
      }
    }

    method Push(m: Sample)
      requires Pushable(Value())
      modifies this, samples
      ensures Valid() && Value() == Pushed(old(Value()), m)
      ensures samples == old(samples) || fresh(samples)
    {
      if capacity <= 0 || samples.Length != capacity {
        NormalizeAndValidate(capacity);
      }
      ghost var b := Value();
      assert b == Ready(old(Value()));
      if count < capacity {
        var idx := (start + count) % capacity;
        WrapIsModulo(start + count, capacity);
        samples[idx] := m;
        count := count + 1;
      } else {
        WrapIsModulo(start + 1, capacity);
        samples[start] := m;
        start := (start + 1) % capacity;
      }
      assert Value() == PushValid(b, m);
    }

    method ChronologicalSamples() returns (out: array<Sample>)
      requires Valid()
      ensures out[..] == View(Value()) && fresh(out)
    {
      out := new Sample[count](i => NO_SAMPLE);
      var i := 0;
      while i < count
        invariant 0 <= i <= count
        invariant unchanged(this) && unchanged(samples)
        invariant forall j :: 0 <= j < i ==> out[j] == View(Value())[j]
        modifies out
      {
        out[i] := At(i);
        i := i + 1;
      }
    }

    method FindLastPassedLatency() returns (latency: int, found: bool)
      requires Valid()
      ensures LastPassedLatency(View(Value())) == if found then Some(latency) else None
    {
      ghost var v := View(Value());
      var i := count - 1;
      while i >= 0
        invariant -1 <= i < count
        invariant forall j :: i < j < count ==> !IsPassed(v[j])
      {
        if At(i).status == PASSED {
          LastWhereIs(IsPassed, v, i);
          return At(i).latency, true;
        }
        i := i - 1;
      }
      latency, found := 0, false;
    }

    method FindLastNetworkHealthyLatency() returns (latency: int, found: bool)
      requires Valid()
      ensures LastNetworkHealthyLatency(View(Value())) == if found then Some(latency) else None
    {
      ghost var v := View(Value());
      StatusesDiffer();
      var i := count - 1;
      while i >= 0
        invariant -1 <= i < count
        invariant forall j :: i < j < count ==> !SettlesNetwork(v[j])
      {
        var m := At(i);
        if m.transportEvidenceKnown {
          LastWhereIs(SettlesNetwork, v, i);
          if m.transportOK {
            if m.transportLatency > 0 { return m.transportLatency, true; }
            if m.latency > 0 { return m.latency, true; }
            return 0, true;
          }
          return 0, false;
        }
        if m.status == PASSED || (m.status == FAILED && IsTargetSpecific(m.category)) {
          LastWhereIs(SettlesNetwork, v, i);
          if m.latency > 0 { return m.latency, true; }
          return 0, true;
        }
        if m.status == FAILED && !IsTargetSpecific(m.category) {
          LastWhereIs(SettlesNetwork, v, i);
          return 0, false;
        }
        i := i - 1;
      }
      latency, found := 0, false;
    }

    method Last() returns (m: Sample, found: bool)
      requires Valid()
      ensures found == (View(Value()) != []) && (found ==> m == View(Value())[count-1])
    {
      if count == 0 { return NO_SAMPLE, false; }
      m, found := At(count - 1), true;
    }

    method ComputePreviouslyPassed() returns (passed: bool)
      requires Valid()
      ensures passed == PreviouslyPassed(View(Value()))
    {
      ghost var v := View(Value());
      StatusesDiffer();
      var i := count - 1;
      while i >= 0
        invariant -1 <= i < count
        invariant forall j :: i < j < count ==> !IsConclusive(v[j])
      {
        var status := At(i).status;
        if status == PASSED {
          LastWhereIs(IsConclusive, v, i);
          return true;
        }
        if status == FAILED {
          LastWhereIs(IsConclusive, v, i);
          return false;
        }
        i := i - 1;
      }
      passed := false;
    }

    method CountInconclusive() returns (n: nat)
      requires Valid()
      ensures n == ConsecutiveInconclusive(View(Value()))
    {
      ghost var v := View(Value());
      n := 0;
      var i := count - 1;
      while i >= 0
        invariant -1 <= i < count && n == count - 1 - i
        invariant forall j :: i < j < count ==> !NotInconclusive(v[j])
      {
        if At(i).status != INCONCLUSIVE {
          LastWhereIs(NotInconclusive, v, i);
          break;
        }
        n := n + 1;
        i := i - 1;
      }
    }

    method FindLatestConclusive() returns (m: Sample, found: bool)
      requires Valid()
      ensures LatestConclusive(View(Value())) == if found then Some(m) else None
    {
      ghost var v := View(Value());
      var i := count - 1;
      while i >= 0
        invariant -1 <= i < count
        invariant forall j :: i < j < count ==> !IsConclusive(v[j])
      {
        m := At(i);
        if m.status == PASSED || m.status == FAILED {
          LastWhereIs(IsConclusive, v, i);
          return m, true;
        }
        i := i - 1;
      }
      m, found := NO_SAMPLE, false;
    }

    /** The loop over samples in ComputeScore and ComputeScoreFor: numerator and denominator. */
    method SumWeights(decay: real, weights: map<Bytes, real>, service: Bytes) returns (num: real, den: real)
      requires Valid() && decay > 0.0
      ensures var ws := WeightsOf(weights, service, View(Value()));
              num == Weighed(decay, ws) && den == Total(decay, |ws|)
    {
      hide Weighed, Total, Pow, Ring;
      num, den := 0.0, 0.0;
      var k := count;
      ghost var ws := WeightsOf(weights, service, View(Value()));
      for i := 0 to k
        invariant num == ForwardWeighed(decay, ws[..i], k) && den == ForwardTotal(decay, i, k)
      {
        hide ForwardWeighed, ForwardTotal, OutcomeWeight, Faded, SampleServiceOutcome;
        ForwardNext(decay, ws, i, k);
        assert ws[i] == SampleWeight(weights, service, At(i));
        var (status, category) := SampleServiceOutcome(At(i), service);
        var w := WeightFor(weights, status, category);
        num := num + Faded(decay, k - 1 - i, w);
        den := den + Pow(decay, k - 1 - i);
      }
      assert ws[..k] == ws;
      ForwardIsScore(decay, ws);
    }

    method ComputeScore(decay: real, weights: map<Bytes, real>) returns (score: real)
      requires Valid()
      ensures score == HistoryScore(decay, weights, "gemini", View(Value()))
    {
      if count == 0 { return 0.0; }
      var num, den := SumWeights(Decay(decay), weights, "gemini");
      if den == 0.0 { return 0.0; }
      score := num / den;
    }

    method ComputeScoreFor(decay: real, weights: map<Bytes, real>, service: Bytes) returns (score: real)
      requires Valid()
      ensures score == HistoryScore(decay, weights, service, View(Value()))
    {
      if count == 0 { return 0.0; }
      if service == "gemini" || service == "" {
        assert WeightsOf(weights, service, View(Value())) == WeightsOf(weights, "gemini", View(Value()));
        score := ComputeScore(decay, weights);
        return;
      }
      var num, den := SumWeights(Decay(decay), weights, service);
      if den == 0.0 { return 0.0; }
      score := num / den;
    }
  }
}
