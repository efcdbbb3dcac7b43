/** The entities of the store: probe samples, their bounded history, results and candidate
    records. A status and an error category are the strings the source uses. */
module Types {
  import opened Base

  const PASSED: Bytes := "passed"
  const FAILED: Bytes := "failed"
  const INCONCLUSIVE: Bytes := "inconclusive"

  const REGION_BLOCKED: Bytes := "region_blocked"
  const TARGET_DENIED: Bytes := "target_denied"
  const NO_ERROR: Bytes := "none"
  const TIMEOUT: Bytes := "timeout"
  const PROXY_ERROR: Bytes := "proxy_error"

  lemma StatusesDiffer()
    ensures PASSED != FAILED && PASSED != INCONCLUSIVE && FAILED != INCONCLUSIVE
    ensures PASSED != "" && FAILED != "" && INCONCLUSIVE != ""
  {
    assert PASSED[0] != FAILED[0];
  }

  /** An instant; 0 is Go's zero time. */
  type Time = int

  const ZERO_TIME: Time := 0

  /** ErrorCategory.IsTargetSpecific. */
  predicate IsTargetSpecific(category: Bytes) {
    category == REGION_BLOCKED || category == TARGET_DENIED
  }

  datatype Sample = Sample(
    cycleID: nat,
    testedAt: Time,
    status: Bytes,
    category: Bytes,
    statusCode: int,
    latency: int,
    claudeStatus: Bytes,
    claudeCategory: Bytes,
    claudeLatency: int,
    attempts: int,
    transportOK: bool,
    transportLatency: int,
    transportEvidenceKnown: bool,
    jitter: int)

  const NO_SAMPLE: Sample :=
    Sample(0, ZERO_TIME, "", "", 0, 0, "", "", 0, 0, false, 0, false, 0)

  /** The fields of a BoundedHistory. */
  datatype Hist = Hist(capacity: int, count: int, start: int, samples: seq<Sample>)

  const NO_HIST: Hist := Hist(0, 0, 0, [])

  /** The outcome of testing one link. The per-service map is reduced to what the Gemini
      projections use. */
  datatype Result = Result(
    link: Bytes,
    status: Bytes,
    passed: bool,
    reason: Bytes,
    category: Bytes,
    statusCode: int,
    latency: int,
    testedAt: Time,
    attempts: int,
    consecutiveInconclusive: int,
    previouslyPassed: bool,
    warnings: seq<Bytes>,
    transportOK: bool,
    transportLatency: int,
    transportEvidenceKnown: bool,
    jitter: int)

  const NO_RESULT: Result :=
    Result("", "", false, "", "", 0, 0, ZERO_TIME, 0, 0, false, [], false, 0, false, 0)

  datatype Record = Record(
    canonicalLink: Bytes,
    activeLink: Bytes,
    score: real,
    absentCycles: int,
    lastPassedLatency: int,
    hasPassed: bool,
    latest: Result,
    history: Hist)

  const NO_RECORD: Record := Record("", "", 0.0, 0, 0, false, NO_RESULT, NO_HIST)

  /** A snapshot of version 2. A record may be nil. */
  datatype Snapshot = Snapshot(version: int, lastCycle: Time, cycleCount: int, records: seq<Option<Record>>)
}
