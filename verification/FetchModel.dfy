/** One provider's remote-limit slot: generation, freshness and backoff, as values. */
module FetchModel {
  import opened Wrappers

  const FETCH_BACKOFF_INITIAL_MS: u64 := 30_000
  const FETCH_BACKOFF_MAX_MS: u64 := 900_000

  datatype FetchError = SpawnError | CancelledError | GenerationMismatch | AuthMissing | Transport | HttpStatus | ParseError

  datatype Freshness = Unknown | Current | Stale | Expired | FailedLimits

  datatype FetchState = FetchState(
    lastAttemptMs: u64,
    lastSuccessMs: u64,
    lastError: Option<FetchError>,
    observedAtMs: u64,
    resetAtMs: u64,
    freshness: Freshness,
    backoffMs: u64,
    requestGeneration: u64,
    inFlight: bool)

  const EMPTY_SLOT := FetchState(0, 0, None, 0, 0, Unknown, 0, 0, false)

  datatype Outcome = Outcome(generation: u64, succeeded: bool, error: Option<FetchError>, observedAtMs: u64, resetAtMs: u64)

  datatype ApplyDecision = ApplySuccess | RecordFailure | RejectLate

  function NextBackoff(previous: u64): u64 {
    if previous == 0 then FETCH_BACKOFF_INITIAL_MS else Min(SatMul(previous, 2), FETCH_BACKOFF_MAX_MS)
  }

  predicate ShouldStart(s: FetchState, now: u64, period: u64) {
    !s.inFlight
    && (s.lastAttemptMs == 0
        || SatSub(now, s.lastAttemptMs) >= if s.lastError.Some? then s.backoffMs else period)
  }

  function DecideApply(s: FetchState, cancelled: bool, outcome: Outcome): ApplyDecision {
    if cancelled || outcome.generation == 0 || outcome.generation != s.requestGeneration then RejectLate
    else if outcome.succeeded then ApplySuccess
    else RecordFailure
  }

  function FreshnessAfterFailure(s: FetchState, now: u64): Freshness {
    if s.lastSuccessMs == 0 then FailedLimits
    else if s.resetAtMs != 0 && s.resetAtMs <= now then Expired
    else Stale
  }

  datatype Op =
    | Start(now: u64)
    | Finish(now: u64, outcome: Outcome)
    | Cancel
    | SpawnFailed(now: u64)

  function Step(s: FetchState, op: Op): FetchState {
    match op
    case Start(now) =>
      s.(requestGeneration := SatAdd(s.requestGeneration, 1), inFlight := true, lastAttemptMs := now)
    case Finish(now, outcome) =>
      var t := s.(inFlight := false);
      (match DecideApply(t, false, outcome)
       case ApplySuccess =>
         t.(lastSuccessMs := now, lastError := None, observedAtMs := outcome.observedAtMs,
            resetAtMs := outcome.resetAtMs, freshness := Current, backoffMs := 0)
       case RecordFailure =>
         t.(lastError := if outcome.error.Some? then outcome.error else Some(Transport),
            freshness := FreshnessAfterFailure(t, now), backoffMs := NextBackoff(t.backoffMs))
       case RejectLate => t.(lastError := Some(GenerationMismatch)))
    case Cancel =>
      s.(requestGeneration := SatAdd(s.requestGeneration, 1), inFlight := false, lastError := Some(CancelledError),
         freshness := FreshnessAfterFailure(s, s.lastAttemptMs))
    case SpawnFailed(now) =>
      s.(inFlight := false, lastError := Some(SpawnError), freshness := FreshnessAfterFailure(s, now),
         backoffMs := NextBackoff(s.backoffMs))
  }

  /** The slot after a history, newest operation last. */
  function Run(ops: seq<Op>): FetchState
    decreases |ops|
  {
    if ops == [] then EMPTY_SLOT else Step(Run(ops[..|ops| - 1]), ops[|ops| - 1])
  }
}
