/** When update checks are due and what a finished check decides, as values. */
module UpdatePolicy {
  import opened Wrappers
  import Text

  const UPDATE_CHECK_INTERVAL_MS: u64 := 3_600_000
  const UPDATE_CHECK_MAX_JITTER_MS: u64 := 300_000
  const UPDATE_RETRY_BASE_MS: u64 := 300_000
  const UPDATE_SERVER_RETRY_MAX_MS: u64 := 21_600_000

  datatype Version = Version(major: u32, minor: u32, patch: u32)

  datatype CheckOrigin = Automatic | Manual

  datatype CheckOutcome = Current | Available(version: Version) | Failed(retryNotBeforeMs: Option<u64>)

  datatype Decision = Decision(install: bool, announce: bool)

  datatype Schedule = Schedule(
    nextDueMs: u64,
    scheduledAtMs: u64,
    inFlight: Option<CheckOrigin>,
    consecutiveFailures: u32,
    announced: Option<Version>,
    cancelled: bool)

  const FRESH_SCHEDULE := Schedule(0, 0, None, 0, None, false)

  predicate IsDue(s: Schedule, now: u64) {
    !s.cancelled && s.inFlight.None? && (now >= s.nextDueMs || now < s.scheduledAtMs)
  }

  function Scheduled(s: Schedule, now: u64, due: u64, jitter: u64): Schedule {
    s.(scheduledAtMs := now, nextDueMs := SatAdd(due, Min(jitter, UPDATE_CHECK_MAX_JITTER_MS)))
  }

  function Succeeded(s: Schedule, now: u64, jitter: u64): Schedule {
    Scheduled(s.(consecutiveFailures := 0), now, SatAdd(now, UPDATE_CHECK_INTERVAL_MS), jitter)
  }

  /** The wait after one failure more than `doublings`; the shift is cut at 16. */
  function Backoff(doublings: nat): u64 {
    Min(SatMul(UPDATE_RETRY_BASE_MS, Min(Text.Power(2, Min(doublings, 16)), U64_MAX)), UPDATE_CHECK_INTERVAL_MS)
  }

  function FailedCheck(s: Schedule, now: u64, retry: Option<u64>, jitter: u64): Schedule {
    var failures := Min(s.consecutiveFailures + 1, U32_MAX);
    var due := Max(SatAdd(now, Backoff(failures - 1)), retry.GetOr(0));
    Scheduled(s.(consecutiveFailures := failures), now, due, jitter)
  }

  function Complete(s0: Schedule, now: u64, outcome: CheckOutcome, enabled: bool, jitter: u64): (Schedule, Decision) {
    var origin := s0.inFlight;
    var s := s0.(inFlight := None);
    if s.cancelled then (s, Decision(false, false))
    else
      var manual := origin == Some(Manual);
      match outcome
      case Current => (Succeeded(s, now, jitter), Decision(false, manual))
      case Available(v) =>
        (Succeeded(s, now, jitter).(announced := Some(v)),
         Decision(origin == Some(Automatic) && enabled, manual || s.announced != Some(v)))
      case Failed(retry) => (FailedCheck(s, now, retry, jitter), Decision(false, manual))
  }

  datatype Op =
    | Begin(origin: CheckOrigin)
    | Completed(now: u64, outcome: CheckOutcome, enabled: bool, jitter: u64)
    | InstallFailed(now: u64, jitter: u64)
    | Cancel

  function Step(s: Schedule, op: Op): Schedule {
    match op
    case Begin(origin) => if s.cancelled then s else s.(inFlight := Some(origin))
    case Completed(now, outcome, enabled, jitter) => Complete(s, now, outcome, enabled, jitter).0
    case InstallFailed(now, jitter) => if s.cancelled then s else FailedCheck(s, now, None, jitter)
    case Cancel => s.(cancelled := true, inFlight := None)
  }

  /** The schedule after a history, newest operation last. */
  function Run(ops: seq<Op>): Schedule
    decreases |ops|
  {
    if ops == [] then FRESH_SCHEDULE else Step(Run(ops[..|ops| - 1]), ops[|ops| - 1])
  }

  // ---- rate limits ---------------------------------------------------------------

  /** GitHub's earliest retry; the headers are given as the seconds they parse to. */
  function GithubRetryNotBefore(now: u64, status: u32, retryAfter: Option<u64>, remaining: Option<u64>, reset: Option<u64>):
    Option<u64>
  {
    if status !in {403, 429} then None
    else
      var latest := SatAdd(now, UPDATE_SERVER_RETRY_MAX_MS);
      if retryAfter.Some? then Some(Min(SatAdd(now, SatMul(retryAfter.value, 1_000)), latest))
      else if remaining != Some(0) || reset.None? then None
      else
        var resetMs := SatMul(reset.value, 1_000);
        if resetMs > now then Some(Min(resetMs, latest)) else None
  }
}
