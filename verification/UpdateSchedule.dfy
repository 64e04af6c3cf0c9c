/** The mutable update schedule, method by method. */
module UpdateScheduler {
  import opened Wrappers
  import opened UpdatePolicy
  import Text
  import UpdateRuns

  class UpdateSchedule {
    var nextDueMs: u64
    var scheduledAtMs: u64
    var inFlight: Option<CheckOrigin>
    var consecutiveFailures: u32
    var announced: Option<Version>
    var cancelled: bool

    constructor ()
      ensures Value() == FRESH_SCHEDULE
    {
      nextDueMs, scheduledAtMs, inFlight := 0, 0, None;
      consecutiveFailures, announced, cancelled := 0, None, false;
    }

    function Value(): Schedule
      reads this
    {
      Schedule(nextDueMs, scheduledAtMs, inFlight, consecutiveFailures, announced, cancelled)
    }

    method IsDue(now: u64) returns (due: bool)
      ensures due == UpdatePolicy.IsDue(Value(), now)
    {
      due := !cancelled && inFlight.None? && (now >= nextDueMs || now < scheduledAtMs);
    }

    method Begin(origin: CheckOrigin)
      modifies this
      ensures Value() == Step(old(Value()), Op.Begin(origin))
    {
      if !cancelled {
        inFlight := Some(origin);
      }
    }

    method AwaitingResult() returns (awaiting: bool)
      ensures awaiting == Value().inFlight.Some?
    {
      awaiting := inFlight.Some?;
    }

    method Complete(now: u64, outcome: CheckOutcome, enabled: bool, jitter: u64) returns (d: Decision)
      modifies this
      ensures Value() == Step(old(Value()), Completed(now, outcome, enabled, jitter))
      ensures d == UpdatePolicy.Complete(old(Value()), now, outcome, enabled, jitter).1
    {
      var origin := inFlight;
      inFlight := None;
      if cancelled {
        return Decision(false, false);
      }
      var manual := origin == Some(Manual);
      match outcome {
        case Current =>
          Succeed(now, jitter);
          d := Decision(false, manual);
        case Available(version) =>
          Succeed(now, jitter);
          var newVersion := announced != Some(version);
          announced := Some(version);
          d := Decision(origin == Some(Automatic) && enabled, manual || newVersion);
        case Failed(retry) =>
          Fail(now, retry, jitter);
          d := Decision(false, manual);
      }
    }

    method InstallFailed(now: u64, jitter: u64)
      modifies this
      ensures Value() == Step(old(Value()), Op.InstallFailed(now, jitter))
    {
      if !cancelled {
        Fail(now, None, jitter);
      }
    }

    method Cancel()
      modifies this
      ensures Value() == Step(old(Value()), Op.Cancel)
    {
      cancelled := true;
      inFlight := None;
    }

    method Succeed(now: u64, jitter: u64)
      modifies this
      ensures Value() == Succeeded(old(Value()), now, jitter)
    {
      consecutiveFailures := 0;
      Reschedule(now, SatAdd(now, UPDATE_CHECK_INTERVAL_MS), jitter);
    }

    method Fail(now: u64, retry: Option<u64>, jitter: u64)
      modifies this
      ensures Value() == FailedCheck(old(Value()), now, retry, jitter)
    {
      consecutiveFailures := Min(consecutiveFailures + 1, U32_MAX);
      var doublings := Min(consecutiveFailures - 1, 16);
      UpdateRuns.PowerGrows(doublings, 16);
      UpdateRuns.SixteenDoublings();
      var backoff := Min(SatMul(UPDATE_RETRY_BASE_MS, Text.Power(2, doublings)), UPDATE_CHECK_INTERVAL_MS);
      var retryAt := Max(SatAdd(now, backoff), retry.GetOr(0));
      Reschedule(now, retryAt, jitter);
    }

    method Reschedule(now: u64, due: u64, jitter: u64)
      modifies this
      ensures Value() == Scheduled(old(Value()), now, due, jitter)
    {
      scheduledAtMs := now;
      nextDueMs := SatAdd(due, Min(jitter, UPDATE_CHECK_MAX_JITTER_MS));
    }
  }
}
