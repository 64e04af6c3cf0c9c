/** What holds of the update schedule over every history, for any clock. */
module UpdateRuns {
  import opened Wrappers
  import opened UpdatePolicy
  import Text

  // ---- what a history says -------------------------------------------------------

  /** Cancelled at some point. */
  predicate Stopped(ops: seq<Op>)
    decreases |ops|
  {
    ops != [] && (ops[|ops| - 1].Cancel? || Stopped(ops[..|ops| - 1]))
  }

  /** The check that a completion now would answer: the last begun since the last completion. */
  function Awaited(ops: seq<Op>): Option<CheckOrigin>
    decreases |ops|
  {
    if ops == [] then None
    else
      match ops[|ops| - 1]
      case Begin(origin) => if Stopped(ops) then None else Some(origin)
      case Completed(_, _, _, _) => None
      case InstallFailed(_, _) => Awaited(ops[..|ops| - 1])
      case Cancel => None
  }

  /** Failures since the last success, before any cancel. */
  function Streak(ops: seq<Op>): nat
    decreases |ops|
  {
    if ops == [] then 0
    else
      var before := ops[..|ops| - 1];
      if Stopped(before) then Streak(before)
      else
        match ops[|ops| - 1]
        case Begin(_) => Streak(before)
        case Completed(_, outcome, _, _) => if outcome.Failed? then Streak(before) + 1 else 0
        case InstallFailed(_, _) => Streak(before) + 1
        case Cancel => Streak(before)
  }

  /** The version the last completion before any cancel found available. */
  function LastAvailable(ops: seq<Op>): Option<Version>
    decreases |ops|
  {
    if ops == [] then None
    else
      var before := ops[..|ops| - 1];
      var last := ops[|ops| - 1];
      if !Stopped(before) && last.Completed? && last.outcome.Available? then Some(last.outcome.version)
      else LastAvailable(before)
  }

  /** The last rescheduling before any cancel. */
  function LastReport(ops: seq<Op>): Option<Op>
    decreases |ops|
  {
    if ops == [] then None
    else
      var before := ops[..|ops| - 1];
      var last := ops[|ops| - 1];
      if !Stopped(before) && (last.Completed? || last.InstallFailed?) then Some(last) else LastReport(before)
  }

  /** What one operation does to everything but the due time. */
  lemma StepFields(s: Schedule, op: Op)
    requires s.cancelled ==> s.inFlight.None?
    ensures var t := Step(s, op);
      && t.cancelled == (s.cancelled || op.Cancel?)
      && t.inFlight == (if t.cancelled || op.Completed? then None else if op.Begin? then Some(op.origin) else s.inFlight)
      && t.announced == (if !s.cancelled && op.Completed? && op.outcome.Available? then Some(op.outcome.version) else s.announced)
      && t.consecutiveFailures == (
        if s.cancelled || op.Begin? || op.Cancel? then s.consecutiveFailures
        else if op.Completed? && !op.outcome.Failed? then 0
        else Min(s.consecutiveFailures + 1, U32_MAX))
  {
    hide Backoff;
  }

  /** The fields are what the history says. */
  lemma {:induction false} HistoryIs(ops: seq<Op>)
    ensures Run(ops).cancelled <==> Stopped(ops)
    ensures Run(ops).inFlight == Awaited(ops) && (Stopped(ops) ==> Awaited(ops).None?)
    ensures Run(ops).announced == LastAvailable(ops)
    ensures Run(ops).consecutiveFailures == Min(Streak(ops), U32_MAX)
    decreases |ops|
  {
    hide Step;
    if ops != [] {
      HistoryIs(ops[..|ops| - 1]);
      StepFields(Run(ops[..|ops| - 1]), ops[|ops| - 1]);
    }
  }

  // ---- installs and announcements ------------------------------------------------

  /** The decision taken by a completion at the end of a history. */
  function DecisionAfter(ops: seq<Op>, now: u64, outcome: CheckOutcome, enabled: bool, jitter: u64): Decision {
    Complete(Run(ops), now, outcome, enabled, jitter).1
  }

  /** An install starts exactly for an available version, found before any cancel by
      the awaited automatic check, with the setting on at completion. */
  lemma InstallExactly(ops: seq<Op>, now: u64, outcome: CheckOutcome, enabled: bool, jitter: u64)
    ensures DecisionAfter(ops, now, outcome, enabled, jitter).install <==>
            !Stopped(ops) && outcome.Available? && enabled && Awaited(ops) == Some(Automatic)
  {
    HistoryIs(ops);
  }

  /** A manual check announces every result; any other only a version that differs
      from the one found last. */
  lemma AnnounceExactly(ops: seq<Op>, now: u64, outcome: CheckOutcome, enabled: bool, jitter: u64)
    ensures DecisionAfter(ops, now, outcome, enabled, jitter).announce <==>
            !Stopped(ops) && (Awaited(ops) == Some(Manual)
                              || (outcome.Available? && LastAvailable(ops) != Some(outcome.version)))
  {
    HistoryIs(ops);
  }

  /** Two results for one check never both install: the second finds none awaited. */
  lemma OneInstallPerCheck(ops: seq<Op>, first: Op, now: u64, outcome: CheckOutcome, enabled: bool, jitter: u64)
    requires first.Completed?
    ensures !DecisionAfter(ops + [first], now, outcome, enabled, jitter).install
  {
    HistoryIs(ops + [first]);
    assert (ops + [first])[..|ops|] == ops;
  }

  /** Only the last version is remembered, so one version can be announced twice:
      after a different one in between. */
  lemma AnnouncedAgain(a: Version, b: Version, now: u64, jitter: u64)
    requires a != b
    ensures var found := (v: Version) => Completed(now, Available(v), true, jitter);
      && DecisionAfter([Begin(Automatic)], now, Available(a), true, jitter).announce
      && DecisionAfter([Begin(Automatic), found(a), Begin(Automatic), found(b), Begin(Automatic)],
                       now, Available(a), true, jitter).announce
  {
    var found := (v: Version) => Completed(now, Available(v), true, jitter);
    var ops := [Begin(Automatic), found(a), Begin(Automatic), found(b), Begin(Automatic)];
    AnnounceExactly([Begin(Automatic)], now, Available(a), true, jitter);
    assert [Begin(Automatic)][..0] == [];
    AnnounceExactly(ops, now, Available(a), true, jitter);
    assert ops[..4][..3] == ops[..3] && ops[..3][..2] == ops[..2] && ops[..2][..1] == ops[..1] && ops[..1][..0] == [];
    assert !Stopped(ops[..1]) && !Stopped(ops[..2]) && !Stopped(ops[..3]) && !Stopped(ops[..4]);
    assert LastAvailable(ops[..4]) == Some(b);
  }

  // ---- how long it waits ---------------------------------------------------------

  /** Five minutes doubled per failure, capped at the hour. */
  lemma BackoffIs(doublings: nat)
    ensures Backoff(doublings) == Min(UPDATE_RETRY_BASE_MS * Text.Power(2, doublings), UPDATE_CHECK_INTERVAL_MS)
    ensures UPDATE_RETRY_BASE_MS <= Backoff(doublings) <= UPDATE_CHECK_INTERVAL_MS
  {
    assert Text.Power(2, 0) == 1 && Text.Power(2, 1) == 2 && Text.Power(2, 2) == 4 && Text.Power(2, 3) == 8;
    assert Text.Power(2, 4) == 16;
    SixteenDoublings();
    PowerGrows(0, doublings);
    PowerGrows(0, Min(doublings, 16));
    PowerGrows(Min(doublings, 16), 16);
    if doublings >= 4 {
      PowerGrows(4, doublings);
      PowerGrows(4, Min(doublings, 16));
    } else {
      assert doublings in {0, 1, 2, 3};
    }
    hide Text.Power;
  }

  lemma SixteenDoublings()
    ensures Text.Power(2, 16) == 65_536
  {
    assert Text.Power(2, 4) == 16;
    assert Text.Power(2, 8) == 256;
    assert Text.Power(2, 12) == 4_096;
  }

  lemma {:induction false} PowerGrows(m: nat, n: nat)
    requires m <= n
    ensures 1 <= Text.Power(2, m) <= Text.Power(2, n)
    decreases n
  {
    if m < n {
      PowerGrows(m, n - 1);
    } else if m > 0 {
      PowerGrows(m - 1, n - 1);
    }
  }

  /** How long the server asks to wait. */
  function ServerWait(report: Op): nat
    requires report.Completed? || report.InstallFailed?
  {
    if report.Completed? && report.outcome.Failed? then SatSub(report.outcome.retryNotBeforeMs.GetOr(0), report.now)
    else 0
  }

  function JitterOf(report: Op): u64
    requires report.Completed? || report.InstallFailed?
  {
    Min(report.jitter, UPDATE_CHECK_MAX_JITTER_MS)
  }

  /** The wait a report asks for, before jitter. */
  function Wait(ops: seq<Op>, report: Op): nat
    requires report.Completed? || report.InstallFailed?
  {
    if report.Completed? && !report.outcome.Failed? then UPDATE_CHECK_INTERVAL_MS
    else Max(Min(UPDATE_RETRY_BASE_MS * Text.Power(2, Min(Streak(ops), U32_MAX - 1)), UPDATE_CHECK_INTERVAL_MS), ServerWait(report))
  }

  /** How one report sets the due time. */
  lemma StepDue(s: Schedule, report: Op)
    requires !s.cancelled && (report.Completed? || report.InstallFailed?)
    ensures var t := Step(s, report);
      var retry := if report.Completed? && report.outcome.Failed? then report.outcome.retryNotBeforeMs.GetOr(0) else 0;
      && t.scheduledAtMs == report.now
      && t.nextDueMs == SatAdd(
        if report.Completed? && !report.outcome.Failed? then SatAdd(report.now, UPDATE_CHECK_INTERVAL_MS)
        else Max(SatAdd(report.now, Backoff(Min(s.consecutiveFailures, U32_MAX - 1))), retry),
        JitterOf(report))
  {
    hide Backoff;
  }

  /** The next check after a report: an hour after a success; after the k-th failure
      in a row five minutes doubled k-1 times, at most an hour, but not before the
      server allows; plus the capped jitter. */
  lemma NextDueIs(ops: seq<Op>, report: Op)
    requires !Stopped(ops) && (report.Completed? || report.InstallFailed?)
    requires report.now + Max(UPDATE_CHECK_INTERVAL_MS, ServerWait(report)) + UPDATE_CHECK_MAX_JITTER_MS <= U64_MAX
    ensures var s := Run(ops + [report]);
      && s.scheduledAtMs == report.now
      && s.nextDueMs == report.now + Wait(ops, report) + JitterOf(report)
      && report.now + UPDATE_RETRY_BASE_MS <= s.nextDueMs
      && s.nextDueMs <= report.now + Max(UPDATE_CHECK_INTERVAL_MS, ServerWait(report)) + UPDATE_CHECK_MAX_JITTER_MS
  {
    hide Backoff, Text.Power, Step;
    HistoryIs(ops);
    assert (ops + [report])[..|ops|] == ops && (ops + [report])[|ops|] == report;
    StepDue(Run(ops), report);
    BackoffIs(Min(Streak(ops), U32_MAX - 1));
    hide Run, Streak, Stopped, Awaited, LastAvailable;
  }

  /** When nothing has been reported, a check is due at any time. */
  lemma {:induction false} WindowIs(ops: seq<Op>)
    ensures LastReport(ops).None? ==> Run(ops).nextDueMs == 0
    ensures LastReport(ops).Some? ==>
      var report := LastReport(ops).value;
      && (report.Completed? || report.InstallFailed?)
      && Run(ops).scheduledAtMs == report.now
      && (report.now + Max(UPDATE_CHECK_INTERVAL_MS, ServerWait(report)) + UPDATE_CHECK_MAX_JITTER_MS <= U64_MAX ==>
            report.now + UPDATE_RETRY_BASE_MS <= Run(ops).nextDueMs <=
            report.now + Max(UPDATE_CHECK_INTERVAL_MS, ServerWait(report)) + UPDATE_CHECK_MAX_JITTER_MS)
    decreases |ops|
  {
    hide Backoff, Text.Power, Streak, Awaited, LastAvailable;
    if ops != [] {
      var before, last := ops[..|ops| - 1], ops[|ops| - 1];
      WindowIs(before);
      HistoryIs(before);
      assert ops == before + [last];
      if !Stopped(before) && (last.Completed? || last.InstallFailed?) {
        StepDue(Run(before), last);
        if last.now + Max(UPDATE_CHECK_INTERVAL_MS, ServerWait(last)) + UPDATE_CHECK_MAX_JITTER_MS <= U64_MAX {
          NextDueIs(before, last);
        }
      }
      hide SatAdd, Min;
    }
  }

  /** For any clock, also one moving backwards: while no check runs and none is due,
      the clock is between the last report and the longest wait it can ask for. */
  lemma IdleWithinWindow(ops: seq<Op>, now: u64)
    requires !Stopped(ops) && Awaited(ops).None? && !IsDue(Run(ops), now)
    ensures LastReport(ops).Some?
    ensures var report := LastReport(ops).value;
      && (report.Completed? || report.InstallFailed?)
      && report.now <= now
      && (report.now + Max(UPDATE_CHECK_INTERVAL_MS, ServerWait(report)) + UPDATE_CHECK_MAX_JITTER_MS <= U64_MAX ==>
            now < report.now + Max(UPDATE_CHECK_INTERVAL_MS, ServerWait(report)) + UPDATE_CHECK_MAX_JITTER_MS)
  {
    hide Run, ServerWait;
    HistoryIs(ops);
    WindowIs(ops);
  }

  /** A rate-limited answer never asks to wait longer than six hours, nor for the past. */
  lemma ServerWaitBounded(now: u64, status: u32, retryAfter: Option<u64>, remaining: Option<u64>, reset: Option<u64>)
    ensures var retry := GithubRetryNotBefore(now, status, retryAfter, remaining, reset);
      && (retry.Some? ==> status in {403, 429} && now <= retry.value <= now + UPDATE_SERVER_RETRY_MAX_MS)
      && ServerWait(Completed(now, Failed(retry), true, 0)) <= UPDATE_SERVER_RETRY_MAX_MS
  {
  }
}
