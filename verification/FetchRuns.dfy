/** What holds of a fetch slot over every history of starts, results, cancels and
    spawn failures, results arriving late, twice or never. */
module FetchRuns {
  import opened Wrappers
  import opened FetchModel
  import Text
  import UpdateRuns

  // ---- generations ---------------------------------------------------------------

  /** How often the generation moved. */
  function Bumps(ops: seq<Op>): nat
    decreases |ops|
  {
    if ops == [] then 0
    else Bumps(ops[..|ops| - 1]) + if ops[|ops| - 1].Start? || ops[|ops| - 1].Cancel? then 1 else 0
  }

  lemma {:induction false} GenerationIs(ops: seq<Op>)
    ensures Run(ops).requestGeneration == Min(Bumps(ops), U64_MAX)
    decreases |ops|
  {
    hide NextBackoff, FreshnessAfterFailure;
    if ops != [] {
      GenerationIs(ops[..|ops| - 1]);
    }
  }

  lemma {:induction false} BumpsAppend(a: seq<Op>, b: seq<Op>)
    ensures Bumps(a) <= Bumps(a + b) && (Bumps(a) == Bumps(a + b) ==> Bumps(b) == 0)
    decreases |b|
  {
    if b == [] {
      assert a + b == a;
    } else {
      assert (a + b)[..|a + b| - 1] == a + b[..|b| - 1];
      BumpsAppend(a, b[..|b| - 1]);
    }
  }

  /** What a result is worth at the end of a history. */
  function Verdict(ops: seq<Op>, outcome: Outcome): ApplyDecision {
    DecideApply(Run(ops), false, outcome)
  }

  /** Nothing issued before a cancel, or before a newer start, is accepted
      afterwards, whatever happens in between. */
  lemma SupersededIsRejected(before: seq<Op>, bump: Op, later: seq<Op>, outcome: Outcome)
    requires bump.Start? || bump.Cancel?
    requires outcome.generation <= Run(before).requestGeneration < U64_MAX
    ensures Verdict(before + [bump] + later, outcome) == RejectLate
  {
    GenerationIs(before);
    GenerationIs(before + [bump] + later);
    assert (before + [bump])[..|before|] == before;
    BumpsAppend(before + [bump], later);
    hide Run;
  }

  /** The generation saturates: there a cancel does not supersede. */
  lemma CancelExact(before: seq<Op>, outcome: Outcome)
    requires outcome.generation == Run(before).requestGeneration > 0
    ensures Verdict(before + [Cancel], outcome) == RejectLate <==> Run(before).requestGeneration < U64_MAX
  {
    assert (before + [Cancel])[..|before|] == before;
  }

  /** Generation `g` was handed to a worker. */
  predicate Issued(ops: seq<Op>, g: u64) {
    exists i :: 0 <= i < |ops| && ops[i].Start? && Bumps(ops[..i + 1]) == g
  }

  function LastBump(ops: seq<Op>): Option<Op>
    decreases |ops|
  {
    if ops == [] then None
    else
      var last := ops[|ops| - 1];
      if last.Start? || last.Cancel? then Some(last) else LastBump(ops[..|ops| - 1])
  }

  lemma {:induction false} LastBumpQuiet(a: seq<Op>, quiet: seq<Op>)
    requires Bumps(quiet) == 0
    ensures LastBump(a + quiet) == LastBump(a)
    decreases |quiet|
  {
    if quiet == [] {
      assert a + quiet == a;
    } else {
      assert (a + quiet)[..|a + quiet| - 1] == a + quiet[..|quiet| - 1];
      LastBumpQuiet(a, quiet[..|quiet| - 1]);
    }
  }

  lemma StartBumps(ops: seq<Op>)
    requires ops != [] && ops[|ops| - 1].Start?
    ensures Bumps(ops) > 0 && LastBump(ops) == Some(ops[|ops| - 1])
  {
  }

  /** A worker's echo counts exactly while its start is the last word on the
      generation: no newer start, no cancel since. */
  lemma AcceptedExactly(ops: seq<Op>, outcome: Outcome)
    requires Issued(ops, outcome.generation) && Bumps(ops) <= U64_MAX
    ensures Verdict(ops, outcome) != RejectLate <==> outcome.generation == Bumps(ops)
    ensures Verdict(ops, outcome) != RejectLate ==> LastBump(ops).Some? && LastBump(ops).value.Start?
    ensures Verdict(ops, outcome) == ApplySuccess ==> outcome.succeeded
  {
    hide Run, Bumps, LastBump;
    var i :| 0 <= i < |ops| && ops[i].Start? && Bumps(ops[..i + 1]) == outcome.generation;
    var head, tail := ops[..i + 1], ops[i + 1..];
    assert ops == head + tail;
    StartBumps(head);
    GenerationIs(ops);
    BumpsAppend(head, tail);
    if outcome.generation == Bumps(ops) {
      LastBumpQuiet(head, tail);
    }
  }

  // ---- freshness -----------------------------------------------------------------

  /** Whether the operation at the end of `before` applies a success. */
  predicate Applies(before: seq<Op>, op: Op) {
    op.Finish? && Verdict(before, op.outcome) == ApplySuccess
  }

  predicate Fails(before: seq<Op>, op: Op) {
    op.SpawnFailed? || (op.Finish? && Verdict(before, op.outcome) == RecordFailure)
  }

  /** The last word on the limits was an applied success. */
  predicate LastWasApplied(ops: seq<Op>)
    decreases |ops|
  {
    ops != []
    && var before, last := ops[..|ops| - 1], ops[|ops| - 1];
      Applies(before, last) || (!last.Cancel? && !Fails(before, last) && LastWasApplied(before))
  }

  /** The success applied last. */
  function LastApplied(ops: seq<Op>): Option<Op>
    decreases |ops|
  {
    if ops == [] then None
    else
      var before, last := ops[..|ops| - 1], ops[|ops| - 1];
      if Applies(before, last) then Some(last) else LastApplied(before)
  }

  /** Limits are shown as current exactly while the last word on them is an applied
      success; the success, observation and reset times are those of the last applied
      one, and nothing else moves them. */
  lemma {:induction false} FreshnessIs(ops: seq<Op>)
    ensures Run(ops).freshness == Current <==> LastWasApplied(ops)
    ensures var s := Run(ops);
      match LastApplied(ops)
      case None => s.lastSuccessMs == s.observedAtMs == s.resetAtMs == 0
      case Some(op) =>
        && op.Finish? && s.lastSuccessMs == op.now
        && s.observedAtMs == op.outcome.observedAtMs && s.resetAtMs == op.outcome.resetAtMs
    decreases |ops|
  {
    hide NextBackoff;
    if ops != [] {
      FreshnessIs(ops[..|ops| - 1]);
    }
  }

  // ---- backoff -------------------------------------------------------------------

  /** Failures since the last applied success. Late results and cancels do not count. */
  function Failures(ops: seq<Op>): nat
    decreases |ops|
  {
    if ops == [] then 0
    else
      var before, last := ops[..|ops| - 1], ops[|ops| - 1];
      if Applies(before, last) then 0 else if Fails(before, last) then Failures(before) + 1 else Failures(before)
  }

  /** No wait without a failure; thirty seconds doubled per failure after the first,
      at most a quarter of an hour. */
  lemma {:induction false} BackoffIs(ops: seq<Op>)
    ensures Run(ops).backoffMs ==
            if Failures(ops) == 0 then 0
            else Min(FETCH_BACKOFF_INITIAL_MS * Text.Power(2, Failures(ops) - 1), FETCH_BACKOFF_MAX_MS)
    decreases |ops|
  {
    hide FreshnessAfterFailure, Text.Power, NextBackoff;
    if ops != [] {
      var before, last := ops[..|ops| - 1], ops[|ops| - 1];
      BackoffIs(before);
      if Fails(before, last) {
        BackoffDoubles(Run(before).backoffMs, Failures(before));
      }
    }
  }

  lemma BackoffDoubles(previous: u64, failures: nat)
    requires previous == if failures == 0 then 0
                         else Min(FETCH_BACKOFF_INITIAL_MS * Text.Power(2, failures - 1), FETCH_BACKOFF_MAX_MS)
    ensures NextBackoff(previous) == Min(FETCH_BACKOFF_INITIAL_MS * Text.Power(2, failures), FETCH_BACKOFF_MAX_MS)
  {
    if failures == 0 {
      assert Text.Power(2, 0) == 1;
    } else {
      UpdateRuns.PowerGrows(0, failures - 1);
      assert Text.Power(2, 0) == 1;
      assert Text.Power(2, failures) == 2 * Text.Power(2, failures - 1);
      hide Text.Power;
    }
  }

  /** When the last attempt started. */
  function StartedAt(ops: seq<Op>): u64
    decreases |ops|
  {
    if ops == [] then 0
    else if ops[|ops| - 1].Start? then ops[|ops| - 1].now
    else StartedAt(ops[..|ops| - 1])
  }

  lemma {:induction false} AttemptIs(ops: seq<Op>)
    ensures Run(ops).lastAttemptMs == StartedAt(ops)
    decreases |ops|
  {
    hide NextBackoff, FreshnessAfterFailure;
    if ops != [] {
      AttemptIs(ops[..|ops| - 1]);
    }
  }

  /** After a failure the next attempt waits, counted from the start of the last one,
      exactly the doubled backoff; a late result alone costs no wait. */
  lemma RetryExactly(ops: seq<Op>, now: u64, period: u64)
    requires Run(ops).lastError.Some? && StartedAt(ops) > 0
    ensures ShouldStart(Run(ops), now, period) <==>
            !Run(ops).inFlight
            && (Failures(ops) == 0
                || SatSub(now, StartedAt(ops)) >=
                   Min(FETCH_BACKOFF_INITIAL_MS * Text.Power(2, Failures(ops) - 1), FETCH_BACKOFF_MAX_MS))
  {
    hide Run, Text.Power;
    AttemptIs(ops);
    BackoffIs(ops);
  }

  // ---- single flight -------------------------------------------------------------

  /** The worker of the last start has neither reported nor been cancelled. */
  predicate Flying(ops: seq<Op>)
    decreases |ops|
  {
    ops != []
    && var before, last := ops[..|ops| - 1], ops[|ops| - 1];
      match last
      case Start(_) => true
      case Finish(_, outcome) => Flying(before) && outcome.generation != Bumps(before)
      case Cancel => false
      case SpawnFailed(_) => false
  }

  /** A result of another generation came in since the last start. */
  predicate LateSinceStart(ops: seq<Op>)
    decreases |ops|
  {
    ops != []
    && var before, last := ops[..|ops| - 1], ops[|ops| - 1];
      match last
      case Start(_) => false
      case Finish(_, outcome) => outcome.generation != Bumps(before) || LateSinceStart(before)
      case Cancel => LateSinceStart(before)
      case SpawnFailed(_) => LateSinceStart(before)
  }

  /** A busy slot has its worker flying; a flying worker keeps the slot busy exactly
      until a late result arrives: a rejected result clears the mark too. */
  lemma {:induction false} BusyExactly(ops: seq<Op>)
    ensures Run(ops).inFlight <==> Flying(ops) && !LateSinceStart(ops)
    decreases |ops|
  {
    hide NextBackoff, FreshnessAfterFailure;
    if ops != [] {
      BusyExactly(ops[..|ops| - 1]);
    }
  }

  /** So two workers of one slot can be under way at once: a cancelled worker's
      result frees the slot of the next one, which may then start again at once. */
  lemma SecondFlight(outcome: Outcome, period: u64)
    requires outcome.generation == 1
    ensures var ops := [Start(1), Cancel, Start(2), Finish(3, outcome)];
      Flying(ops) && ShouldStart(Run(ops), 3, period) && Run(ops + [Start(3)]).requestGeneration == 4
  {
    var ops := [Start(1), Cancel, Start(2), Finish(3, outcome)];
    assert ops[..3][..2] == ops[..2] && ops[..2][..1] == ops[..1] && ops[..1][..0] == [];
    assert Run(ops[..1]) == Step(EMPTY_SLOT, Start(1));
    assert Run(ops[..2]) == Step(Run(ops[..1]), Cancel);
    assert Run(ops[..3]) == Step(Run(ops[..2]), Start(2));
    assert Bumps(ops[..1]) == 1 && Bumps(ops[..2]) == 2 && Bumps(ops[..3]) == 3;
    assert (ops + [Start(3)])[..4] == ops;
  }
}
