/** The mutable fetch slot and the functions that write it. */
module UsageFetch {
  import opened Wrappers
  import opened FetchModel

  class ProviderFetchState {
    var lastAttemptMs: u64
    var lastSuccessMs: u64
    var lastError: Option<FetchError>
    var observedAtMs: u64
    var resetAtMs: u64
    var freshness: Freshness
    var backoffMs: u64
    var requestGeneration: u64
    var inFlight: bool

    constructor ()
      ensures Value() == EMPTY_SLOT
    {
      lastAttemptMs, lastSuccessMs, lastError := 0, 0, None;
      observedAtMs, resetAtMs, freshness := 0, 0, Unknown;
      backoffMs, requestGeneration, inFlight := 0, 0, false;
    }

    function Value(): FetchState
      reads this
    {
      FetchState(lastAttemptMs, lastSuccessMs, lastError, observedAtMs, resetAtMs, freshness, backoffMs,
                 requestGeneration, inFlight)
    }
  }

  method StartFetch(state: ProviderFetchState, now: u64) returns (generation: u64)
    modifies state
    ensures state.Value() == Step(old(state.Value()), Start(now))
    ensures generation == state.requestGeneration
  {
    state.requestGeneration := SatAdd(state.requestGeneration, 1);
    state.inFlight := true;
    state.lastAttemptMs := now;
    generation := state.requestGeneration;
  }

  method FinishFetch(state: ProviderFetchState, now: u64, outcome: Outcome)
    modifies state
    ensures state.Value() == Step(old(state.Value()), Finish(now, outcome))
  {
    state.inFlight := false;
    match DecideApply(state.Value(), false, outcome) {
      case ApplySuccess =>
        state.lastSuccessMs := now;
        state.lastError := None;
        state.observedAtMs := outcome.observedAtMs;
        state.resetAtMs := outcome.resetAtMs;
        state.freshness := Current;
        state.backoffMs := 0;
      case RecordFailure =>
        state.lastError := if outcome.error.Some? then outcome.error else Some(Transport);
        state.freshness := FreshnessAfterFailure(state.Value(), now);
        state.backoffMs := NextBackoff(state.backoffMs);
      case RejectLate =>
        state.lastError := Some(GenerationMismatch);
    }
  }

  method CancelFetch(state: ProviderFetchState)
    modifies state
    ensures state.Value() == Step(old(state.Value()), Cancel)
  {
    state.requestGeneration := SatAdd(state.requestGeneration, 1);
    state.inFlight := false;
    state.lastError := Some(CancelledError);
    state.freshness := FreshnessAfterFailure(state.Value(), state.lastAttemptMs);
  }

  method RecordSpawnFailure(state: ProviderFetchState, now: u64)
    modifies state
    ensures state.Value() == Step(old(state.Value()), SpawnFailed(now))
  {
    state.inFlight := false;
    state.lastError := Some(SpawnError);
    state.freshness := FreshnessAfterFailure(state.Value(), now);
    state.backoffMs := NextBackoff(state.backoffMs);
  }
}
