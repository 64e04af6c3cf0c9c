/** The saga as the program runs it: a store object whose calls are the atomic
    steps, and the two procedures that drive it. Each procedure is proved equal
    to the function of `CommitSaga` that the crash and run theorems are about. */
module CommitProtocol {
  import opened Wrappers
  import opened Settings
  import opened CommitSaga

  /** Honours cancel and timeout across saga steps. */
  class CommitGate {
    var cancelled: Option<u64>
    var timedOut: Option<u64>
    var nowMillis: u64

    constructor WithClock(now: u64)
      ensures State() == Gate(None, None, now)
    {
      cancelled, timedOut, nowMillis := None, None, now;
    }

    function State(): Gate
      reads this
    {
      Gate(cancelled, timedOut, nowMillis)
    }

    method SetNow(now: u64)
      modifies this`nowMillis
      ensures State() == old(State()).(nowMillis := now)
    {
      nowMillis := now;
    }

    method Advance(millis: u64)
      modifies this`nowMillis
      ensures State() == old(State()).(nowMillis := SatAdd(old(nowMillis), millis))
    {
      nowMillis := SatAdd(nowMillis, millis);
    }

    method Cancel(operationId: u64)
      modifies this`cancelled
      ensures State() == old(State()).(cancelled := Some(operationId))
    {
      cancelled := Some(operationId);
    }

    method MarkTimedOut(operationId: u64)
      modifies this`timedOut
      ensures State() == old(State()).(timedOut := Some(operationId))
    {
      timedOut := Some(operationId);
    }

    predicate IsCancelled(operationId: u64)
      reads this
    {
      cancelled == Some(operationId)
    }

    predicate IsTimedOut(operationId: u64)
      reads this
    {
      timedOut == Some(operationId)
    }
  }

  /** The settings key, its journal value, the Run entry and the gate. `env` is
      what the outside world will do; once it is used up the process is dead and
      no further call has an effect. */
  class DurableStore {
    var record: SettingsRecord
    var pending: Option<PendingJournal>
    var runEntry: bool
    var tombstoned: bool
    const gate: CommitGate
    var env: seq<Tick>
    var crashed: bool
    ghost var log: seq<Write>

    constructor (record: SettingsRecord, runEntry: bool, env: seq<Tick>, now: u64)
      ensures fresh(gate)
      ensures Value() == Store(record, None, runEntry, false, Gate(None, None, now), env, false, [])
    {
      this.record, this.pending, this.runEntry := record, None, runEntry;
      this.tombstoned, this.env, this.crashed, this.log := false, env, false, [];
      gate := new CommitGate.WithClock(now);
    }

    ghost function Value(): Store
      reads this, gate
    {
      Store(record, pending, runEntry, tombstoned, gate.State(), env, crashed, log)
    }

    /** One move of the outside world before a call takes effect. */
    method Step() returns (ok: bool)
      modifies this`env, this`crashed, gate
      ensures (Value(), ok) == CommitSaga.Advance(old(Value()))
    {
      if crashed || |env| == 0 {
        crashed := true;
        return false;
      }
      var t := env[0];
      env := env[1..];
      gate.SetNow(t.now);
      if t.cancel.Some? {
        gate.Cancel(t.cancel.value);
      }
      ok := t.ok;
    }

    method LoadRecord() returns (r: SettingsRecord)
      ensures r == CommitSaga.LoadRecord(Value())
    {
      r := if tombstoned then SettingsRecord(0, 0, DEFAULT_SETTINGS) else record;
    }

    method WriteRecord(next: SettingsRecord, expectedGeneration: u64, ghost kind: WriteKind) returns (landed: bool)
      modifies this`record, this`env, this`crashed, this`log, gate
      ensures (Value(), landed) == CommitSaga.WriteRecord(old(Value()), kind, next, expectedGeneration)
    {
      var ok := Step();
      if crashed {
        return false;
      }
      landed := ok && !tombstoned && record.generation == expectedGeneration;
      if landed {
        record := next;
      }
      log := log + [Write(kind, next, landed)];
    }

    method LoadPending() returns (j: Option<PendingJournal>)
      ensures j == pending
    {
      j := pending;
    }

    method WritePending(journal: PendingJournal) returns (wrote: bool)
      modifies this`pending, this`env, this`crashed, gate
      ensures (Value(), wrote) == CommitSaga.WritePending(old(Value()), journal)
    {
      var ok := Step();
      wrote := ok && !tombstoned;
      if wrote {
        pending := Some(journal);
      }
    }

    method ClearPending()
      modifies this`pending, this`env, this`crashed, gate
      ensures Value() == CommitSaga.ClearPending(old(Value()))
    {
      var ok := Step();
      if ok {
        pending := None;
      }
    }

    method SetStartup(enabled: bool) returns (ok: bool)
      modifies this`runEntry, this`env, this`crashed, gate
      ensures (Value(), ok) == CommitSaga.SetStartup(old(Value()), enabled)
    {
      ok := Step();
      if ok {
        runEntry := enabled;
      }
    }

    method IsCancelled(operationId: u64) returns (b: bool)
      modifies this`env, this`crashed, gate
      ensures (Value(), b) == CommitSaga.IsCancelled(old(Value()), operationId)
    {
      var _ := Step();
      b := gate.IsCancelled(operationId);
    }

    method NowMillis() returns (now: u64)
      modifies this`env, this`crashed, gate
      ensures (Value(), now) == CommitSaga.NowMillis(old(Value()))
    {
      var _ := Step();
      now := gate.nowMillis;
    }

    method MarkTimedOut(operationId: u64)
      modifies gate
      ensures Value() == CommitSaga.MarkTimedOut(old(Value()), operationId)
    {
      gate.MarkTimedOut(operationId);
    }
  }

  method TerminalBlocked(store: DurableStore, operationId: u64, deadline: u64) returns (status: Option<CommitStatus>)
    modifies store`env, store`crashed, store.gate
    ensures (store.Value(), status) == CommitSaga.TerminalBlocked(old(store.Value()), operationId, deadline)
  {
    var cancelled := store.IsCancelled(operationId);
    if cancelled {
      return Some(Cancelled);
    }
    if store.gate.IsTimedOut(operationId) {
      return Some(TimedOut);
    }
    var now := store.NowMillis();
    status := if now >= deadline then Some(TimedOut) else None;
  }

  /** The rollback tail shared by every unwinding path; both results are ignored. */
  method RollBackTo(store: DurableStore, current: SettingsRecord, operationId: u64, previous: AppSettings)
    modifies store, store.gate
    ensures store.Value() == CommitSaga.RollBack(old(store.Value()), current, operationId, previous)
  {
    var rolled := SettingsRecord(SatAdd(current.generation, 1), operationId, previous);
    var _ := store.WriteRecord(rolled, current.generation, Rollback);
    store.ClearPending();
  }

  /** Executes one user-visible configuration commit. */
  method ExecuteCommit(store: DurableStore, request: CommitRequest) returns (outcome: CommitOutcome)
    modifies store, store.gate
    ensures (store.Value(), outcome) == CommitSaga.Commit(old(store.Value()), request)
  {
    var current := store.LoadRecord();
    if store.tombstoned {
      return Snapshot(current, Tombstoned);
    }
    if request.operationId <= current.lastOperationId {
      return Snapshot(current, Duplicate);
    }
    if request.expectedGeneration != current.generation {
      return Snapshot(current, RejectedStale);
    }
    var blocked := TerminalBlocked(store, request.operationId, request.deadlineMillis);
    if blocked.Some? {
      if blocked.value == TimedOut {
        store.MarkTimedOut(request.operationId);
      }
      return Snapshot(current, blocked.value);
    }
    var journaled := store.WritePending(JournalOf(request));
    if !journaled {
      return Snapshot(current, Failed);
    }
    outcome := CommitFromJournal(store, request, current);
  }

  method CommitFromJournal(store: DurableStore, request: CommitRequest, current: SettingsRecord)
    returns (outcome: CommitOutcome)
    requires current == CommitSaga.LoadRecord(store.Value())
    modifies store, store.gate
    ensures (store.Value(), outcome) == CommitSaga.CommitJournaled(old(store.Value()), request)
  {
    var blocked := TerminalBlocked(store, request.operationId, request.deadlineMillis);
    if blocked.Some? {
      store.ClearPending();
      if blocked.value == TimedOut {
        store.MarkTimedOut(request.operationId);
      }
      return Snapshot(current, blocked.value);
    }
    var next := SettingsRecord(SatAdd(request.expectedGeneration, 1), request.operationId, request.settings);
    var installed := store.WriteRecord(next, request.expectedGeneration, Install);
    if !installed {
      store.ClearPending();
      return Snapshot(current, Failed);
    }
    outcome := CommitFromRecord(store, request, next);
  }

  method CommitFromRecord(store: DurableStore, request: CommitRequest, next: SettingsRecord)
    returns (outcome: CommitOutcome)
    requires next == NextRecord(request)
    modifies store, store.gate
    ensures (store.Value(), outcome) == CommitSaga.CommitInstalled(old(store.Value()), request)
  {
    var blocked := TerminalBlocked(store, request.operationId, request.deadlineMillis);
    if blocked.Some? {
      RollBackTo(store, next, request.operationId, request.previous);
      if blocked.value == TimedOut {
        store.MarkTimedOut(request.operationId);
      }
      var record := store.LoadRecord();
      return Snapshot(record, blocked.value);
    }
    var synced := true;
    if request.syncRunEntry {
      synced := store.SetStartup(request.settings.launchAtStartup);
    }
    if !synced {
      RollBackTo(store, next, request.operationId, request.previous);
      var record := store.LoadRecord();
      return Snapshot(record, Failed);
    }
    AcknowledgeCommit(store, request);
    var record := store.LoadRecord();
    outcome := Snapshot(record, Applied);
  }

  method AcknowledgeCommit(store: DurableStore, request: CommitRequest)
    modifies store, store.gate
    ensures store.Value() == CommitSaga.Acknowledge(old(store.Value()), request)
  {
    var late := TerminalBlocked(store, request.operationId, request.deadlineMillis);
    store.ClearPending();
    if late == Some(TimedOut) {
      store.MarkTimedOut(request.operationId);
    }
  }

  /** Completes or rolls back a journal left by a crash. */
  method RecoverPending(store: DurableStore) returns (outcome: CommitOutcome)
    modifies store, store.gate
    ensures (store.Value(), outcome) == CommitSaga.Recover(old(store.Value()))
  {
    var loaded := store.LoadPending();
    if loaded.None? {
      var record := store.LoadRecord();
      return Snapshot(record, Applied);
    }
    var journal := loaded.value;
    if store.tombstoned {
      store.ClearPending();
      var record := store.LoadRecord();
      return Snapshot(record, Tombstoned);
    }
    var expired := JournalExpired(store, journal);
    if expired {
      store.MarkTimedOut(journal.operationId);
      var current := store.LoadRecord();
      if Matches(current, journal) {
        RollBackTo(store, current, journal.operationId, journal.previous);
      } else {
        store.ClearPending();
      }
      var record := store.LoadRecord();
      return Snapshot(record, TimedOut);
    }
    outcome := RecoverUnexpired(store, journal);
  }

  method JournalExpired(store: DurableStore, journal: PendingJournal) returns (expired: bool)
    modifies store`env, store`crashed, store.gate
    ensures (store.Value(), expired) == CommitSaga.RecoveryExpired(old(store.Value()), journal)
  {
    var cancelled := store.IsCancelled(journal.operationId);
    if cancelled || store.gate.IsTimedOut(journal.operationId) {
      return true;
    }
    var now := store.NowMillis();
    expired := now >= journal.deadlineMillis;
  }

  method RecoverUnexpired(store: DurableStore, journal: PendingJournal) returns (outcome: CommitOutcome)
    modifies store, store.gate
    ensures (store.Value(), outcome) == CommitSaga.RecoverLive(old(store.Value()), journal)
  {
    var current := store.LoadRecord();
    if !Matches(current, journal) {
      store.ClearPending();
      return Snapshot(current, Failed);
    }
    var synced := true;
    if journal.syncRunEntry {
      synced := store.SetStartup(journal.desired.launchAtStartup);
    }
    if !synced {
      RollBackTo(store, current, journal.operationId, journal.previous);
      var record := store.LoadRecord();
      return Snapshot(record, Failed);
    }
    store.ClearPending();
    var record := store.LoadRecord();
    outcome := Snapshot(record, Applied);
  }

  /** The exit save: best effort, under the current operation id. */
  method SaveSettings(store: DurableStore, settings: AppSettings)
    modifies store, store.gate
    ensures store.Value() == CommitSaga.SaveSettings(old(store.Value()), settings)
  {
    var current := store.LoadRecord();
    var next := SettingsRecord(SatAdd(current.generation, 1), current.lastOperationId, settings);
    var _ := store.WriteRecord(next, current.generation, ExitSave);
  }
}
