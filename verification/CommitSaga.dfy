/** The durable settings commit as a function of the store, the request and
    everything the environment does meanwhile.

    A `Store` value carries `env`, the environment's moves: before every
    mutating store call and every gate read one `Tick` is consumed. It sets the
    clock (in either direction), may cancel an operation, and decides whether a
    write succeeds. When `env` runs out the process has crashed: every later
    call leaves the durable fields as they are. Quantifying over `env` is
    therefore quantifying over clocks, cancellations, failed writes and the
    crash point at once. */
module CommitSaga {
  import opened Wrappers
  import opened Settings

  datatype Tick = Tick(now: u64, cancel: Option<u64>, ok: bool)

  /** `CommitGate`: volatile, lost at a restart. */
  datatype Gate = Gate(cancelled: Option<u64>, timedOut: Option<u64>, nowMillis: u64)

  datatype WriteKind = Install | Rollback | ExitSave

  /** One attempted record write, whether or not it landed. */
  datatype Write = Write(kind: WriteKind, record: SettingsRecord, landed: bool)

  datatype Store = Store(
    record: SettingsRecord,
    pending: Option<PendingJournal>,
    runEntry: bool,
    tombstoned: bool,
    gate: Gate,
    env: seq<Tick>,
    crashed: bool,
    log: seq<Write>)

  datatype CommitStatus = Applied | Duplicate | RejectedStale | TimedOut | Cancelled | Failed | Tombstoned

  datatype CommitOutcome = CommitOutcome(
    status: CommitStatus, generation: u64, lastOperationId: u64, settings: AppSettings)

  datatype CommitRequest = CommitRequest(
    operationId: u64,
    expectedGeneration: u64,
    settings: AppSettings,
    previous: AppSettings,
    syncRunEntry: bool,
    deadlineMillis: u64)

  // ---- store calls ---------------------------------------------------------

  /** The environment moves; the flag says the process lives and the call may succeed. */
  function Advance(s: Store): (Store, bool) {
    if s.crashed || s.env == [] then
      (s.(crashed := true), false)
    else
      var t := s.env[0];
      (s.(env := s.env[1..],
          gate := s.gate.(nowMillis := t.now,
                          cancelled := if t.cancel.Some? then t.cancel else s.gate.cancelled)),
       t.ok)
  }

  function LoadRecord(s: Store): SettingsRecord {
    if s.tombstoned then SettingsRecord(0, 0, DEFAULT_SETTINGS) else s.record
  }

  function WriteRecord(s: Store, kind: WriteKind, record: SettingsRecord, expected: u64): (Store, bool) {
    var (e, ok) := Advance(s);
    if e.crashed then (e, false)
    else
      var landed := ok && !e.tombstoned && e.record.generation == expected;
      (e.(record := if landed then record else e.record,
          log := e.log + [Write(kind, record, landed)]),
       landed)
  }

  function WritePending(s: Store, journal: PendingJournal): (Store, bool) {
    var (e, ok) := Advance(s);
    if ok && !e.tombstoned then (e.(pending := Some(journal)), true) else (e, false)
  }

  function ClearPending(s: Store): Store {
    var (e, ok) := Advance(s);
    if ok then e.(pending := None) else e
  }

  function SetStartup(s: Store, enabled: bool): (Store, bool) {
    var (e, ok) := Advance(s);
    if ok then (e.(runEntry := enabled), true) else (e, false)
  }

  function IsCancelled(s: Store, operationId: u64): (Store, bool) {
    var (e, _) := Advance(s);
    (e, e.gate.cancelled == Some(operationId))
  }

  function NowMillis(s: Store): (Store, u64) {
    var (e, _) := Advance(s);
    (e, e.gate.nowMillis)
  }

  function MarkTimedOut(s: Store, operationId: u64): Store {
    s.(gate := s.gate.(timedOut := Some(operationId)))
  }

  // ---- the saga ------------------------------------------------------------

  function Snapshot(record: SettingsRecord, status: CommitStatus): CommitOutcome {
    CommitOutcome(status, record.generation, record.lastOperationId, record.settings)
  }

  function JournalOf(r: CommitRequest): PendingJournal {
    PendingJournal(r.operationId, r.expectedGeneration, r.settings, r.previous, r.syncRunEntry, r.deadlineMillis)
  }

  function NextRecord(r: CommitRequest): SettingsRecord {
    SettingsRecord(SatAdd(r.expectedGeneration, 1), r.operationId, r.settings)
  }

  /** Rolling back restores the content under a fresh generation. */
  function RolledRecord(current: SettingsRecord, operationId: u64, previous: AppSettings): SettingsRecord {
    SettingsRecord(SatAdd(current.generation, 1), operationId, previous)
  }

  function TerminalBlocked(s: Store, operationId: u64, deadline: u64): (Store, Option<CommitStatus>) {
    var (c, cancelled) := IsCancelled(s, operationId);
    if cancelled then (c, Some(Cancelled))
    else if c.gate.timedOut == Some(operationId) then (c, Some(TimedOut))
    else
      var (n, now) := NowMillis(c);
      (n, if now >= deadline then Some(TimedOut) else None)
  }

  function MarkIfTimedOut(s: Store, operationId: u64, status: CommitStatus): Store {
    if status == TimedOut then MarkTimedOut(s, operationId) else s
  }

  function RollBack(s: Store, current: SettingsRecord, operationId: u64, previous: AppSettings): Store {
    ClearPending(WriteRecord(s, Rollback, RolledRecord(current, operationId, previous), current.generation).0)
  }

  function Commit(s: Store, r: CommitRequest): (Store, CommitOutcome) {
    var current := LoadRecord(s);
    if s.tombstoned then (s, Snapshot(current, Tombstoned))
    else if r.operationId <= current.lastOperationId then (s, Snapshot(current, Duplicate))
    else if r.expectedGeneration != current.generation then (s, Snapshot(current, RejectedStale))
    else
      var (s1, blocked) := TerminalBlocked(s, r.operationId, r.deadlineMillis);
      if blocked.Some? then
        (MarkIfTimedOut(s1, r.operationId, blocked.value), Snapshot(current, blocked.value))
      else
        var (s2, journaled) := WritePending(s1, JournalOf(r));
        if !journaled then (s2, Snapshot(current, Failed)) else CommitJournaled(s2, r)
  }

  /** From the durable journal to the record write. */
  function CommitJournaled(s: Store, r: CommitRequest): (Store, CommitOutcome) {
    var current := LoadRecord(s);
    var (s1, blocked) := TerminalBlocked(s, r.operationId, r.deadlineMillis);
    if blocked.Some? then
      (MarkIfTimedOut(ClearPending(s1), r.operationId, blocked.value), Snapshot(current, blocked.value))
    else
      var (s2, installed) := WriteRecord(s1, Install, NextRecord(r), r.expectedGeneration);
      if !installed then (ClearPending(s2), Snapshot(current, Failed)) else CommitInstalled(s2, r)
  }

  /** From the durable record to the Run entry and the acknowledgement. */
  function CommitInstalled(s: Store, r: CommitRequest): (Store, CommitOutcome) {
    var (s1, blocked) := TerminalBlocked(s, r.operationId, r.deadlineMillis);
    if blocked.Some? then
      var s2 := MarkIfTimedOut(RollBack(s1, NextRecord(r), r.operationId, r.previous), r.operationId, blocked.value);
      (s2, Snapshot(LoadRecord(s2), blocked.value))
    else
      CommitUnblocked(s1, r)
  }

  /** From the last deadline check that can unwind to the Run entry. */
  function CommitUnblocked(s: Store, r: CommitRequest): (Store, CommitOutcome) {
    var (s1, synced) := if r.syncRunEntry then SetStartup(s, r.settings.launchAtStartup) else (s, true);
    if !synced then
      var s2 := RollBack(s1, NextRecord(r), r.operationId, r.previous);
      (s2, Snapshot(LoadRecord(s2), Failed))
    else
      var s2 := Acknowledge(s1, r);
      (s2, Snapshot(LoadRecord(s2), Applied))
  }

  /** A deadline that passes now no longer unwinds; the journal goes either way. */
  function Acknowledge(s: Store, r: CommitRequest): Store {
    var (s1, late) := TerminalBlocked(s, r.operationId, r.deadlineMillis);
    var s2 := ClearPending(s1);
    if late.Some? then MarkIfTimedOut(s2, r.operationId, late.value) else s2
  }

  /** The desired generation of the journal is the visible one. */
  predicate Matches(record: SettingsRecord, j: PendingJournal) {
    record.lastOperationId == j.operationId && record.settings == j.desired
  }

  function RecoveryExpired(s: Store, j: PendingJournal): (Store, bool) {
    var (c, cancelled) := IsCancelled(s, j.operationId);
    if cancelled || c.gate.timedOut == Some(j.operationId) then (c, true)
    else
      var (n, now) := NowMillis(c);
      (n, now >= j.deadlineMillis)
  }

  function Recover(s: Store): (Store, CommitOutcome) {
    if s.pending.None? then (s, Snapshot(LoadRecord(s), Applied))
    else if s.tombstoned then
      var s1 := ClearPending(s);
      (s1, Snapshot(LoadRecord(s1), Tombstoned))
    else
      var j := s.pending.value;
      var (s1, expired) := RecoveryExpired(s, j);
      if expired then
        var s2 := MarkTimedOut(s1, j.operationId);
        var current := LoadRecord(s2);
        var s3 := if Matches(current, j) then RollBack(s2, current, j.operationId, j.previous) else ClearPending(s2);
        (s3, Snapshot(LoadRecord(s3), TimedOut))
      else
        RecoverLive(s1, j)
  }

  /** Recovery of a journal whose deadline has not passed. */
  function RecoverLive(s: Store, j: PendingJournal): (Store, CommitOutcome) {
    var current := LoadRecord(s);
    if Matches(current, j) then
      var (s1, synced) := if j.syncRunEntry then SetStartup(s, j.desired.launchAtStartup) else (s, true);
      if !synced then
        var s2 := RollBack(s1, current, j.operationId, j.previous);
        (s2, Snapshot(LoadRecord(s2), Failed))
      else
        var s2 := ClearPending(s1);
        (s2, Snapshot(LoadRecord(s2), Applied))
    else
      (ClearPending(s), Snapshot(current, Failed))
  }

  /** The launch-time repair of the Run entry from the recovered settings. */
  function Reconcile(s: Store, settings: AppSettings): Store {
    SetStartup(s, settings.launchAtStartup).0
  }

  /** The best-effort save at exit keeps the last operation id. */
  function SaveSettings(s: Store, settings: AppSettings): Store {
    var current := LoadRecord(s);
    WriteRecord(s, ExitSave,
                SettingsRecord(SatAdd(current.generation, 1), current.lastOperationId, settings),
                current.generation).0
  }

  /** A new process: the gate is volatile, the environment is fresh. */
  function Restart(s: Store, env: seq<Tick>, now: u64): Store {
    s.(crashed := false, env := env, gate := Gate(None, None, now))
  }
}
