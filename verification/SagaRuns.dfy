/** Commits, replays, crashes, restarts and recoveries in any order. */
module SagaRuns {
  import opened Wrappers
  import opened Settings
  import opened CommitSaga
  import opened CommitLaws

  datatype Action =
    | DoCommit(request: CommitRequest)
    | DoRecover
    | DoReconcile
    | DoSave(settings: AppSettings)
    | DoRestart(env: seq<Tick>, now: u64)

  function Act(s: Store, a: Action): Store {
    match a
    case DoCommit(r) => Commit(s, r).0
    case DoRecover => Recover(s).0
    case DoReconcile => Reconcile(s, LoadRecord(s).settings)
    case DoSave(settings) => SaveSettings(s, settings)
    case DoRestart(env, now) => Restart(s, env, now)
  }

  function Run(s: Store, actions: seq<Action>): Store
    decreases |actions|
  {
    if actions == [] then s else Run(Act(s, actions[0]), actions[1..])
  }

  lemma RunConcat(s: Store, a: seq<Action>, b: seq<Action>)
    ensures Run(s, a + b) == Run(Run(s, a), b)
    decreases |a|
  {
    if a == [] {
      assert a + b == b;
    } else {
      assert (a + b)[1..] == a[1..] + b;
      RunConcat(Act(s, a[0]), a[1..], b);
    }
  }

  // ---- the write history ---------------------------------------------------

  /** The record after replaying the landed writes of a log. */
  function Replay(before: SettingsRecord, log: seq<Write>): SettingsRecord {
    if log == [] then before
    else if log[|log| - 1].landed then log[|log| - 1].record
    else Replay(before, log[..|log| - 1])
  }

  /** A landed write moves the generation by one; an install takes a fresh
      operation id, a rollback or an exit save keeps the current one. */
  predicate LegalWrite(before: SettingsRecord, w: Write) {
    w.landed ==>
      && w.record.generation == SatAdd(before.generation, 1)
      && (if w.kind == Install then w.record.lastOperationId > before.lastOperationId
          else w.record.lastOperationId == before.lastOperationId)
  }

  predicate LegalLog(before: SettingsRecord, log: seq<Write>) {
    log == [] ||
    var n := |log| - 1;
    LegalLog(before, log[..n]) && LegalWrite(Replay(before, log[..n]), log[n])
  }

  lemma LegalAppend(before: SettingsRecord, log: seq<Write>, w: Write)
    requires LegalLog(before, log) && LegalWrite(Replay(before, log), w)
    ensures LegalLog(before, log + [w])
    ensures Replay(before, log + [w]) == if w.landed then w.record else Replay(before, log)
  {
    assert (log + [w])[..|log|] == log;
  }

  /** The part of the log after `base` is legal and explains the record, starting from `before`. */
  ghost predicate Explained(before: SettingsRecord, base: nat, s: Store) {
    && !s.tombstoned && base <= |s.log|
    && LegalLog(before, s.log[base..])
    && s.record == Replay(before, s.log[base..])
  }

  /** One more attempted write keeps the explanation. */
  lemma ExplainedStep(before: SettingsRecord, base: nat, s: Store, w: Write, t: Store)
    requires Explained(before, base, s) && LegalWrite(s.record, w) && !t.tombstoned
    requires t.log == s.log + [w] && t.record == if w.landed then w.record else s.record
    ensures Explained(before, base, t)
  {
    assert t.log[base..] == s.log[base..] + [w];
    LegalAppend(before, s.log[base..], w);
  }

  lemma CommitExplained(before: SettingsRecord, base: nat, s: Store, r: CommitRequest)
    requires Explained(before, base, s)
    ensures Explained(before, base, Commit(s, r).0)
  {
    if Accepted(s.record, r) {
      var stage := AcceptedLeaves(s, r);
      StageExplained(before, base, s, r, stage, Commit(s, r).0);
    }
  }

  lemma StageExplained(before: SettingsRecord, base: nat, s: Store, r: CommitRequest, stage: Stage, t: Store)
    requires Explained(before, base, s) && Accepted(s.record, r)
    requires CommitLeaves(DiskOf(s), r, stage, DiskOf(t))
    ensures Explained(before, base, t)
  {
    var next := NextRecord(r);
    var first := Write(Install, next, stage != InstallFailed);
    match stage {
      case Untouched => assert s.log + [] == s.log;
      case RolledBack => StageExplainedTwice(before, base, s, r, stage, t);
      case RollbackFailed => StageExplainedTwice(before, base, s, r, stage, t);
      case _ => ExplainedStep(before, base, s, first, t);
    }
  }

  lemma StageExplainedTwice(before: SettingsRecord, base: nat, s: Store, r: CommitRequest, stage: Stage, t: Store)
    requires Explained(before, base, s) && Accepted(s.record, r)
    requires CommitLeaves(DiskOf(s), r, stage, DiskOf(t)) && (stage == RolledBack || stage == RollbackFailed)
    ensures Explained(before, base, t)
  {
    var next := NextRecord(r);
    var first := Write(Install, next, true);
    var mid := s.(log := s.log + [first], record := next);
    ExplainedStep(before, base, s, first, mid);
    var second := Write(Rollback, RolledRecord(next, r.operationId, r.previous), stage == RolledBack);
    assert mid.log + [second] == s.log + [first, second];
    ExplainedStep(before, base, mid, second, t);
  }

  lemma RecoverExplained(before: SettingsRecord, base: nat, s: Store)
    requires Explained(before, base, s)
    ensures Explained(before, base, Recover(s).0)
  {
    var t := Recover(s).0;
    var stage := RecoverLeaves(s);
    if t.log != s.log {
      var j := s.pending.value;
      ExplainedStep(before, base, s,
                    Write(Rollback, RolledRecord(s.record, j.operationId, j.previous), stage == RolledBack), t);
    }
  }

  lemma SaveExplained(before: SettingsRecord, base: nat, s: Store, settings: AppSettings)
    requires Explained(before, base, s)
    ensures Explained(before, base, SaveSettings(s, settings))
  {
    var t := SaveSettings(s, settings);
    var record := SettingsRecord(SatAdd(s.record.generation, 1), s.record.lastOperationId, settings);
    if t.log != s.log {
      ExplainedStep(before, base, s, t.log[|s.log|], t);
    }
  }

  /** Every run keeps a legal history that replays to the stored record. */
  lemma {:induction false} RunExplained(before: SettingsRecord, base: nat, s: Store, actions: seq<Action>)
    requires Explained(before, base, s)
    ensures Explained(before, base, Run(s, actions))
    decreases |actions|
  {
    if actions != [] {
      match actions[0] {
        case DoCommit(r) => CommitExplained(before, base, s, r);
        case DoRecover => RecoverExplained(before, base, s);
        case DoSave(settings) => SaveExplained(before, base, s, settings);
        case _ =>
      }
      RunExplained(before, base, Act(s, actions[0]), actions[1..]);
    }
  }

  /** What came before in a legal history is below what comes after. */
  lemma {:induction false} ReplayMonotone(before: SettingsRecord, log: seq<Write>, k: nat)
    requires LegalLog(before, log) && k <= |log|
    ensures LegalLog(before, log[..k])
    ensures Replay(before, log[..k]).generation <= Replay(before, log).generation
    ensures Replay(before, log[..k]).lastOperationId <= Replay(before, log).lastOperationId
    decreases |log|
  {
    if k == |log| {
      assert log[..k] == log;
    } else {
      assert log[..|log| - 1][..k] == log[..k];
      ReplayMonotone(before, log[..|log| - 1], k);
    }
  }

  /** The stored generation and last operation id never go down, over any run. */
  lemma Monotone(s: Store, actions: seq<Action>)
    requires !s.tombstoned
    ensures var t := Run(s, actions);
      t.record.generation >= s.record.generation && t.record.lastOperationId >= s.record.lastOperationId
  {
    assert s.log[|s.log|..] == [];
    RunExplained(s.record, |s.log|, s, actions);
    var added := Run(s, actions).log[|s.log|..];
    ReplayMonotone(s.record, added, 0);
    assert added[..0] == [];
  }

  predicate LandedInstall(w: Write) {
    w.landed && w.kind == Install
  }

  /** Over any run from an empty history two landed installs never carry the
      same operation id, and later ones carry larger ids and generations. */
  lemma AtMostOnceCommit(s: Store, actions: seq<Action>, i: nat, k: nat)
    requires !s.tombstoned && s.log == []
    requires i < k < |Run(s, actions).log|
    requires LandedInstall(Run(s, actions).log[i]) && LandedInstall(Run(s, actions).log[k])
    ensures var log := Run(s, actions).log;
      && log[i].record.lastOperationId < log[k].record.lastOperationId
      && log[i].record.generation <= log[k].record.generation
      && (log[k].record.generation < U64_MAX ==> log[i].record.generation < log[k].record.generation)
  {
    hide Run;
    RunExplained(s.record, 0, s, actions);
    var log := Run(s, actions).log;
    assert log[0..] == log;
    ReplayMonotone(s.record, log, k + 1);
    var before := log[..k + 1];
    assert before[..k] == log[..k] && before[k] == log[k];
    ReplayMonotone(s.record, log[..k], i + 1);
    assert log[..k][..i + 1] == log[..i + 1];
    assert log[..i + 1][|log[..i + 1]| - 1] == log[i];
  }

  // ---- crash atomicity -----------------------------------------------------

  /** What may follow a commit before the tray accepts new ones: crashes with a
      new environment, recoveries (finished or cut off) and Run entry repairs. */
  predicate IsRecovery(a: Action) {
    a.DoRestart? || a.DoRecover? || a.DoReconcile?
  }

  predicate Recoveries(actions: seq<Action>) {
    forall i :: 0 <= i < |actions| ==> IsRecovery(actions[i])
  }

  /** The store while `r` and its recoveries are the only writers since `s0`. */
  ghost predicate InFlight(s0: Store, r: CommitRequest, s: Store) {
    && !s.tombstoned
    && (s.pending.None? || s.pending == Some(JournalOf(r)))
    && s0.log <= s.log
    && (forall i :: |s0.log| <= i < |s.log| ==> s.log[i].record.settings in {r.previous, r.settings})
    && (s.record == s0.record || (s.record.lastOperationId == r.operationId && s.record.settings in {r.previous, r.settings}))
    && (r.previous != r.settings ==>
          var next := NextRecord(r);
          s.record in {s0.record, next, RolledRecord(next, r.operationId, r.previous)})
  }

  lemma CommitInFlight(s0: Store, r: CommitRequest)
    requires !s0.tombstoned && s0.pending.None? && r.previous == s0.record.settings
    ensures InFlight(s0, r, Commit(s0, r).0)
  {
    if Accepted(s0.record, r) {
      var stage := AcceptedLeaves(s0, r);
    }
  }

  lemma RecoverInFlight(s0: Store, r: CommitRequest, s: Store)
    requires InFlight(s0, r, s) && r.operationId > s0.record.lastOperationId
    ensures InFlight(s0, r, Recover(s).0)
  {
    var stage := RecoverLeaves(s);
  }

  lemma {:induction false} RecoveriesInFlight(s0: Store, r: CommitRequest, s: Store, actions: seq<Action>)
    requires InFlight(s0, r, s) && Recoveries(actions)
    requires r.operationId > s0.record.lastOperationId
    ensures InFlight(s0, r, Run(s, actions))
    decreases |actions|
  {
    if actions != [] {
      assert IsRecovery(actions[0]);
      if actions[0].DoRecover? {
        RecoverInFlight(s0, r, s);
      }
      RecoveriesInFlight(s0, r, Act(s, actions[0]), actions[1..]);
    }
  }

  /** Crash atomicity. From an empty journal, a commit that is cut off anywhere
      and any later recoveries, themselves cut off anywhere, only ever store the
      previous or the desired settings; every write since then carried one of them. */
  lemma CrashAtomic(s0: Store, r: CommitRequest, actions: seq<Action>)
    requires !s0.tombstoned && s0.pending.None? && r.previous == s0.record.settings && Recoveries(actions)
    ensures var t := Run(s0, [DoCommit(r)] + actions);
      && t.record.settings in {r.previous, r.settings}
      && (forall i :: |s0.log| <= i < |t.log| ==> t.log[i].record.settings in {r.previous, r.settings})
      && (r.previous != r.settings ==> t.record.generation <= SatAdd(SatAdd(s0.record.generation, 1), 1))
  {
    var s := Commit(s0, r).0;
    assert ([DoCommit(r)] + actions)[1..] == actions;
    CommitInFlight(s0, r);
    if Accepted(s0.record, r) {
      RecoveriesInFlight(s0, r, s, actions);
    } else {
      NothingPending(s0, actions);
    }
  }

  /** Without a journal, recovery changes no record. */
  lemma {:induction false} NothingPending(s: Store, actions: seq<Action>)
    requires s.pending.None? && Recoveries(actions)
    ensures var t := Run(s, actions); t.record == s.record && t.log == s.log && t.pending.None?
    decreases |actions|
  {
    if actions != [] {
      assert IsRecovery(actions[0]);
      NothingPending(Act(s, actions[0]), actions[1..]);
    }
  }

  // ---- the exact condition of the generation bound ---------------------------

  function Ok(now: u64): Tick {
    Tick(now, None, true)
  }

  /** Just enough environment to install the record and crash. */
  function CrashAfterInstall(r: CommitRequest): seq<Action> {
    [DoRestart([Ok(0), Ok(0), Ok(0), Ok(0), Ok(0), Ok(0)], 0), DoCommit(r)]
  }

  /** Recoveries after the deadline, each crashing before the journal is cleared. */
  function CrashAfterRollback(r: CommitRequest, n: nat): seq<Action> {
    if n == 0 then []
    else CrashAfterRollback(r, n - 1)
         + [DoRestart([Ok(0), Ok(r.deadlineMillis), Ok(0)], 0), DoRecover]
  }

  lemma CrashAfterInstallInstalls(s0: Store, r: CommitRequest)
    requires !s0.tombstoned && Accepted(s0.record, r) && r.deadlineMillis > 0
    ensures var t := Run(s0, CrashAfterInstall(r));
      !t.tombstoned && t.record == NextRecord(r) && t.pending == Some(JournalOf(r))
  {
    var s := Restart(s0, [Ok(0), Ok(0), Ok(0), Ok(0), Ok(0), Ok(0)], 0);
    var (s2, b1) := TerminalBlocked(s, r.operationId, r.deadlineMillis);
    assert s2.env == [Ok(0), Ok(0), Ok(0), Ok(0)];
    var (s3, _) := WritePending(s2, JournalOf(r));
    assert s3.env == [Ok(0), Ok(0), Ok(0)];
    var (s5, b2) := TerminalBlocked(s3, r.operationId, r.deadlineMillis);
    assert s5.env == [Ok(0)];
    var (s6, _) := WriteRecord(s5, Install, NextRecord(r), r.expectedGeneration);
    assert s6.env == [];
    CrashedCommitStops(s6, r);
    var actions := CrashAfterInstall(r);
    assert actions[1..][1..] == [];
    assert Run(s0, actions) == Run(s, actions[1..]) == Run(Commit(s, r).0, []);
  }

  lemma CrashedCommitStops(s: Store, r: CommitRequest)
    requires s.env == []
    ensures DiskOf(CommitInstalled(s, r).0) == DiskOf(s)
  {
    var (s1, b1) := TerminalBlocked(s, r.operationId, r.deadlineMillis);
    assert s1.crashed && DiskOf(s1) == DiskOf(s);
    if b1.None? {
      assert DiskOf(Acknowledge(s1, r)) == DiskOf(s1);
    }
  }

  lemma ExpiredByClock(s: Store, j: PendingJournal)
    requires s.env == [Ok(0), Ok(j.deadlineMillis), Ok(0)] && !s.crashed
    requires s.gate.cancelled == None && s.gate.timedOut == None
    ensures var (t, expired) := RecoveryExpired(s, j);
      expired && t.env == [Ok(0)] && !t.crashed && DiskOf(t) == DiskOf(s) && t.pending == s.pending
  {
  }

  /** A recovery after the deadline, crashing right after its rollback write. */
  lemma ExpiredRecoveryRollsBack(s: Store, j: PendingJournal)
    requires !s.tombstoned && s.pending == Some(j) && Matches(s.record, j)
    ensures var t := Run(s, [DoRestart([Ok(0), Ok(j.deadlineMillis), Ok(0)], 0), DoRecover]);
      !t.tombstoned && t.pending == Some(j) && t.record == RolledRecord(s.record, j.operationId, j.previous)
  {
    var actions := [DoRestart([Ok(0), Ok(j.deadlineMillis), Ok(0)], 0), DoRecover];
    var s0 := Restart(s, [Ok(0), Ok(j.deadlineMillis), Ok(0)], 0);
    assert actions[1..] == [DoRecover] && [DoRecover][1..] == [];
    assert Run(s, actions) == Run(s0, [DoRecover]) == Recover(s0).0;
    hide Run;
    ExpiredByClock(s0, j);
    hide RecoveryExpired;
    var s1 := RecoveryExpired(s0, j).0;
    var (s2, landed) := WriteRecord(MarkTimedOut(s1, j.operationId), Rollback,
                                    RolledRecord(s.record, j.operationId, j.previous), s.record.generation);
    assert landed && s2.env == [];
  }

  lemma {:induction false} RollbacksRepeat(s: Store, r: CommitRequest, n: nat)
    requires !s.tombstoned && s.pending == Some(JournalOf(r)) && r.previous == r.settings
    requires Matches(s.record, JournalOf(r)) && s.record.generation + n <= U64_MAX
    ensures var t := Run(s, CrashAfterRollback(r, n));
      && !t.tombstoned && t.pending == Some(JournalOf(r)) && Matches(t.record, JournalOf(r))
      && t.record.generation == s.record.generation + n
  {
    if n > 0 {
      RollbacksRepeat(s, r, n - 1);
      var before := CrashAfterRollback(r, n - 1);
      RunConcat(s, before, [DoRestart([Ok(0), Ok(r.deadlineMillis), Ok(0)], 0), DoRecover]);
      ExpiredRecoveryRollsBack(Run(s, before), JournalOf(r));
    }
  }

  lemma CrashAfterRollbackRecovers(r: CommitRequest, n: nat)
    ensures Recoveries(CrashAfterRollback(r, n))
  {
  }

  /** A request whose previous and desired settings coincide has no generation
      bound at all: recoveries that crash before clearing the journal each roll
      back once more. */
  lemma EqualSettingsRunAway(s0: Store, r: CommitRequest, n: nat) returns (actions: seq<Action>)
    requires !s0.tombstoned && Accepted(s0.record, r) && r.deadlineMillis > 0
    requires r.previous == r.settings && s0.record.generation + 1 + n <= U64_MAX
    ensures Recoveries(actions)
    ensures Run(s0, CrashAfterInstall(r) + actions).record.generation == s0.record.generation + 1 + n
  {
    actions := CrashAfterRollback(r, n);
    CrashAfterInstallInstalls(s0, r);
    RunConcat(s0, CrashAfterInstall(r), actions);
    RollbacksRepeat(Run(s0, CrashAfterInstall(r)), r, n);
    CrashAfterRollbackRecovers(r, n);
  }

  /** The generation rises by at most two in every environment exactly when the
      request changes the settings. */
  lemma GenerationBoundExact(s0: Store, r: CommitRequest)
    requires !s0.tombstoned && s0.pending.None? && r.previous == s0.record.settings
    requires Accepted(s0.record, r) && r.deadlineMillis > 0 && s0.record.generation + 3 <= U64_MAX
    ensures (forall env, now, actions :: Recoveries(actions) ==>
               Run(s0, [DoRestart(env, now), DoCommit(r)] + actions).record.generation <= s0.record.generation + 2)
            <==> r.previous != r.settings
  {
    hide Recoveries, Accepted;
    if r.previous == r.settings {
      var actions := EqualSettingsRunAway(s0, r, 2);
      assert CrashAfterInstall(r) == [DoRestart([Ok(0), Ok(0), Ok(0), Ok(0), Ok(0), Ok(0)], 0), DoCommit(r)];
    } else {
      forall env, now, actions | Recoveries(actions)
        ensures Run(s0, [DoRestart(env, now), DoCommit(r)] + actions).record.generation <= s0.record.generation + 2
      {
        CrashAtomic(Restart(s0, env, now), r, actions);
        assert ([DoRestart(env, now), DoCommit(r)] + actions)[1..] == [DoCommit(r)] + actions;
      }
    }
  }
}
