/** What a caller may rely on once a commit or a recovery has returned. */
module SagaOutcomes {
  import opened Wrappers
  import opened Settings
  import opened CommitSaga
  import opened CommitLaws
  import opened SagaRuns

  /** A write of a rollback was attempted and lost between two logs. */
  ghost predicate RollbackLost(before: seq<Write>, after: seq<Write>) {
    exists i :: |before| <= i < |after| && after[i].kind == Rollback && !after[i].landed
  }

  /** What a finished commit of a real change tells its caller: the outcome is
      the record left, the change is visible exactly when it was applied or its
      rollback was lost, and the Run entry moves only with an applied change. */
  ghost predicate Settled(s: Store, r: CommitRequest, t: Store, o: CommitOutcome) {
    && !t.tombstoned
    && o == Snapshot(t.record, o.status)
    && (o.status == Duplicate <==> r.operationId <= s.record.lastOperationId)
    && (o.status == RejectedStale <==>
          r.operationId > s.record.lastOperationId && r.expectedGeneration != s.record.generation)
    && (o.status == Applied ==> t.record == NextRecord(r) && !RollbackLost(s.log, t.log))
    && (t.record.settings == r.settings <==> o.status == Applied || RollbackLost(s.log, t.log))
    && (t.record.settings == r.previous <==> o.status != Applied && !RollbackLost(s.log, t.log))
    && (o.status == Applied && r.syncRunEntry ==> t.runEntry == r.settings.launchAtStartup)
    && (o.status != Applied || !r.syncRunEntry ==> t.runEntry == s.runEntry)
    && t.record.lastOperationId in {s.record.lastOperationId, r.operationId}
    && t.record.generation >= s.record.generation
  }

  lemma StageSettles(s: Store, r: CommitRequest, stage: Stage, t: Store, o: CommitOutcome)
    requires !s.tombstoned && Accepted(s.record, r) && !t.crashed
    requires r.previous == s.record.settings && r.previous != r.settings
    requires CommitLeaves(DiskOf(s), r, stage, DiskOf(t)) && Reports(t, o, r, stage)
    ensures Settled(s, r, t, o)
  {
    var n := |s.log|;
    if stage == RollbackFailed {
      assert t.log[n + 1].kind == Rollback && !t.log[n + 1].landed;
    }
  }

  lemma FinishedCommit(s: Store, r: CommitRequest)
    requires !s.tombstoned && r.previous == s.record.settings && r.previous != r.settings
    ensures var (t, o) := Commit(s, r); !t.crashed ==> Settled(s, r, t, o)
  {
    if Accepted(s.record, r) {
      var stage := AcceptedLeaves(s, r);
      var (t, o) := Commit(s, r);
      if !t.crashed {
        StageSettles(s, r, stage, t, o);
      }
    }
  }

  /** The environment of an undisturbed attempt. */
  predicate Healthy(env: seq<Tick>, deadline: u64) {
    forall i :: 0 <= i < |env| ==> env[i].ok && env[i].cancel == None && env[i].now < deadline
  }

  lemma HealthyCheckPasses(s: Store, op: u64, deadline: u64)
    requires !s.crashed && |s.env| >= 2 && Healthy(s.env, deadline)
    requires s.gate.cancelled != Some(op) && s.gate.timedOut != Some(op)
    ensures var (t, blocked) := TerminalBlocked(s, op, deadline);
      && blocked == None && t.env == s.env[2..] && !t.crashed
      && t.gate.cancelled == s.gate.cancelled && t.gate.timedOut == s.gate.timedOut
      && DiskOf(t) == DiskOf(s)
  {
  }

  lemma HealthyInstalledApplies(s: Store, r: CommitRequest)
    requires !s.tombstoned && !s.crashed && |s.env| >= 6 && Healthy(s.env, r.deadlineMillis)
    requires s.gate.cancelled != Some(r.operationId) && s.gate.timedOut != Some(r.operationId)
    ensures var (t, o) := CommitInstalled(s, r);
      && o == Snapshot(s.record, Applied) && !t.crashed && t.record == s.record && t.pending == None
      && t.runEntry == if r.syncRunEntry then r.settings.launchAtStartup else s.runEntry
  {
    hide TerminalBlocked;
    HealthyCheckPasses(s, r.operationId, r.deadlineMillis);
    var s1 := TerminalBlocked(s, r.operationId, r.deadlineMillis).0;
    var s2 := if r.syncRunEntry then SetStartup(s1, r.settings.launchAtStartup).0 else s1;
    HealthyCheckPasses(s2, r.operationId, r.deadlineMillis);
  }

  predicate AppliedCleanly(s: Store, r: CommitRequest, t: Store, o: CommitOutcome) {
    && o == Snapshot(NextRecord(r), Applied) && !t.crashed
    && t.record == NextRecord(r) && t.pending == None
    && t.runEntry == if r.syncRunEntry then r.settings.launchAtStartup else s.runEntry
  }

  lemma HealthyJournaledApplies(s: Store, r: CommitRequest)
    requires !s.tombstoned && !s.crashed && s.record.generation == r.expectedGeneration
    requires |s.env| >= 9 && Healthy(s.env, r.deadlineMillis)
    requires s.gate.cancelled != Some(r.operationId) && s.gate.timedOut != Some(r.operationId)
    ensures AppliedCleanly(s, r, CommitJournaled(s, r).0, CommitJournaled(s, r).1)
  {
    hide TerminalBlocked, CommitInstalled, WriteRecord, NextRecord;
    HealthyCheckPasses(s, r.operationId, r.deadlineMillis);
    var s2 := TerminalBlocked(s, r.operationId, r.deadlineMillis).0;
    HealthyWriteLands(s2, r);
    var s3 := WriteRecord(s2, Install, NextRecord(r), r.expectedGeneration).0;
    assert s3.env == s.env[3..];
    HealthyInstalledApplies(s3, r);
  }

  lemma HealthyWriteLands(s: Store, r: CommitRequest)
    requires !s.tombstoned && !s.crashed && s.record.generation == r.expectedGeneration
    requires s.env != [] && s.env[0].ok
    ensures var (t, landed) := WriteRecord(s, Install, NextRecord(r), r.expectedGeneration);
      && landed && t.record == NextRecord(r) && t.env == s.env[1..] && !t.crashed
      && t.gate.timedOut == s.gate.timedOut && (s.env[0].cancel.None? ==> t.gate.cancelled == s.gate.cancelled)
      && t.tombstoned == s.tombstoned && t.pending == s.pending && t.runEntry == s.runEntry
  {
  }

  /** An undisturbed accepted commit is applied: the record, the Run entry and
      the empty journal are all durable. */
  lemma UndisturbedCommitApplies(s: Store, r: CommitRequest)
    requires !s.tombstoned && !s.crashed && Accepted(s.record, r)
    requires |s.env| >= 12 && Healthy(s.env, r.deadlineMillis)
    requires s.gate.cancelled != Some(r.operationId) && s.gate.timedOut != Some(r.operationId)
    ensures AppliedCleanly(s, r, Commit(s, r).0, Commit(s, r).1)
  {
    HealthyCheckPasses(s, r.operationId, r.deadlineMillis);
    var s2 := TerminalBlocked(s, r.operationId, r.deadlineMillis).0;
    var s3 := WritePending(s2, JournalOf(r)).0;
    assert s3.env == s.env[3..];
    HealthyJournaledApplies(s3, r);
  }

  /** At least `n` more store calls are answered, and every write succeeds. */
  predicate Reliable(s: Store, n: nat) {
    !s.crashed && |s.env| >= n && forall i :: 0 <= i < |s.env| ==> s.env[i].ok
  }

  lemma RecoveryExpiredReliable(s: Store, j: PendingJournal)
    requires Reliable(s, 5)
    ensures var t := RecoveryExpired(s, j).0; Reliable(t, 3) && t.pending == s.pending && t.tombstoned == s.tombstoned
  {
  }

  lemma RollBackReliable(s: Store, current: SettingsRecord, j: PendingJournal)
    requires Reliable(s, 3)
    ensures var t := RollBack(s, current, j.operationId, j.previous); Reliable(t, 1) && t.pending.None?
  {
  }

  lemma RecoverLiveReliable(s: Store, j: PendingJournal)
    requires Reliable(s, 3)
    ensures var t := RecoverLive(s, j).0; Reliable(t, 1) && t.pending.None?
  {
  }

  /** A recovery whose writes succeed ends with an empty journal. */
  lemma RecoveryCompletes(s: Store)
    requires Reliable(s, 5)
    ensures var t := Recover(s).0; Reliable(t, 1) && t.pending.None?
  {
    if s.pending.Some? && !s.tombstoned {
      var j := s.pending.value;
      RecoveryExpiredReliable(s, j);
      var (s1, expired) := RecoveryExpired(s, j);
      if expired {
        RollBackReliable(MarkTimedOut(s1, j.operationId), s.record, j);
      } else {
        RecoverLiveReliable(s1, j);
      }
    }
  }

  lemma ReconcileAgrees(s: Store)
    requires !s.tombstoned && Reliable(s, 1)
    ensures var t := Act(s, DoReconcile);
      !t.crashed && t.pending == s.pending && t.record == s.record
      && t.runEntry == t.record.settings.launchAtStartup
  {
  }

  /** The start of a process: recovery, then the Run entry repair from the
      recovered settings. */
  function Launch(s: Store, env: seq<Tick>, now: u64): Store {
    Act(Recover(Restart(s, env, now)).0, DoReconcile)
  }

  /** A launch whose writes succeed leaves no journal and a Run entry that agrees
      with the stored record, whatever was left behind. */
  lemma LaunchAgrees(s: Store, env: seq<Tick>, now: u64)
    requires !s.tombstoned && Reliable(Restart(s, env, now), 5)
    ensures var t := Launch(s, env, now);
      !t.crashed && t.pending.None? && t.runEntry == t.record.settings.launchAtStartup
  {
    var s0 := Restart(s, env, now);
    RecoveryCompletes(s0);
    var stage := RecoverLeaves(s0);
    ReconcileAgrees(Recover(s0).0);
  }

  /** An acknowledged commit survives every later recovery exactly when its
      journal was really cleared: the result of that clear is ignored, and a
      journal that stays behind can still unwind an applied change. */
  lemma AcknowledgedStaysExactly(s: Store, r: CommitRequest)
    requires !s.tombstoned && Accepted(s.record, r) && r.previous != r.settings
    requires var (t, o) := Commit(s, r); !t.crashed && o.status == Applied
    ensures var t := Commit(s, r).0;
      (forall actions :: Recoveries(actions) ==> Run(t, actions).record == t.record) <==> t.pending.None?
  {
    var t := Commit(s, r).0;
    var stage := AcceptedLeaves(s, r);
    if t.pending.None? {
      forall actions | Recoveries(actions) ensures Run(t, actions).record == t.record {
        NothingPending(t, actions);
      }
    } else {
      var env := [Ok(0), Ok(r.deadlineMillis), Ok(0)];
      var actions := [DoRestart(env, 0), DoRecover];
      assert Recoveries(actions);
      ExpiredRecoveryRollsBack(t, JournalOf(r));
      assert Run(t, actions).record != t.record;
    }
  }
}
