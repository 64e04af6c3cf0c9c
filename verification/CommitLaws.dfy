/** What one commit and one recovery may leave behind, for every environment. */
module CommitLaws {
  import opened Wrappers
  import opened Settings
  import opened CommitSaga

  /** The fields that outlive the process, with the history of record writes. */
  datatype Disk = Disk(
    record: SettingsRecord, pending: Option<PendingJournal>, runEntry: bool, tombstoned: bool, log: seq<Write>)

  function DiskOf(s: Store): Disk {
    Disk(s.record, s.pending, s.runEntry, s.tombstoned, s.log)
  }

  /** The request passes the duplicate and compare-and-swap checks. */
  predicate Accepted(record: SettingsRecord, r: CommitRequest) {
    r.operationId > record.lastOperationId && r.expectedGeneration == record.generation
  }

  /** How far the record got. */
  datatype Stage = Untouched | InstallFailed | Installed | RollbackFailed | RolledBack

  function RecordAt(stage: Stage, before: SettingsRecord, next: SettingsRecord, rolled: SettingsRecord): SettingsRecord {
    match stage
    case Untouched => before
    case InstallFailed => before
    case Installed => next
    case RollbackFailed => next
    case RolledBack => rolled
  }

  function LogAt(stage: Stage, next: SettingsRecord, rolled: SettingsRecord): seq<Write> {
    match stage
    case Untouched => []
    case InstallFailed => [Write(Install, next, false)]
    case Installed => [Write(Install, next, true)]
    case RollbackFailed => [Write(Install, next, true), Write(Rollback, rolled, false)]
    case RolledBack => [Write(Install, next, true), Write(Rollback, rolled, true)]
  }

  /** Every disk a commit of `r` can leave, finished or cut off at any step. */
  predicate CommitLeaves(d: Disk, r: CommitRequest, stage: Stage, d': Disk) {
    var next := NextRecord(r);
    var rolled := RolledRecord(next, r.operationId, r.previous);
    && d'.tombstoned == d.tombstoned
    && d'.record == RecordAt(stage, d.record, next, rolled)
    && d'.log == d.log + LogAt(stage, next, rolled)
    && (d'.pending == d.pending || d'.pending == None || d'.pending == Some(JournalOf(r)))
    && (stage.Installed? || stage.RollbackFailed? || stage.RolledBack? ==>
          d'.pending == None || d'.pending == Some(JournalOf(r)))
    && (d'.runEntry == d.runEntry
        || (stage == Installed && r.syncRunEntry && d'.runEntry == r.settings.launchAtStartup))
  }

  /** Reads and gate updates leave the disk alone. */
  lemma TerminalBlockedKeepsDisk(s: Store, op: u64, deadline: u64)
    ensures DiskOf(TerminalBlocked(s, op, deadline).0) == DiskOf(s)
    ensures s.crashed ==> TerminalBlocked(s, op, deadline).0.crashed
  {
  }

  /** What the caller learns: the record left in the store, and how far it got. */
  predicate Reports(t: Store, o: CommitOutcome, r: CommitRequest, stage: Stage) {
    !t.crashed ==>
      && o == Snapshot(LoadRecord(t), o.status)
      && (o.status == Applied <==> stage == Installed)
      && (o.status == Applied && r.syncRunEntry ==> t.runEntry == r.settings.launchAtStartup)
      && (o.status == Applied || o.status == TimedOut || o.status == Cancelled || o.status == Failed)
  }

  lemma RollBackLeaves(d: Disk, s: Store, r: CommitRequest) returns (stage: Stage)
    requires !s.tombstoned
    requires CommitLeaves(d, r, Installed, DiskOf(s)) && s.runEntry == d.runEntry
    ensures var t := RollBack(s, NextRecord(r), r.operationId, r.previous);
      && CommitLeaves(d, r, stage, DiskOf(t))
      && (!t.crashed ==> stage == RolledBack || stage == RollbackFailed)
  {
    var next := NextRecord(r);
    var rolled := RolledRecord(next, r.operationId, r.previous);
    var (w, landed) := WriteRecord(s, Rollback, rolled, next.generation);
    stage := if w.crashed then Installed else if landed then RolledBack else RollbackFailed;
    assert d.log + [Write(Install, next, true)] + [Write(Rollback, rolled, landed)]
        == d.log + [Write(Install, next, true), Write(Rollback, rolled, landed)];
  }

  lemma AcknowledgeOnlyClears(s: Store, r: CommitRequest)
    ensures var t := DiskOf(Acknowledge(s, r)); t == DiskOf(s) || t == DiskOf(s).(pending := None)
  {
    TerminalBlockedKeepsDisk(s, r.operationId, r.deadlineMillis);
  }

  lemma UnblockedLeaves(d: Disk, s: Store, r: CommitRequest) returns (stage: Stage)
    requires !s.tombstoned
    requires CommitLeaves(d, r, Installed, DiskOf(s)) && s.runEntry == d.runEntry
    ensures CommitLeaves(d, r, stage, DiskOf(CommitUnblocked(s, r).0))
    ensures Reports(CommitUnblocked(s, r).0, CommitUnblocked(s, r).1, r, stage)
  {
    var (s1, synced) := if r.syncRunEntry then SetStartup(s, r.settings.launchAtStartup) else (s, true);
    if synced {
      stage := Installed;
      AcknowledgeOnlyClears(s1, r);
    } else {
      stage := RollBackLeaves(d, s1, r);
    }
  }

  lemma InstalledLeaves(d: Disk, s: Store, r: CommitRequest) returns (stage: Stage)
    requires !s.tombstoned
    requires CommitLeaves(d, r, Installed, DiskOf(s)) && s.runEntry == d.runEntry
    ensures CommitLeaves(d, r, stage, DiskOf(CommitInstalled(s, r).0))
    ensures Reports(CommitInstalled(s, r).0, CommitInstalled(s, r).1, r, stage)
  {
    TerminalBlockedKeepsDisk(s, r.operationId, r.deadlineMillis);
    var (s1, blocked) := TerminalBlocked(s, r.operationId, r.deadlineMillis);
    if blocked.Some? {
      stage := RollBackLeaves(d, s1, r);
    } else {
      stage := UnblockedLeaves(d, s1, r);
    }
  }

  lemma JournaledLeaves(d: Disk, s: Store, r: CommitRequest) returns (stage: Stage)
    requires !s.tombstoned && Accepted(d.record, r)
    requires DiskOf(s) == d.(pending := Some(JournalOf(r)))
    ensures CommitLeaves(d, r, stage, DiskOf(CommitJournaled(s, r).0))
    ensures Reports(CommitJournaled(s, r).0, CommitJournaled(s, r).1, r, stage)
  {
    TerminalBlockedKeepsDisk(s, r.operationId, r.deadlineMillis);
    var (s1, blocked) := TerminalBlocked(s, r.operationId, r.deadlineMillis);
    if blocked.Some? {
      stage := Untouched;
    } else {
      var (s2, installed) := WriteRecord(s1, Install, NextRecord(r), r.expectedGeneration);
      if installed {
        stage := InstalledLeaves(d, s2, r);
      } else {
        stage := if s2.crashed then Untouched else InstallFailed;
      }
    }
  }

  /** One commit attempt, whatever the environment does: the disk it leaves is
      one of the saga's stages, and an outcome reports exactly the record left. */
  lemma AcceptedLeaves(s: Store, r: CommitRequest) returns (stage: Stage)
    requires !s.tombstoned && Accepted(s.record, r)
    ensures CommitLeaves(DiskOf(s), r, stage, DiskOf(Commit(s, r).0))
    ensures Reports(Commit(s, r).0, Commit(s, r).1, r, stage)
  {
    TerminalBlockedKeepsDisk(s, r.operationId, r.deadlineMillis);
    var (s1, blocked) := TerminalBlocked(s, r.operationId, r.deadlineMillis);
    stage := Untouched;
    if blocked.None? {
      var (s2, journaled) := WritePending(s1, JournalOf(r));
      if journaled {
        stage := JournaledLeaves(DiskOf(s), s2, r);
      }
    }
  }

  /** Every disk a recovery can leave, finished or cut off at any step: only a
      journal whose desired settings are the visible ones is ever rolled back. */
  predicate RecoveryLeaves(d: Disk, stage: Stage, d': Disk) {
    && d'.tombstoned == d.tombstoned
    && (d'.pending == d.pending || d'.pending == None)
    && (d' == d.(pending := d'.pending)
        || (d.pending.Some? && !d.tombstoned && Matches(d.record, d.pending.value)
            && var j := d.pending.value;
               var rolled := RolledRecord(d.record, j.operationId, j.previous);
               match stage
               case Untouched => d' == d.(pending := d'.pending, runEntry := j.desired.launchAtStartup) && j.syncRunEntry
               case RolledBack => d' == d.(pending := d'.pending, record := rolled, log := d.log + [Write(Rollback, rolled, true)])
               case RollbackFailed => d' == d.(pending := d'.pending, log := d.log + [Write(Rollback, rolled, false)])
               case _ => false))
  }

  lemma RecoveryRollBackLeaves(s: Store, j: PendingJournal) returns (stage: Stage)
    requires !s.tombstoned && s.pending == Some(j) && Matches(s.record, j)
    ensures RecoveryLeaves(DiskOf(s), stage, DiskOf(RollBack(s, s.record, j.operationId, j.previous)))
  {
    var (w, landed) := WriteRecord(s, Rollback, RolledRecord(s.record, j.operationId, j.previous), s.record.generation);
    stage := if w.crashed then Untouched else if landed then RolledBack else RollbackFailed;
  }

  lemma RecoveryLiveLeaves(s: Store, j: PendingJournal) returns (stage: Stage)
    requires !s.tombstoned && s.pending == Some(j)
    ensures RecoveryLeaves(DiskOf(s), stage, DiskOf(RecoverLive(s, j).0))
    ensures var (t, o) := RecoverLive(s, j); o == Snapshot(LoadRecord(t), o.status)
  {
    stage := Untouched;
    if Matches(s.record, j) {
      var (s1, synced) := if j.syncRunEntry then SetStartup(s, j.desired.launchAtStartup) else (s, true);
      if !synced {
        stage := RecoveryRollBackLeaves(s1, j);
      }
    }
  }

  /** One recovery, whatever the environment does; its outcome reports the record left. */
  lemma RecoverLeaves(s: Store) returns (stage: Stage)
    ensures RecoveryLeaves(DiskOf(s), stage, DiskOf(Recover(s).0))
    ensures var (t, o) := Recover(s); o == Snapshot(LoadRecord(t), o.status)
  {
    stage := Untouched;
    if s.pending.Some? && !s.tombstoned {
      var j := s.pending.value;
      var (s1, expired) := RecoveryExpired(s, j);
      assert DiskOf(s1) == DiskOf(s);
      if expired {
        if Matches(s.record, j) {
          stage := RecoveryRollBackLeaves(MarkTimedOut(s1, j.operationId), j);
        }
      } else {
        stage := RecoveryLiveLeaves(s1, j);
      }
    }
  }
}
