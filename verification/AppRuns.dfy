/** The application's memory against the durable store, over every run. */
module AppRuns {
  import opened Wrappers
  import opened Settings
  import opened CommitSaga
  import opened CommitLaws
  import opened SagaOutcomes
  import opened AppModel

  /** Between two events of a running application: nothing is in flight, and
      generation, operation id and resolved theme are those of the store. */
  predicate Idle(a: AppState, s: Store) {
    && a.running && a.pendingCommit.None? && !s.tombstoned
    && a.settingsGeneration == s.record.generation
    && a.lastOperationId == s.record.lastOperationId
    && a.nextOperationId >= SatAdd(a.lastOperationId, 1)
    && a.resolvedTheme == Resolve(a.settings.theme, a.systemTheme)
  }

  /** ... and the settings in memory, on disk and in the menus are the same. */
  predicate Agrees(a: AppState, p: Port) {
    Idle(a, p.store) && a.settings == p.store.record.settings && p.menus == a.settings
  }

  // ---- effects -------------------------------------------------------------

  lemma {:induction false} ExecuteAllAppend(p: Port, a: seq<Effect>, b: seq<Effect>)
    ensures var (q, e1) := ExecuteAll(p, a); var (r, e2) := ExecuteAll(q, b);
      ExecuteAll(p, a + b) == (r, e1 + e2)
    decreases |a|
  {
    if a == [] {
      assert a + b == b;
      var (r, e2) := ExecuteAll(p, b);
      assert [] + e2 == e2;
    } else {
      assert (a + b)[1..] == a[1..] + b;
      var (q, events) := Execute(p, a[0]);
      ExecuteAllAppend(q, a[1..], b);
      var (q1, e1) := ExecuteAll(q, a[1..]);
      var (r, e2) := ExecuteAll(q1, b);
      assert events + (e1 + e2) == (events + e1) + e2;
    }
  }

  lemma ExecuteOne(p: Port, effect: Effect)
    ensures ExecuteAll(p, [effect]) == Execute(p, effect)
  {
    var (q, events) := Execute(p, effect);
    assert [effect][1..] == [] && events + [] == events;
  }

  predicate Quiet(effects: seq<Effect>) {
    forall i :: 0 <= i < |effects| ==>
      effects[i].ModifyTray? || effects[i].NotifyStartupChanged? || effects[i].NotifyAutoUpdateChanged?
  }

  lemma {:induction false} QuietChangesNothing(p: Port, effects: seq<Effect>)
    requires Quiet(effects)
    ensures ExecuteAll(p, effects) == (p, [])
    decreases |effects|
  {
    if effects != [] {
      QuietChangesNothing(p, effects[1..]);
      assert Execute(p, effects[0]).1 + [] == [];
    }
  }

  /** The menu effects show exactly the given settings. */
  lemma MenusShow(p: Port, s: AppSettings)
    ensures ExecuteAll(p, Menus(s)) == (p.(menus := s), [])
  {
    var m := Menus(s);
    assert m == [m[0]] + ([m[1]] + ([m[2]] + ([m[3]] + [m[4]])));
    var p0 := p.(menus := p.menus.(theme := s.theme));
    var p1 := p0.(menus := p0.menus.(fpsLimit := s.fpsLimit));
    var p2 := p1.(menus := p1.menus.(displayMode := s.displayMode));
    var p3 := p2.(menus := p2.menus.(launchAtStartup := s.launchAtStartup));
    ExecuteOne(p, m[0]); ExecuteOne(p0, m[1]); ExecuteOne(p1, m[2]); ExecuteOne(p2, m[3]); ExecuteOne(p3, m[4]);
    ExecuteAllAppend(p2, [m[3]], [m[4]]);
    ExecuteAllAppend(p1, [m[2]], [m[3]] + [m[4]]);
    ExecuteAllAppend(p0, [m[1]], [m[2]] + ([m[3]] + [m[4]]));
    ExecuteAllAppend(p, [m[0]], [m[1]] + ([m[2]] + ([m[3]] + [m[4]])));
  }

  lemma MenusThenQuiet(p: Port, s: AppSettings, rest: seq<Effect>)
    requires Quiet(rest)
    ensures ExecuteAll(p, Menus(s) + rest) == (p.(menus := s), [])
  {
    ExecuteAllAppend(p, Menus(s), rest);
    MenusShow(p, s);
    QuietChangesNothing(p.(menus := s), rest);
  }

  // ---- one event -----------------------------------------------------------

  lemma ProcessStep(a: AppState, p: Port, e: Event)
    ensures var (b, effects) := Handle(a, e); var (q, events) := ExecuteAll(p, effects);
      Process(a, p, [e]) == Process(b, q, events)
  {
    assert [e][1..] == [];
    var (b, effects) := Handle(a, e);
    var (q, events) := ExecuteAll(p, effects);
    assert [] + events == events;
  }

  lemma ProcessLast(a: AppState, p: Port, e: Event)
    requires ExecuteAll(p, Handle(a, e).1).1 == []
    ensures Process(a, p, [e]) == (Handle(a, e).0, ExecuteAll(p, Handle(a, e).1).0)
  {
    ProcessStep(a, p, e);
  }

  /** The result of the commit in flight is taken: generation and id always, the settings only if applied. */
  lemma CommitResultTaken(a: AppState, p: Port, o: CommitOutcome)
    requires a.running && a.pendingCommit.Some?
    ensures var target := a.pendingCommit.value.settings;
      var (b, q) := Process(a, p, [SettingsCommitFinished(target, o.status, o.generation, o.lastOperationId)]);
      && b.running && b.pendingCommit.None? && b.systemTheme == a.systemTheme
      && b.settings == (if o.status == Applied then target else a.settings)
      && b.settingsGeneration == o.generation
      && b.lastOperationId == Max(o.lastOperationId, a.lastOperationId)
      && b.nextOperationId >= SatAdd(b.lastOperationId, 1)
      && b.resolvedTheme == (if o.status == Applied then Resolve(target.theme, a.systemTheme) else a.resolvedTheme)
      && q == p.(menus := b.settings)
  {
    var target := a.pendingCommit.value.settings;
    var e := SettingsCommitFinished(target, o.status, o.generation, o.lastOperationId);
    var (b, effects) := Handle(a, e);
    var rest := effects[5..];
    assert effects == Menus(b.settings) + rest;
    MenusThenQuiet(p, b.settings, rest);
    ProcessLast(a, p, e);
  }

  /** The port after the eager menu switch. */
  function Flipped(p: Port, target: AppSettings, e: Event): Port {
    if e.ToggleStartup? then p.(menus := p.menus.(launchAtStartup := target.launchAtStartup))
    else if e.ToggleAutoUpdate? then p.(menus := p.menus.(autoUpdate := target.autoUpdate))
    else p
  }

  function CommitEffect(a: AppState, e: Event): Effect {
    CommitSettings(a.nextOperationId, Target(a.settings, e), a.settings, a.settingsGeneration, e.ToggleStartup?)
  }

  /** A user change: the eager switch, then the commit, then its result. */
  lemma UserChangeExecutes(a: AppState, p: Port, e: Event)
    requires a.running && a.pendingCommit.None? && IsUserEvent(e) && Target(a.settings, e) != a.settings
    ensures var target := Target(a.settings, e);
      var (store, o) := ExecuteCommitEffect(p.store, CommitEffect(a, e));
      ExecuteAll(p, Handle(a, e).1)
      == (Flipped(p, target, e).(store := store),
          [SettingsCommitFinished(target, o.status, o.generation, o.lastOperationId)])
  {
    var target := Target(a.settings, e);
    var eager := EagerMenu(target, e);
    var commit := CommitEffect(a, e);
    assert Handle(a, e).1 == eager + [commit];
    hide Handle, ExecuteAll, ExecuteCommitEffect, Target;
    EagerExecutes(p, target, e);
    hide EagerMenu, Flipped;
    ExecuteAllAppend(p, eager, [commit]);
    ExecuteOne(Flipped(p, target, e), commit);
    var events := ExecuteAll(Flipped(p, target, e), [commit]).1;
    assert [] + events == events;
  }

  /** The menu shows a setting before it is committed. */
  lemma EagerExecutes(p: Port, target: AppSettings, e: Event)
    ensures ExecuteAll(p, EagerMenu(target, e)) == (Flipped(p, target, e), [])
  {
    var eager := EagerMenu(target, e);
    if eager != [] {
      ExecuteOne(p, eager[0]);
      assert eager == [eager[0]];
    }
  }

  /** What one event may do to an agreeing application: unless the process died,
      it agrees again exactly when no rollback write was lost, and the requested
      settings are in force exactly when the commit was applied. */
  ghost predicate EventSettles(a: AppState, p: Port, e: Event, b: AppState, q: Port) {
    && (b.running ==>
          && Idle(b, q.store)
          && b.settings in {a.settings, Target(a.settings, e)}
          && q.menus == b.settings
          && (b.settings == q.store.record.settings <==> !RollbackLost(p.store.log, q.store.log)))
    && (!b.running ==> e.ExitRequested?)
  }

  /** A settled commit, taken by the application that asked for it. */
  lemma TakenSettles(a: AppState, p: Port, e: Event, s: Store, r: CommitRequest, t: Store, o: CommitOutcome,
                     b: AppState, q: Port)
    requires Agrees(a, p) && s.record == p.store.record && s.log == p.store.log
    requires r.settings == Target(a.settings, e) && r.previous == a.settings && Settled(s, r, t, o)
    requires b.running && b.pendingCommit.None? && q.store == t && q.menus == b.settings
    requires b.settings == (if o.status == Applied then r.settings else a.settings)
    requires b.settingsGeneration == o.generation && b.lastOperationId == Max(o.lastOperationId, a.lastOperationId)
    requires b.nextOperationId >= SatAdd(b.lastOperationId, 1)
    requires b.resolvedTheme == Resolve(b.settings.theme, b.systemTheme)
    requires o.lastOperationId >= a.lastOperationId && r.previous != r.settings
    ensures EventSettles(a, p, e, b, q)
  {
  }

  lemma UserChangeSettles(a: AppState, p: Port, e: Event)
    requires Agrees(a, p) && IsUserEvent(e) && Target(a.settings, e) != a.settings
    ensures var (b, q) := Process(a, p, [e]);
      !q.store.crashed ==> EventSettles(a, p, e, b, q)
  {
    var s := NowMillis(p.store).0;
    var r := RequestOf(CommitEffect(a, e), s.gate.nowMillis);
    var (t, o) := Commit(s, r);
    var a1 := Handle(a, e).0;
    var p1 := Flipped(p, r.settings, e).(store := t);
    UserChangeProcess(a, p, e, a1, p1, o);
    var (b, q) := Process(a, p, [e]);
    CommitResultTaken(a1, p1, o);
    if !t.crashed {
      FinishedCommit(s, r);
      LastIdKept(s, r);
      TakenSettles(a, p, e, s, r, t, o, b, q);
    }
  }

  lemma LastIdKept(s: Store, r: CommitRequest)
    requires !s.tombstoned && Settled(s, r, Commit(s, r).0, Commit(s, r).1)
    ensures Commit(s, r).1.lastOperationId >= s.record.lastOperationId
  {
    if Accepted(s.record, r) {
    } else {
      assert Commit(s, r).0 == s;
    }
  }

  lemma UserChangeProcess(a: AppState, p: Port, e: Event, a1: AppState, p1: Port, o: CommitOutcome)
    requires a.running && a.pendingCommit.None? && IsUserEvent(e) && Target(a.settings, e) != a.settings
    requires a1 == Handle(a, e).0
    requires var (store, out) := ExecuteCommitEffect(p.store, CommitEffect(a, e));
      o == out && p1 == Flipped(p, Target(a.settings, e), e).(store := store)
    ensures Process(a, p, [e])
         == Process(a1, p1, [SettingsCommitFinished(Target(a.settings, e), o.status, o.generation, o.lastOperationId)])
  {
    UserChangeExecutes(a, p, e);
    ProcessStep(a, p, e);
  }

  /** A user change that nothing disturbs takes effect in memory and on disk. */
  lemma UndisturbedChangeApplies(a: AppState, p: Port, e: Event)
    requires Agrees(a, p) && IsUserEvent(e) && Target(a.settings, e) != a.settings
    requires a.nextOperationId > a.lastOperationId
    requires var s := p.store;
      !s.crashed && |s.env| >= 13 && s.env[0].cancel.None?
      && Healthy(s.env[1..], SatAdd(s.env[0].now, COMMIT_DEADLINE_MS))
      && s.gate.cancelled != Some(a.nextOperationId) && s.gate.timedOut != Some(a.nextOperationId)
    ensures var (b, q) := Process(a, p, [e]);
      Agrees(b, q) && b.settings == Target(a.settings, e) && q.store.pending.None?
  {
    var s := NowMillis(p.store).0;
    var r := RequestOf(CommitEffect(a, e), s.gate.nowMillis);
    var (t, o) := Commit(s, r);
    var a1 := Handle(a, e).0;
    var p1 := Flipped(p, r.settings, e).(store := t);
    UndisturbedCommitApplies(s, r);
    UserChangeProcess(a, p, e, a1, p1, o);
    CommitResultTaken(a1, p1, o);
    UserChangeSettles(a, p, e);
  }

  lemma ExitStores(a: AppState, p: Port)
    requires Agrees(a, p)
    ensures var (b, q) := Process(a, p, [ExitRequested]);
      && !b.running && b.settings == a.settings && q.store.record.settings == a.settings
      && q.store.record.lastOperationId == a.lastOperationId && q.store.record.generation >= a.settingsGeneration
  {
    var effects := Handle(a, ExitRequested).1;
    var p1 := Execute(p, effects[0]).0;
    assert effects == [effects[0]] + [effects[1]];
    ExecuteOne(p, effects[0]);
    ExecuteOne(p1, effects[1]);
    ExecuteAllAppend(p, [effects[0]], [effects[1]]);
    ProcessLast(a, p, ExitRequested);
  }

  /** Every event, every clock, every failed write. */
  lemma EventAgrees(a: AppState, p: Port, e: Event)
    requires Agrees(a, p)
    ensures var (b, q) := Process(a, p, [e]);
      !q.store.crashed ==> EventSettles(a, p, e, b, q)
  {
    if IsUserEvent(e) && Target(a.settings, e) != a.settings {
      UserChangeSettles(a, p, e);
    } else if e.ExitRequested? {
      ExitStores(a, p);
    } else {
      var effects := Handle(a, e).1;
      assert Quiet(effects);
      QuietChangesNothing(p, effects);
      ProcessLast(a, p, e);
    }
  }

  // ---- runs ----------------------------------------------------------------

  function RunEvents(a: AppState, p: Port, events: seq<Event>): (AppState, Port)
    decreases |events|
  {
    if events == [] then (a, p)
    else
      var (b, q) := Process(a, p, [events[0]]);
      RunEvents(b, q, events[1..])
  }

  /** Starting from the outcome of the launch recovery. */
  function Launched(s: Store, o: CommitOutcome, system: ResolvedTheme): (AppState, Port) {
    (AppState(o.settings, o.generation, o.lastOperationId, SatAdd(o.lastOperationId, 1),
              system, Resolve(o.settings.theme, system), true, None),
     Port(s, o.settings))
  }

  /** Recovery, the Run entry repair, and the first application state. */
  function StartProcess(s: Store, system: ResolvedTheme): (AppState, Port) {
    var (t, o) := Recover(s);
    Launched(Reconcile(t, o.settings), o, system)
  }

  /** A launch agrees with the store it recovered, however the recovery went. */
  lemma LaunchedAgrees(s: Store, system: ResolvedTheme)
    requires !s.tombstoned
    ensures Agrees(StartProcess(s, system).0, StartProcess(s, system).1)
  {
    var stage := RecoverLeaves(s);
  }

  /** No step of the run kills the process or loses a rollback write. */
  ghost predicate Undisturbed(a: AppState, p: Port, events: seq<Event>)
    decreases |events|
  {
    events == [] ||
    var (b, q) := Process(a, p, [events[0]]);
    !q.store.crashed && !RollbackLost(p.store.log, q.store.log) && Undisturbed(b, q, events[1..])
  }

  /** An application that has exited ignores every event. */
  lemma {:induction false} ExitedStays(a: AppState, p: Port, events: seq<Event>)
    requires !a.running
    ensures RunEvents(a, p, events) == (a, p)
    decreases |events|
  {
    if events != [] {
      ProcessLast(a, p, events[0]);
      ExitedStays(a, p, events[1..]);
    }
  }

  /** Whole-run agreement: from an agreeing start, for every sequence of events,
      every clock, cancellation and failed write short of a lost rollback, memory,
      disk and menus agree while the application runs, and the disk keeps its
      settings when it has exited. */
  lemma {:induction false} RunAgrees(a: AppState, p: Port, events: seq<Event>)
    requires Agrees(a, p) && Undisturbed(a, p, events)
    ensures var (b, q) := RunEvents(a, p, events);
      && (b.running ==> Agrees(b, q))
      && b.settings == q.store.record.settings
    decreases |events|
  {
    if events != [] {
      var (b, q) := Process(a, p, [events[0]]);
      EventAgrees(a, p, events[0]);
      if b.running {
        RunAgrees(b, q, events[1..]);
      } else {
        ExitStores(a, p);
        ExitedStays(b, q, events[1..]);
      }
    }
  }

  /** A process started by a recovery, over its whole life. */
  lemma LifeAgrees(s: Store, system: ResolvedTheme, events: seq<Event>)
    requires !s.tombstoned
    requires var (a, p) := StartProcess(s, system); Undisturbed(a, p, events)
    ensures var (a, p) := StartProcess(s, system);
      var (b, q) := RunEvents(a, p, events);
      (b.running ==> Agrees(b, q)) && b.settings == q.store.record.settings
  {
    var (a, p) := StartProcess(s, system);
    LaunchedAgrees(s, system);
    RunAgrees(a, p, events);
  }
}
