/** The application object and its event loop, proved equal to `AppModel`. */
module Application {
  import opened Wrappers
  import opened Settings
  import opened CommitSaga
  import opened CommitProtocol
  import opened AppModel
  import AppRuns

  class App {
    var settings: AppSettings
    var settingsGeneration: u64
    var lastOperationId: u64
    var nextOperationId: u64
    var systemTheme: ResolvedTheme
    var resolvedTheme: ResolvedTheme
    var running: bool
    var pendingCommit: Option<PendingCommit>

    constructor WithPersistence(settings: AppSettings, generation: u64, lastOperationId: u64, system: ResolvedTheme)
      ensures State() == AppState(settings, generation, lastOperationId, SatAdd(lastOperationId, 1),
                                  system, Resolve(settings.theme, system), false, None)
    {
      this.settings, this.settingsGeneration, this.lastOperationId := settings, generation, lastOperationId;
      this.nextOperationId := SatAdd(lastOperationId, 1);
      this.systemTheme, this.resolvedTheme := system, Resolve(settings.theme, system);
      this.running, this.pendingCommit := false, None;
    }

    function State(): AppState
      reads this
    {
      AppState(settings, settingsGeneration, lastOperationId, nextOperationId,
               systemTheme, resolvedTheme, running, pendingCommit)
    }

    /** Starting twice is a no-op. */
    method Start() returns (effects: seq<Effect>)
      modifies this`running
      ensures State() == old(State()).(running := true)
      ensures effects == if old(running) then [] else Menus(settings)
    {
      if running {
        return [];
      }
      running := true;
      effects := Menus(settings);
    }

    method Dispatch(event: Event) returns (effects: seq<Effect>)
      modifies this
      ensures (State(), effects) == Handle(old(State()), event)
    {
      assert forall commit: Effect :: [] + [commit] == [commit];
      if !running {
        return [];
      }
      match event {
        case SettingsCommitFinished(settings, status, generation, last) =>
          effects := FinishCommit(settings, status, generation, last);
        case SystemThemeChanged(theme) =>
          systemTheme := theme;
          var resolved := Resolve(settings.theme, theme);
          if resolvedTheme == resolved {
            return [];
          }
          resolvedTheme := resolved;
          effects := [ModifyTray];
        case ExitRequested =>
          effects := Exit();
        case Unrelated =>
          effects := [];
        case SelectTheme(theme) =>
          effects := Select(settings.(theme := theme));
        case SelectFpsLimit(limit) =>
          effects := Select(settings.(fpsLimit := limit));
        case SelectDisplayMode(mode) =>
          effects := Select(settings.(displayMode := mode));
        case ToggleStartup =>
          if pendingCommit.Some? {
            return [];
          }
          var target := settings.(launchAtStartup := !settings.launchAtStartup);
          effects := BeginCommit(target, settings, true);
          effects := [SetStartupMenu(target.launchAtStartup)] + effects;
        case ToggleAutoUpdate =>
          if pendingCommit.Some? {
            return [];
          }
          var target := settings.(autoUpdate := !settings.autoUpdate);
          effects := BeginCommit(target, settings, false);
          effects := [SetAutoUpdateMenu(target.autoUpdate)] + effects;
      }
    }

    /** A menu choice: ignored when it changes nothing or a commit is in flight. */
    method Select(target: AppSettings) returns (effects: seq<Effect>)
      modifies this
      ensures (State(), effects) ==
        if target == old(settings) || old(pendingCommit).Some? then (old(State()), [])
        else (old(State()).(nextOperationId := SatAdd(old(nextOperationId), 1),
                            pendingCommit := Some(PendingCommit(old(nextOperationId), target, old(settings), false))),
              [CommitSettings(old(nextOperationId), target, old(settings), old(settingsGeneration), false)])
    {
      if settings == target || pendingCommit.Some? {
        return [];
      }
      effects := BeginCommit(target, settings, false);
    }

    method BeginCommit(target: AppSettings, previous: AppSettings, syncRunEntry: bool) returns (effects: seq<Effect>)
      modifies this`nextOperationId, this`pendingCommit
      ensures nextOperationId == SatAdd(old(nextOperationId), 1)
      ensures pendingCommit == Some(PendingCommit(old(nextOperationId), target, previous, syncRunEntry))
      ensures effects == [CommitSettings(old(nextOperationId), target, previous, settingsGeneration, syncRunEntry)]
    {
      var operationId := nextOperationId;
      nextOperationId := SatAdd(nextOperationId, 1);
      pendingCommit := Some(PendingCommit(operationId, target, previous, syncRunEntry));
      effects := [CommitSettings(operationId, target, previous, settingsGeneration, syncRunEntry)];
    }

    method FinishCommit(target: AppSettings, status: CommitStatus, newGeneration: u64, lastId: u64)
      returns (effects: seq<Effect>)
      modifies this
      ensures (State(), effects) == HandleCommitFinished(old(State()), target, status, newGeneration, lastId)
    {
      if pendingCommit.None? {
        return [];
      }
      var pending := pendingCommit.value;
      if pending.settings != target {
        return [];
      }
      pendingCommit := None;
      settingsGeneration := newGeneration;
      lastOperationId := Max(lastId, lastOperationId);
      nextOperationId := Max(nextOperationId, SatAdd(lastOperationId, 1));
      if status != Applied {
        return Menus(settings);
      }
      var previousResolved, previousDisplay := resolvedTheme, settings.displayMode;
      settings := target;
      resolvedTheme := Resolve(target.theme, systemTheme);
      effects := Menus(settings);
      if pending.syncRunEntry {
        effects := effects + [NotifyStartupChanged(settings.launchAtStartup)];
      }
      if pending.previous.autoUpdate != settings.autoUpdate {
        effects := effects + [NotifyAutoUpdateChanged(settings.autoUpdate)];
      }
      if previousResolved != resolvedTheme || previousDisplay != settings.displayMode {
        effects := effects + [ModifyTray];
      }
    }

    method Exit() returns (effects: seq<Effect>)
      modifies this`running, this`pendingCommit
      ensures (State(), effects) == HandleExit(old(State()))
    {
      running := false;
      effects := [];
      if pendingCommit.Some? {
        effects := [CancelCommit(pendingCommit.value.operationId)];
        pendingCommit := None;
      }
      effects := effects + [StoreOnExit(settings), Quit];
    }
  }

  /** The platform boundary: a store and the visible menus. */
  class EffectPort {
    const store: DurableStore
    var menus: AppSettings

    constructor (store: DurableStore, menus: AppSettings)
      ensures this.store == store && this.menus == menus
    {
      this.store, this.menus := store, menus;
    }

    ghost function Value(): Port
      reads this, store, store.gate
    {
      Port(store.Value(), menus)
    }

    /** Executes one effect; a commit feeds its result back. */
    method Execute(effect: Effect) returns (events: seq<Event>)
      modifies this, store, store.gate
      ensures (Value(), events) == AppModel.Execute(old(Value()), effect)
    {
      events := [];
      match effect {
        case CommitSettings(operationId, settings, previous, expectedGeneration, syncRunEntry) =>
          var now := store.NowMillis();
          var outcome := ExecuteCommit(store, CommitRequest(operationId, expectedGeneration, settings, previous,
                                                            syncRunEntry, SatAdd(now, COMMIT_DEADLINE_MS)));
          events := [SettingsCommitFinished(settings, outcome.status, outcome.generation, outcome.lastOperationId)];
        case CancelCommit(operationId) => store.gate.Cancel(operationId);
        case StoreOnExit(settings) => CommitProtocol.SaveSettings(store, settings);
        case SetThemeMenu(theme) => menus := menus.(theme := theme);
        case SetFpsMenu(limit) => menus := menus.(fpsLimit := limit);
        case SetDisplayMenu(mode) => menus := menus.(displayMode := mode);
        case SetStartupMenu(enabled) => menus := menus.(launchAtStartup := enabled);
        case SetAutoUpdateMenu(enabled) => menus := menus.(autoUpdate := enabled);
        case _ =>
      }
    }

    method ExecuteAll(effects: seq<Effect>) returns (events: seq<Event>)
      modifies this, store, store.gate
      ensures (Value(), events) == AppModel.ExecuteAll(old(Value()), effects)
    {
      events := [];
      var i := 0;
      while i < |effects|
        invariant 0 <= i <= |effects|
        invariant (Value(), events) == AppModel.ExecuteAll(old(Value()), effects[..i])
      {
        ghost var before := Value();
        var more := Execute(effects[i]);
        assert effects[..i + 1] == effects[..i] + [effects[i]];
        AppRuns.ExecuteAllAppend(old(Value()), effects[..i], [effects[i]]);
        AppRuns.ExecuteOne(before, effects[i]);
        events := events + more;
        i := i + 1;
      }
      assert effects[..i] == effects;
    }
  }

  /** Runs an event and the commit results it generates, until the queue is empty. */
  method DispatchAndExecute(app: App, port: EffectPort, event: Event)
    modifies app, port, port.store, port.store.gate
    ensures (app.State(), port.Value()) == Process(old(app.State()), old(port.Value()), [event])
  {
    var queue := [event];
    while queue != []
      invariant Process(app.State(), port.Value(), queue) == Process(old(app.State()), old(port.Value()), [event])
      decreases Weight(queue)
    {
      ghost var a, p, before := app.State(), port.Value(), queue;
      var next := queue[0];
      queue := queue[1..];
      var effects := app.Dispatch(next);
      var events := port.ExecuteAll(effects);
      queue := queue + events;
      HandleCommitCount(a, next);
      ExecuteAllWeight(p, effects);
      WeightAppend(before[1..], events);
    }
  }

  /** Recovery, the Run entry brought into line, and the application built from the record. */
  method LaunchProcess(store: DurableStore, system: ResolvedTheme) returns (app: App, port: EffectPort)
    requires !store.tombstoned
    modifies store, store.gate
    ensures fresh(app) && fresh(port) && port.store == store
    ensures (app.State(), port.Value()) == AppRuns.StartProcess(old(store.Value()), system)
  {
    var outcome := RecoverPending(store);
    var _ := store.SetStartup(outcome.settings.launchAtStartup);
    app := new App.WithPersistence(outcome.settings, outcome.generation, outcome.lastOperationId, system);
    port := new EffectPort(store, outcome.settings);
    var _ := app.Start();
  }

  /** The life of a process on an existing store: recover, repair the Run entry,
      then handle events. Memory, disk and menus agree in the end unless a step
      killed the process or lost a rollback write. */
  method RunProcess(store: DurableStore, system: ResolvedTheme, events: seq<Event>) returns (app: App, port: EffectPort)
    requires !store.tombstoned
    modifies store, store.gate
    ensures port.store == store
    ensures var (a, p) := AppRuns.StartProcess(old(store.Value()), system);
      && (app.State(), port.Value()) == AppRuns.RunEvents(a, p, events)
      && (AppRuns.Undisturbed(a, p, events) ==>
            app.settings == store.record.settings && (app.running ==> AppRuns.Agrees(app.State(), port.Value())))
  {
    ghost var s := store.Value();
    app, port := LaunchProcess(store, system);
    ghost var (a0, p0) := AppRuns.StartProcess(s, system);
    var i := 0;
    assert events[0..] == events;
    while i < |events|
      invariant 0 <= i <= |events|
      invariant AppRuns.RunEvents(app.State(), port.Value(), events[i..]) == AppRuns.RunEvents(a0, p0, events)
    {
      DispatchAndExecute(app, port, events[i]);
      assert events[i..][1..] == events[i + 1..];
      i := i + 1;
    }
    if AppRuns.Undisturbed(a0, p0, events) {
      AppRuns.LifeAgrees(s, system, events);
    }
  }
}
