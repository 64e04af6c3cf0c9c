/** The application state machine as functions, and its agreement with the
    store over every run of events. */
module AppModel {
  import opened Wrappers
  import opened Settings
  import opened CommitSaga
  import opened CommitLaws
  import opened SagaOutcomes

  const COMMIT_DEADLINE_MS: u64 := 5_000

  datatype PendingCommit = PendingCommit(
    operationId: u64, settings: AppSettings, previous: AppSettings, syncRunEntry: bool)

  datatype AppState = AppState(
    settings: AppSettings,
    settingsGeneration: u64,
    lastOperationId: u64,
    nextOperationId: u64,
    systemTheme: ResolvedTheme,
    resolvedTheme: ResolvedTheme,
    running: bool,
    pendingCommit: Option<PendingCommit>)

  /** `Unrelated` stands for samples, timers and tray clicks, which touch no setting. */
  datatype Event =
    | SelectTheme(theme: ThemePreference)
    | SelectFpsLimit(limit: FpsLimit)
    | SelectDisplayMode(mode: TrayDisplayMode)
    | ToggleStartup
    | ToggleAutoUpdate
    | SystemThemeChanged(resolved: ResolvedTheme)
    | SettingsCommitFinished(settings: AppSettings, status: CommitStatus, newGeneration: u64, lastOperationId: u64)
    | ExitRequested
    | Unrelated

  datatype Effect =
    | SetThemeMenu(theme: ThemePreference)
    | SetFpsMenu(limit: FpsLimit)
    | SetDisplayMenu(mode: TrayDisplayMode)
    | SetStartupMenu(enabled: bool)
    | SetAutoUpdateMenu(enabled: bool)
    | NotifyStartupChanged(enabled: bool)
    | NotifyAutoUpdateChanged(enabled: bool)
    | ModifyTray
    | CommitSettings(operationId: u64, settings: AppSettings, previous: AppSettings,
                     expectedGeneration: u64, syncRunEntry: bool)
    | CancelCommit(operationId: u64)
    | StoreOnExit(settings: AppSettings)
    | Quit

  // ---- dispatch ------------------------------------------------------------

  /** The settings a user event asks for. */
  function Target(current: AppSettings, e: Event): AppSettings {
    match e
    case SelectTheme(theme) => current.(theme := theme)
    case SelectFpsLimit(limit) => current.(fpsLimit := limit)
    case SelectDisplayMode(mode) => current.(displayMode := mode)
    case ToggleStartup => current.(launchAtStartup := !current.launchAtStartup)
    case ToggleAutoUpdate => current.(autoUpdate := !current.autoUpdate)
    case _ => current
  }

  predicate IsUserEvent(e: Event) {
    e.SelectTheme? || e.SelectFpsLimit? || e.SelectDisplayMode? || e.ToggleStartup? || e.ToggleAutoUpdate?
  }

  function Menus(settings: AppSettings): seq<Effect> {
    [SetThemeMenu(settings.theme), SetFpsMenu(settings.fpsLimit), SetDisplayMenu(settings.displayMode),
     SetStartupMenu(settings.launchAtStartup), SetAutoUpdateMenu(settings.autoUpdate)]
  }

  /** The switch that flips before its commit is known to have worked. */
  function EagerMenu(target: AppSettings, e: Event): seq<Effect> {
    if e.ToggleStartup? then [SetStartupMenu(target.launchAtStartup)]
    else if e.ToggleAutoUpdate? then [SetAutoUpdateMenu(target.autoUpdate)]
    else []
  }

  function HandleUserEvent(a: AppState, e: Event): (AppState, seq<Effect>) {
    var target := Target(a.settings, e);
    if target == a.settings || a.pendingCommit.Some? then (a, [])
    else
      var sync := e.ToggleStartup?;
      (a.(nextOperationId := SatAdd(a.nextOperationId, 1),
          pendingCommit := Some(PendingCommit(a.nextOperationId, target, a.settings, sync))),
       EagerMenu(target, e)
       + [CommitSettings(a.nextOperationId, target, a.settings, a.settingsGeneration, sync)])
  }

  function HandleCommitFinished(a: AppState, settings: AppSettings, status: CommitStatus,
                                newGeneration: u64, lastOperationId: u64): (AppState, seq<Effect>) {
    if a.pendingCommit.None? || a.pendingCommit.value.settings != settings then (a, [])
    else
      var pending := a.pendingCommit.value;
      var last := Max(lastOperationId, a.lastOperationId);
      var b := a.(pendingCommit := None, settingsGeneration := newGeneration, lastOperationId := last,
                  nextOperationId := Max(a.nextOperationId, SatAdd(last, 1)));
      if status != Applied then (b, Menus(b.settings))
      else
        var c := b.(settings := settings, resolvedTheme := Resolve(settings.theme, b.systemTheme));
        var e0 := Menus(settings);
        var e1 := if pending.syncRunEntry then e0 + [NotifyStartupChanged(settings.launchAtStartup)] else e0;
        var e2 := if pending.previous.autoUpdate != settings.autoUpdate
                  then e1 + [NotifyAutoUpdateChanged(settings.autoUpdate)] else e1;
        (c, if a.resolvedTheme != c.resolvedTheme || a.settings.displayMode != settings.displayMode
            then e2 + [ModifyTray] else e2)
  }

  function HandleSystemTheme(a: AppState, theme: ResolvedTheme): (AppState, seq<Effect>) {
    var b := a.(systemTheme := theme, resolvedTheme := Resolve(a.settings.theme, theme));
    (b, if b.resolvedTheme == a.resolvedTheme then [] else [ModifyTray])
  }

  function HandleExit(a: AppState): (AppState, seq<Effect>) {
    (a.(running := false, pendingCommit := None),
     (if a.pendingCommit.Some? then [CancelCommit(a.pendingCommit.value.operationId)] else [])
     + [StoreOnExit(a.settings), Quit])
  }

  function Handle(a: AppState, e: Event): (AppState, seq<Effect>) {
    if !a.running then (a, [])
    else
      match e
      case SettingsCommitFinished(settings, status, generation, last) =>
        HandleCommitFinished(a, settings, status, generation, last)
      case SystemThemeChanged(theme) => HandleSystemTheme(a, theme)
      case ExitRequested => HandleExit(a)
      case Unrelated => (a, [])
      case _ => HandleUserEvent(a, e)
  }

  // ---- execution -----------------------------------------------------------

  /** The platform boundary: the store, and what the menus show. */
  datatype Port = Port(store: Store, menus: AppSettings)

  function RequestOf(effect: Effect, now: u64): CommitRequest
    requires effect.CommitSettings?
  {
    CommitRequest(effect.operationId, effect.expectedGeneration, effect.settings, effect.previous,
                  effect.syncRunEntry, SatAdd(now, COMMIT_DEADLINE_MS))
  }

  function ExecuteCommitEffect(s: Store, effect: Effect): (Store, CommitOutcome)
    requires effect.CommitSettings?
  {
    var (clocked, now) := NowMillis(s);
    Commit(clocked, RequestOf(effect, now))
  }

  function CancelOperation(s: Store, operationId: u64): Store {
    s.(gate := s.gate.(cancelled := Some(operationId)))
  }

  /** One effect, and the event it feeds back. */
  function Execute(p: Port, effect: Effect): (Port, seq<Event>) {
    match effect
    case CommitSettings(_, settings, _, _, _) =>
      var (store, o) := ExecuteCommitEffect(p.store, effect);
      (p.(store := store), [SettingsCommitFinished(settings, o.status, o.generation, o.lastOperationId)])
    case CancelCommit(operationId) => (p.(store := CancelOperation(p.store, operationId)), [])
    case StoreOnExit(settings) => (p.(store := CommitSaga.SaveSettings(p.store, settings)), [])
    case SetThemeMenu(theme) => (p.(menus := p.menus.(theme := theme)), [])
    case SetFpsMenu(limit) => (p.(menus := p.menus.(fpsLimit := limit)), [])
    case SetDisplayMenu(mode) => (p.(menus := p.menus.(displayMode := mode)), [])
    case SetStartupMenu(enabled) => (p.(menus := p.menus.(launchAtStartup := enabled)), [])
    case SetAutoUpdateMenu(enabled) => (p.(menus := p.menus.(autoUpdate := enabled)), [])
    case _ => (p, [])
  }

  function ExecuteAll(p: Port, effects: seq<Effect>): (Port, seq<Event>)
    decreases |effects|
  {
    if effects == [] then (p, [])
    else
      var (q, events) := Execute(p, effects[0]);
      var (r, more) := ExecuteAll(q, effects[1..]);
      (r, events + more)
  }

  /** What is still to be done: a commit result counts once, other events twice. */
  function Weight(queue: seq<Event>): nat
    decreases |queue|
  {
    if queue == [] then 0
    else (if queue[0].SettingsCommitFinished? then 1 else 2) + Weight(queue[1..])
  }

  function CommitCount(effects: seq<Effect>): nat
    decreases |effects|
  {
    if effects == [] then 0
    else (if effects[0].CommitSettings? then 1 else 0) + CommitCount(effects[1..])
  }

  lemma {:induction false} WeightAppend(a: seq<Event>, b: seq<Event>)
    ensures Weight(a + b) == Weight(a) + Weight(b)
    decreases |a|
  {
    if a == [] {
      assert a + b == b;
    } else {
      assert (a + b)[1..] == a[1..] + b;
      WeightAppend(a[1..], b);
    }
  }

  lemma {:induction false} CommitCountAppend(a: seq<Effect>, b: seq<Effect>)
    ensures CommitCount(a + b) == CommitCount(a) + CommitCount(b)
    decreases |a|
  {
    if a == [] {
      assert a + b == b;
    } else {
      assert (a + b)[1..] == a[1..] + b;
      CommitCountAppend(a[1..], b);
    }
  }

  /** Only commits feed events back, one result each. */
  lemma {:induction false} ExecuteAllWeight(p: Port, effects: seq<Effect>)
    ensures Weight(ExecuteAll(p, effects).1) == CommitCount(effects)
    decreases |effects|
  {
    if effects != [] {
      var (q, events) := Execute(p, effects[0]);
      ExecuteAllWeight(q, effects[1..]);
      WeightAppend(events, ExecuteAll(q, effects[1..]).1);
      if effects[0].CommitSettings? {
        assert events[1..] == [];
      }
    }
  }

  /** A commit result never asks for another commit; any other event asks for at most one. */
  lemma HandleCommitCount(a: AppState, e: Event)
    ensures CommitCount(Handle(a, e).1) <= if e.SettingsCommitFinished? then 0 else 1
  {
    var effects := Handle(a, e).1;
    hide Target;
    if a.running && IsUserEvent(e) && effects != [] {
      var eager := EagerMenu(Target(a.settings, e), e);
      var commit := [effects[|effects| - 1]];
      CommitCountAppend(eager, commit);
      assert commit[1..] == [];
      assert eager == [] || eager[1..] == [];
    } else {
      NoCommits(effects);
    }
  }

  lemma NoCommits(effects: seq<Effect>)
    requires forall i :: 0 <= i < |effects| ==> !effects[i].CommitSettings?
    ensures CommitCount(effects) == 0
    decreases |effects|
  {
  }

  /** The event queue: every event is dispatched, its effects are executed in
      order, and commit results join the back of the queue. */
  function Process(a: AppState, p: Port, queue: seq<Event>): (AppState, Port)
    decreases Weight(queue)
  {
    if queue == [] then (a, p)
    else
      var (b, effects) := Handle(a, queue[0]);
      var (q, events) := ExecuteAll(p, effects);
      HandleCommitCount(a, queue[0]);
      ExecuteAllWeight(p, effects);
      WeightAppend(queue[1..], events);
      Process(b, q, queue[1..] + events)
  }
}
