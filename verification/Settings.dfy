/** Persisted settings and the two durable records built from them. */
module Settings {
  import opened Wrappers

  datatype ThemePreference = System | Light | Dark
  datatype ResolvedTheme = LightIcons | DarkIcons
  datatype FpsLimit = Fps10 | Fps20 | Fps30 | Fps40
  datatype TrayDisplayMode =
    Dog | Cpu | Memory | Gpu | Claude5h | ClaudeWeek | FableWeek | Codex5h | CodexWeek

  datatype AppSettings = AppSettings(
    theme: ThemePreference,
    fpsLimit: FpsLimit,
    launchAtStartup: bool,
    displayMode: TrayDisplayMode,
    autoUpdate: bool)

  const DEFAULT_SETTINGS := AppSettings(System, Fps40, false, Dog, true)

  /** One durable configuration generation. */
  datatype SettingsRecord = SettingsRecord(generation: u64, lastOperationId: u64, settings: AppSettings)

  /** The in-flight saga, as written before the record. */
  datatype PendingJournal = PendingJournal(
    operationId: u64,
    baseGeneration: u64,
    desired: AppSettings,
    previous: AppSettings,
    syncRunEntry: bool,
    deadlineMillis: u64)

  function Resolve(theme: ThemePreference, system: ResolvedTheme): ResolvedTheme {
    match theme
    case System => system
    case Light => LightIcons
    case Dark => DarkIcons
  }
}
