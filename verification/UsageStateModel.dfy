/** The durable usage state: one aggregate and one cursor per source file. */
module UsageStateModel {
  import opened Wrappers
  import opened UsageTypes

  const USAGE_STATE_SCHEMA_VERSION: nat := 7

  datatype CursorKind = Claude | Codex

  datatype FileDayContrib = FileDayContrib(nanos: u64, input: u64, output: u64)

  datatype ContribDay = ContribDay(day: u32, contrib: FileDayContrib)

  datatype FileId = FileId(volume: u32, high: u32, low: u32)

  datatype Identity = Identity(kind: CursorKind, logicalId: string)

  datatype UsageCursor = UsageCursor(
    id: Identity,
    offset: u64,
    size: u64,
    fileId: Option<FileId>,
    prefix: Option<u64>,
    lastModel: Option<string>,
    seenKeys: seq<UsageDedupeKey>,
    claudePending: seq<ClaudePendingUsage>,
    activeMonth: Option<u32>,
    contribDays: seq<ContribDay>)

  datatype LimitWindow = LimitWindow(usedTenths: nat, resetsAtMs: u64, windowMinutes: nat)

  /** `live` holds what a remote fetch fills in and no format persists. */
  datatype ProviderUsage = ProviderUsage(
    todayCents: u32,
    monthCents: u32,
    todayCostNanos: u64,
    monthCostNanos: u64,
    monthInputTokens: u64,
    monthOutputTokens: u64,
    live: LiveUsage)

  datatype LiveUsage = LiveUsage(
    plan: string,
    primary: Option<LimitWindow>,
    secondary: Option<LimitWindow>,
    fable: Option<LimitWindow>,
    bankedResetAvailable: Option<nat>)

  const NO_LIVE := LiveUsage("", None, None, None, None)

  datatype UsageSnapshot = UsageSnapshot(claude: ProviderUsage, codex: ProviderUsage, monthScanInProgress: bool)

  datatype UsageAggregate = UsageAggregate(
    monthStart: u32,
    today: u32,
    lastCollectedMs: u64,
    catchUpDone: bool,
    codexCacheReconciledMonth: Option<u32>,
    snapshot: UsageSnapshot)

  datatype UsageState = UsageState(
    generation: u64,
    schemaVersion: u32,
    aggregate: UsageAggregate,
    cursors: seq<UsageCursor>)

  function SeenCap(kind: CursorKind): nat {
    match kind
    case Claude => SEEN_CAP_CLAUDE
    case Codex => SEEN_CAP_CODEX
  }

  predicate IsMonthOfYear(month: nat) {
    month % 100 == 1 && 1 <= month / 100 % 100 <= 12
  }

  predicate IsMonthStart(month: nat) {
    month / 10_000 > 0 && IsMonthOfYear(month)
  }

  function MonthOf(day: nat): nat {
    day / 100 * 100 + 1
  }

  predicate IsModelChar(c: char) {
    '0' <= c <= '9' || 'a' <= c <= 'z' || 'A' <= c <= 'Z' || c == '.' || c == '-' || c == '_'
  }

  predicate IsSafeModel(model: string) {
    0 < |model| <= 64 && forall i :: 0 <= i < |model| ==> IsModelChar(model[i])
  }
}
