/** The lines of the usage state format: how each is written and read. */
module UsageLines {
  import opened Wrappers
  import opened Text
  import opened UsageTypes
  import opened UsageStateModel

  const USAGE_STATE_HEADER := "rundog-usage-state-2"

  datatype Key =
    | Schema | Generation | Month | Day | LastMs | CatchUpDone | ReconciledMonth
    | ClaudeToday | ClaudeMonth | ClaudeTodayNanos | ClaudeMonthNanos | ClaudeIn | ClaudeOut
    | CodexToday | CodexMonth | CodexTodayNanos | CodexMonthNanos | CodexIn | CodexOut
    | Cursor | Prefix | ActiveMonth | FileIdKey | CodexModel | CPending | Seen | ContribDayKey | LegacyFile

  /** The numeric header fields, in the order they are written. */
  const NUMBER_KEYS: seq<Key> := [
    Schema, Generation, Month, Day, LastMs, CatchUpDone, ReconciledMonth,
    ClaudeToday, ClaudeMonth, ClaudeTodayNanos, ClaudeMonthNanos, ClaudeIn, ClaudeOut,
    CodexToday, CodexMonth, CodexTodayNanos, CodexMonthNanos, CodexIn, CodexOut]

  function Name(k: Key): string {
    match k
    case Schema => "schema"
    case Generation => "generation"
    case Month => "month"
    case Day => "day"
    case LastMs => "last_ms"
    case CatchUpDone => "catch_up_done"
    case ReconciledMonth => "codex_cache_reconciled_month"
    case ClaudeToday => "claude_today"
    case ClaudeMonth => "claude_month"
    case ClaudeTodayNanos => "claude_today_nanos"
    case ClaudeMonthNanos => "claude_month_nanos"
    case ClaudeIn => "claude_in"
    case ClaudeOut => "claude_out"
    case CodexToday => "codex_today"
    case CodexMonth => "codex_month"
    case CodexTodayNanos => "codex_today_nanos"
    case CodexMonthNanos => "codex_month_nanos"
    case CodexIn => "codex_in"
    case CodexOut => "codex_out"
    case Cursor => "cursor"
    case Prefix => "prefix"
    case ActiveMonth => "active_month"
    case FileIdKey => "file_id"
    case CodexModel => "codex_model"
    case CPending => "cpending"
    case Seen => "seen"
    case ContribDayKey => "contrib_day"
    case LegacyFile => "file"
  }

  predicate IsNumberKey(k: Key) {
    k !in {Cursor, Prefix, ActiveMonth, FileIdKey, CodexModel, CPending, Seen, ContribDayKey, LegacyFile}
  }

  /** The width of a numeric field. */
  function MaxOf(k: Key): nat {
    if k in {Schema, Month, Day, CatchUpDone, ReconciledMonth, ClaudeToday, ClaudeMonth, CodexToday, CodexMonth}
    then U32_MAX else U64_MAX
  }

  function AggregateKey(name: string): Option<Key> {
    if name == "schema" then Some(Schema)
    else if name == "generation" then Some(Generation)
    else if name == "month" then Some(Month)
    else if name == "day" then Some(Day)
    else if name == "last_ms" then Some(LastMs)
    else if name == "catch_up_done" then Some(CatchUpDone)
    else if name == "codex_cache_reconciled_month" then Some(ReconciledMonth)
    else None
  }

  function ClaudeKey(name: string): Option<Key> {
    if name == "claude_today" then Some(ClaudeToday)
    else if name == "claude_month" then Some(ClaudeMonth)
    else if name == "claude_today_nanos" then Some(ClaudeTodayNanos)
    else if name == "claude_month_nanos" then Some(ClaudeMonthNanos)
    else if name == "claude_in" then Some(ClaudeIn)
    else if name == "claude_out" then Some(ClaudeOut)
    else None
  }

  function CodexKey(name: string): Option<Key> {
    if name == "codex_today" then Some(CodexToday)
    else if name == "codex_month" then Some(CodexMonth)
    else if name == "codex_today_nanos" then Some(CodexTodayNanos)
    else if name == "codex_month_nanos" then Some(CodexMonthNanos)
    else if name == "codex_in" then Some(CodexIn)
    else if name == "codex_out" then Some(CodexOut)
    else None
  }

  function CursorLineKey(name: string): Option<Key> {
    if name == "cursor" then Some(Cursor)
    else if name == "prefix" then Some(Prefix)
    else if name == "active_month" then Some(ActiveMonth)
    else if name == "file_id" then Some(FileIdKey)
    else if name == "codex_model" then Some(CodexModel)
    else if name == "cpending" then Some(CPending)
    else if name == "seen" then Some(Seen)
    else if name == "contrib_day" then Some(ContribDayKey)
    else if name == "file" then Some(LegacyFile)
    else None
  }

  /** The key a line starts with; the names are pairwise different, so the order of
      the tests does not matter. */
  function KeyOf(name: string): Option<Key> {
    if AggregateKey(name).Some? then AggregateKey(name)
    else if ClaudeKey(name).Some? then ClaudeKey(name)
    else if CodexKey(name).Some? then CodexKey(name)
    else CursorLineKey(name)
  }

  lemma AggregateKeyOfName(k: Key)
    ensures AggregateKey(Name(k)) == if k in {Schema, Generation, Month, Day, LastMs, CatchUpDone, ReconciledMonth} then Some(k) else None
  {
  }

  lemma ClaudeKeyOfName(k: Key)
    ensures ClaudeKey(Name(k)) == if k in {ClaudeToday, ClaudeMonth, ClaudeTodayNanos, ClaudeMonthNanos, ClaudeIn, ClaudeOut} then Some(k) else None
  {
  }

  lemma CodexKeyOfName(k: Key)
    ensures CodexKey(Name(k)) == if k in {CodexToday, CodexMonth, CodexTodayNanos, CodexMonthNanos, CodexIn, CodexOut} then Some(k) else None
  {
  }

  lemma CursorLineKeyOfName(k: Key)
    ensures CursorLineKey(Name(k)) == if k in {Cursor, Prefix, ActiveMonth, FileIdKey, CodexModel, CPending, Seen, ContribDayKey, LegacyFile} then Some(k) else None
  {
    if k in {Cursor, Prefix, ActiveMonth, FileIdKey, CodexModel, CPending, Seen, ContribDayKey, LegacyFile} {
      CursorLineKeyFound(k);
      hide CursorLineKey;
    }
  }

  lemma CursorLineKeyFound(k: Key)
    requires k in {Cursor, Prefix, ActiveMonth, FileIdKey, CodexModel, CPending, Seen, ContribDayKey, LegacyFile}
    ensures CursorLineKey(Name(k)) == Some(k)
  {
  }

  lemma KeyOfName(k: Key)
    ensures KeyOf(Name(k)) == Some(k)
  {
    hide Name, AggregateKey, ClaudeKey, CodexKey, CursorLineKey;
    AggregateKeyOfName(k);
    ClaudeKeyOfName(k);
    CodexKeyOfName(k);
    CursorLineKeyOfName(k);
  }

  /** Letters and underscores. */
  predicate IsWord(s: string) {
    forall i :: 0 <= i < |s| ==> '_' <= s[i]
  }

  lemma AggregateNames(k: Key)
    requires k in {Schema, Generation, Month, Day, LastMs, CatchUpDone, ReconciledMonth}
    ensures IsWord(Name(k))
  {
    match k {
      case Schema =>
      case Generation =>
      case Month =>
      case Day =>
      case LastMs =>
      case CatchUpDone =>
      case ReconciledMonth =>
    }
  }

  lemma ClaudeNames(k: Key)
    requires k in {ClaudeToday, ClaudeMonth, ClaudeTodayNanos, ClaudeMonthNanos, ClaudeIn, ClaudeOut}
    ensures IsWord(Name(k))
  {
    match k {
      case ClaudeToday =>
      case ClaudeMonth =>
      case ClaudeTodayNanos =>
      case ClaudeMonthNanos =>
      case ClaudeIn =>
      case ClaudeOut =>
    }
  }

  lemma CodexNames(k: Key)
    requires k in {CodexToday, CodexMonth, CodexTodayNanos, CodexMonthNanos, CodexIn, CodexOut}
    ensures IsWord(Name(k))
  {
    match k {
      case CodexToday =>
      case CodexMonth =>
      case CodexTodayNanos =>
      case CodexMonthNanos =>
      case CodexIn =>
      case CodexOut =>
    }
  }

  lemma CursorNames(k: Key)
    requires k in {Cursor, Prefix, ActiveMonth, FileIdKey, CodexModel, CPending, Seen, ContribDayKey, LegacyFile}
    ensures IsWord(Name(k))
  {
    match k {
      case Cursor =>
      case Prefix =>
      case ActiveMonth =>
      case FileIdKey =>
      case CodexModel =>
      case CPending =>
      case Seen =>
      case ContribDayKey =>
      case LegacyFile =>
    }
  }

  lemma NameLacks(k: Key)
    ensures Lacks(Name(k), '=') && Lacks(Name(k), '\n')
  {
    match k {
      case Schema => AggregateNames(k);
      case Generation => AggregateNames(k);
      case Month => AggregateNames(k);
      case Day => AggregateNames(k);
      case LastMs => AggregateNames(k);
      case CatchUpDone => AggregateNames(k);
      case ReconciledMonth => AggregateNames(k);
      case ClaudeToday => ClaudeNames(k);
      case ClaudeMonth => ClaudeNames(k);
      case ClaudeTodayNanos => ClaudeNames(k);
      case ClaudeMonthNanos => ClaudeNames(k);
      case ClaudeIn => ClaudeNames(k);
      case ClaudeOut => ClaudeNames(k);
      case CodexToday => CodexNames(k);
      case CodexMonth => CodexNames(k);
      case CodexTodayNanos => CodexNames(k);
      case CodexMonthNanos => CodexNames(k);
      case CodexIn => CodexNames(k);
      case CodexOut => CodexNames(k);
      case Cursor => CursorNames(k);
      case Prefix => CursorNames(k);
      case ActiveMonth => CursorNames(k);
      case FileIdKey => CursorNames(k);
      case CodexModel => CursorNames(k);
      case CPending => CursorNames(k);
      case Seen => CursorNames(k);
      case ContribDayKey => CursorNames(k);
      case LegacyFile => CursorNames(k);
    }
  }

  /** Where each numeric field stands in the header. */
  function HeaderIndex(k: Key): nat {
    match k
    case Schema => 0
    case Generation => 1
    case Month => 2
    case Day => 3
    case LastMs => 4
    case CatchUpDone => 5
    case ReconciledMonth => 6
    case ClaudeToday => 7
    case ClaudeMonth => 8
    case ClaudeTodayNanos => 9
    case ClaudeMonthNanos => 10
    case ClaudeIn => 11
    case ClaudeOut => 12
    case CodexToday => 13
    case CodexMonth => 14
    case CodexTodayNanos => 15
    case CodexMonthNanos => 16
    case CodexIn => 17
    case CodexOut => 18
    case _ => 19
  }

  lemma HeaderListed(k: Key)
    requires IsNumberKey(k)
    ensures k in NUMBER_KEYS
  {
    assert NUMBER_KEYS[HeaderIndex(k)] == k;
  }

  lemma HeaderOnlyNumbers(i: nat)
    requires i < |NUMBER_KEYS|
    ensures IsNumberKey(NUMBER_KEYS[i])
  {
  }
}
