/** The text of the settings record and of the pending journal, with the older
    formats that are still read. */
module SettingsCodec {
  import opened Wrappers
  import opened Text
  import opened Settings

  // ---- names ---------------------------------------------------------------------

  function ThemeName(t: ThemePreference): string {
    match t
    case System => "system"
    case Light => "light"
    case Dark => "dark"
  }

  function ParseTheme(value: string): Option<ThemePreference> {
    var v := Lower(Trim(value));
    if v == "system" then Some(System) else if v == "light" then Some(Light) else if v == "dark" then Some(Dark) else None
  }

  function FpsName(f: FpsLimit): string {
    match f
    case Fps10 => "10"
    case Fps20 => "20"
    case Fps30 => "30"
    case Fps40 => "40"
  }

  function ParseFps(value: string): Option<FpsLimit> {
    var v := Trim(value);
    if v == "10" then Some(Fps10) else if v == "20" then Some(Fps20)
    else if v == "30" then Some(Fps30) else if v == "40" then Some(Fps40) else None
  }

  function DisplayName(d: TrayDisplayMode): string {
    match d
    case Dog => "dog"
    case Cpu => "cpu"
    case Memory => "memory"
    case Gpu => "gpu"
    case Claude5h => "claude_5h"
    case ClaudeWeek => "claude_week"
    case FableWeek => "fable_week"
    case Codex5h => "codex_5h"
    case CodexWeek => "codex_week"
  }

  function ParseDisplay(value: string): Option<TrayDisplayMode> {
    DisplayOf(Lower(Trim(value)))
  }

  function DisplayOf(v: string): Option<TrayDisplayMode> {
    if v == "dog" then Some(Dog) else if v == "cpu" then Some(Cpu) else if v == "memory" then Some(Memory)
    else if v == "gpu" then Some(Gpu) else if v == "claude_5h" then Some(Claude5h)
    else if v == "claude_week" then Some(ClaudeWeek) else if v == "fable_week" then Some(FableWeek)
    else if v == "codex_5h" then Some(Codex5h) else if v == "codex_week" then Some(CodexWeek) else None
  }

  function BoolName(b: bool): string {
    if b then "1" else "0"
  }

  function ParseBool01(value: string): Option<bool> {
    if value == "0" then Some(false) else if value == "1" then Some(true) else None
  }

  // ---- fields --------------------------------------------------------------------

  function Field(name: string, value: string): string {
    name + ['='] + value
  }

  /** `split_once` at the first equals sign; the key must be the expected one. */
  function ParseField(line: string, name: string): Option<string> {
    match SplitOnce(line, '=')
    case None => None
    case Some((key, value)) => if key == name then Some(value) else None
  }

  function ParseU64Field(line: string, name: string): Option<u64> {
    match ParseField(line, name)
    case None => None
    case Some(value) => ParseUint(value, U64_MAX)
  }

  function ParseBoolField(line: string, name: string): Option<bool> {
    match ParseField(line, name)
    case None => None
    case Some(value) => ParseBool01(value)
  }

  /** How much of the settings a format holds: three lines, then the display, then auto-update. */
  type Extent = n: nat | 3 <= n <= 5 witness 3

  function SettingsLines(prefix: string, s: AppSettings, extent: Extent): (lines: seq<string>)
    ensures |lines| == extent
  {
    [Field(prefix + "theme", ThemeName(s.theme)),
     Field(prefix + "fps", FpsName(s.fpsLimit)),
     Field(prefix + "startup", BoolName(s.launchAtStartup))]
    + (if extent >= 4 then [Field(prefix + "display", DisplayName(s.displayMode))] else [])
    + (if extent == 5 then [Field(prefix + "auto_update", BoolName(s.autoUpdate))] else [])
  }

  function ParseThemeField(line: string, name: string): Option<ThemePreference> {
    match ParseField(line, name)
    case None => None
    case Some(value) => ParseTheme(value)
  }

  function ParseFpsField(line: string, name: string): Option<FpsLimit> {
    match ParseField(line, name)
    case None => None
    case Some(value) => ParseFps(value)
  }

  function ParseDisplayField(line: string, name: string): Option<TrayDisplayMode> {
    match ParseField(line, name)
    case None => None
    case Some(value) => ParseDisplay(value)
  }

  function ParseSettings(prefix: string, lines: seq<string>): Option<AppSettings>
    requires 3 <= |lines| <= 5
  {
    var display := if |lines| >= 4 then ParseDisplayField(lines[3], prefix + "display") else Some(Dog);
    var autoUpdate := if |lines| == 5 then ParseBoolField(lines[4], prefix + "auto_update") else Some(true);
    match (ParseThemeField(lines[0], prefix + "theme"), ParseFpsField(lines[1], prefix + "fps"),
           ParseBoolField(lines[2], prefix + "startup"))
    case (Some(theme), Some(fps), Some(startup)) =>
      if display.None? || autoUpdate.None? then None
      else Some(AppSettings(theme, fps, startup, display.value, autoUpdate.value))
    case _ => None
  }

  // ---- the record ----------------------------------------------------------------

  const RECORD_HEADER := "rundog-settings-"
  const PENDING_HEADER := "rundog-pending-"

  /** The lines of a record in format 1 to 4; the program writes format 4. */
  function RecordLines(r: SettingsRecord, version: nat): seq<string>
    requires 1 <= version <= 4
  {
    [RECORD_HEADER + Dec(version), Field("generation", Dec(r.generation))]
    + (if version == 1 then [] else [Field("operation_id", Dec(r.lastOperationId))])
    + SettingsLines("", r.settings, if version <= 2 then 3 else version + 1)
  }

  function EncodeRecord(r: SettingsRecord): string {
    Unlines(RecordLines(r, 4))
  }

  function DecodeRecordBody(lines: seq<string>, extent: Extent): Option<SettingsRecord>
  {
    if |lines| != extent + 2 then None
    else
      match (ParseU64Field(lines[0], "generation"), ParseU64Field(lines[1], "operation_id"), ParseSettings("", lines[2..]))
      case (Some(g), Some(id), Some(s)) => Some(SettingsRecord(g, id, s))
      case _ => None
  }

  function DecodeRecordV1(lines: seq<string>): Option<SettingsRecord> {
    if |lines| != 4 then None
    else
      match (ParseU64Field(lines[0], "generation"), ParseSettings("", lines[1..]))
      case (Some(g), Some(s)) => Some(SettingsRecord(g, 0, s))
      case _ => None
  }

  function DecodeRecord(payload: string): Option<SettingsRecord> {
    var lines := Lines(payload);
    if lines == [] then None
    else if lines[0] == "rundog-settings-4" then DecodeRecordBody(lines[1..], 5)
    else if lines[0] == "rundog-settings-3" then DecodeRecordBody(lines[1..], 4)
    else if lines[0] == "rundog-settings-2" then DecodeRecordBody(lines[1..], 3)
    else if lines[0] == "rundog-settings-1" then DecodeRecordV1(lines[1..])
    else None
  }

  // ---- the journal ---------------------------------------------------------------

  /** The lines of a journal in format 1 to 3; the program writes format 3. */
  function JournalLines(j: PendingJournal, version: nat): seq<string>
    requires 1 <= version <= 3
  {
    [PENDING_HEADER + Dec(version),
     Field("operation_id", Dec(j.operationId)),
     Field("base_generation", Dec(j.baseGeneration)),
     Field("sync_run", BoolName(j.syncRunEntry)),
     Field("deadline", Dec(j.deadlineMillis))]
    + SettingsLines("desired_", j.desired, version + 2)
    + SettingsLines("previous_", j.previous, version + 2)
  }

  function EncodeJournal(j: PendingJournal): string {
    Unlines(JournalLines(j, 3))
  }

  function DecodeJournalBody(lines: seq<string>, extent: Extent): Option<PendingJournal> {
    if |lines| != 4 + 2 * extent then None
    else
      match (ParseU64Field(lines[0], "operation_id"), ParseU64Field(lines[1], "base_generation"),
             ParseBoolField(lines[2], "sync_run"), ParseU64Field(lines[3], "deadline"))
      case (Some(id), Some(base), Some(sync), Some(deadline)) =>
        (match (ParseSettings("desired_", lines[4..4 + extent]), ParseSettings("previous_", lines[4 + extent..]))
         case (Some(desired), Some(previous)) => Some(PendingJournal(id, base, desired, previous, sync, deadline))
         case _ => None)
      case _ => None
  }

  function DecodeJournal(payload: string): Option<PendingJournal> {
    var lines := Lines(payload);
    if lines == [] then None
    else if lines[0] == "rundog-pending-3" then DecodeJournalBody(lines[1..], 5)
    else if lines[0] == "rundog-pending-2" then DecodeJournalBody(lines[1..], 4)
    else if lines[0] == "rundog-pending-1" then DecodeJournalBody(lines[1..], 3)
    else None
  }

  // ---- names round trip ----------------------------------------------------------

  /** A name as it is written: nothing to trim, nothing to lower, one line. */
  predicate Tidy(s: string) {
    s != [] && !IsWhite(s[0]) && !IsWhite(s[|s| - 1]) && forall i :: 0 <= i < |s| ==> !('A' <= s[i] <= 'Z') && s[i] != '\n'
  }

  lemma {:induction false} LowerStays(s: string)
    requires forall i :: 0 <= i < |s| ==> !('A' <= s[i] <= 'Z')
    ensures Lower(s) == s
    decreases |s|
  {
    if s != [] {
      LowerStays(s[1..]);
    }
  }

  lemma TidyStays(s: string)
    requires Tidy(s)
    ensures Trim(s) == s && Lower(s) == s && Plain(s)
  {
    LowerStays(s);
  }

  lemma ThemeNames(t: ThemePreference)
    ensures Tidy(ThemeName(t)) && ParseTheme(ThemeName(t)) == Some(t)
  {
    hide IsWhite;
    ThemeTidy(t);
    TidyStays(ThemeName(t));
  }

  lemma ThemeTidy(t: ThemePreference)
    ensures Tidy(ThemeName(t))
  {
  }

  lemma FpsNames(f: FpsLimit)
    ensures Tidy(FpsName(f)) && ParseFps(FpsName(f)) == Some(f)
  {
    FpsTidy(f);
    TidyStays(FpsName(f));
    hide Trim, IsWhite;
    assert "10"[0] == '1' && "20"[0] == '2' && "30"[0] == '3' && "40"[0] == '4';
  }

  lemma FpsTidy(f: FpsLimit)
    ensures Tidy(FpsName(f))
  {
  }

  lemma DisplayNames(d: TrayDisplayMode)
    ensures Tidy(DisplayName(d)) && ParseDisplay(DisplayName(d)) == Some(d)
  {
    DisplayTidy(d);
    TidyStays(DisplayName(d));
    hide Trim, Lower, IsWhite, Tidy;
    if d in {Dog, Cpu, Memory, Gpu} {
      ShortNames(d);
    } else {
      LongNames(d);
    }
    hide DisplayOf;
  }

  lemma ShortNames(d: TrayDisplayMode)
    requires d in {Dog, Cpu, Memory, Gpu}
    ensures DisplayOf(DisplayName(d)) == Some(d)
  {
    assert "dog"[0] == 'd' && "cpu"[0] == 'c' && "gpu"[0] == 'g' && "memory"[0] == 'm';
  }

  lemma LongNames(d: TrayDisplayMode)
    requires d !in {Dog, Cpu, Memory, Gpu}
    ensures DisplayOf(DisplayName(d)) == Some(d)
  {
    var n := DisplayName(d);
    assert |n| > 6;
    assert |"claude_5h"| == 9 && |"claude_week"| == 11 && |"codex_5h"| == 8;
    assert |"fable_week"| == |"codex_week"| == 10 && "fable_week"[0] == 'f' && "codex_week"[0] == 'c';
  }

  lemma DisplayTidy(d: TrayDisplayMode)
    ensures Tidy(DisplayName(d))
  {
    hide IsWhite;
    LettersNotWhite();
    match d {
      case Dog =>
      case Cpu =>
      case Memory =>
      case Gpu =>
      case Claude5h =>
      case ClaudeWeek =>
      case FableWeek =>
      case Codex5h =>
      case CodexWeek =>
    }
  }

  lemma LettersNotWhite()
    ensures forall c: char :: '0' <= c <= 'z' ==> !IsWhite(c)
  {
  }

  // ---- fields round trip ---------------------------------------------------------

  lemma FieldRead(name: string, value: string)
    requires Lacks(name, '=')
    ensures ParseField(Field(name, value), name) == Some(value)
  {
    SplitOnceJoined(name, '=', value);
  }

  lemma PlainField(name: string, value: string)
    requires Lacks(name, '\n') && value != [] && Plain(value)
    ensures Plain(Field(name, value))
  {
  }

  lemma DecField(name: string, n: u64)
    requires Lacks(name, '=') && Lacks(name, '\n')
    ensures ParseU64Field(Field(name, Dec(n)), name) == Some(n) && Plain(Field(name, Dec(n)))
  {
    FieldRead(name, Dec(n));
    ParseDec(n, U64_MAX);
    DecDigits(n);
    DigitsLack(Dec(n), 10, '\n');
    DigitsLack(Dec(n), 10, '\r');
    PlainField(name, Dec(n));
  }

  lemma BoolField(name: string, b: bool)
    requires Lacks(name, '=') && Lacks(name, '\n')
    ensures ParseBoolField(Field(name, BoolName(b)), name) == Some(b) && Plain(Field(name, BoolName(b)))
  {
    FieldRead(name, BoolName(b));
    assert "0"[0] == '0' && "1"[0] == '1';
    PlainField(name, BoolName(b));
  }

  /** What the shorter formats leave out takes its default. */
  function Defaulted(s: AppSettings, extent: Extent): AppSettings {
    s.(displayMode := if extent >= 4 then s.displayMode else Dog, autoUpdate := if extent == 5 then s.autoUpdate else true)
  }

  predicate PlainPrefix(prefix: string) {
    Lacks(prefix, '=') && Lacks(prefix, '\n')
  }

  lemma NamesPlain(prefix: string)
    requires PlainPrefix(prefix)
    ensures PlainPrefix(prefix + "theme") && PlainPrefix(prefix + "fps") && PlainPrefix(prefix + "startup")
    ensures PlainPrefix(prefix + "display") && PlainPrefix(prefix + "auto_update")
  {
    PlainJoined(prefix, "theme");
    PlainJoined(prefix, "fps");
    PlainJoined(prefix, "startup");
    PlainJoined(prefix, "display");
    PlainJoined(prefix, "auto_update");
  }

  lemma PlainJoined(a: string, b: string)
    requires PlainPrefix(a) && PlainPrefix(b)
    ensures PlainPrefix(a + b)
  {
  }

  predicate AllPlain(lines: seq<string>) {
    forall i :: 0 <= i < |lines| ==> Plain(lines[i])
  }

  lemma PlainConcat(a: seq<string>, b: seq<string>)
    requires AllPlain(a) && AllPlain(b)
    ensures AllPlain(a + b)
  {
    hide Plain;
  }

  lemma SettingsRead(prefix: string, s: AppSettings, extent: Extent)
    requires PlainPrefix(prefix)
    ensures ParseSettings(prefix, SettingsLines(prefix, s, extent)) == Some(Defaulted(s, extent))
    ensures AllPlain(SettingsLines(prefix, s, extent))
  {
    hide Field, ParseField, ParseTheme, ParseFps, ParseDisplay, ParseBoolField, ThemeName, FpsName, DisplayName, BoolName,
      Plain, Tidy, PlainPrefix, SettingsLines, AllPlain, ParseSettings;
    NamesPlain(prefix);
    ThemeNames(s.theme);
    FpsNames(s.fpsLimit);
    DisplayNames(s.displayMode);
    NameField(prefix + "theme", ThemeName(s.theme));
    NameField(prefix + "fps", FpsName(s.fpsLimit));
    NameField(prefix + "display", DisplayName(s.displayMode));
    PlainPrefixed(prefix + "startup", s.launchAtStartup);
    PlainPrefixed(prefix + "auto_update", s.autoUpdate);
    LinesRead(prefix, s, extent);
  }

  lemma PlainPrefixed(name: string, b: bool)
    requires PlainPrefix(name)
    ensures ParseBoolField(Field(name, BoolName(b)), name) == Some(b) && Plain(Field(name, BoolName(b)))
  {
    BoolField(name, b);
  }

  lemma LinesRead(prefix: string, s: AppSettings, extent: Extent)
    requires ParseThemeField(Field(prefix + "theme", ThemeName(s.theme)), prefix + "theme") == Some(s.theme)
    requires ParseFpsField(Field(prefix + "fps", FpsName(s.fpsLimit)), prefix + "fps") == Some(s.fpsLimit)
    requires ParseDisplayField(Field(prefix + "display", DisplayName(s.displayMode)), prefix + "display") == Some(s.displayMode)
    requires ParseBoolField(Field(prefix + "startup", BoolName(s.launchAtStartup)), prefix + "startup") == Some(s.launchAtStartup)
    requires ParseBoolField(Field(prefix + "auto_update", BoolName(s.autoUpdate)), prefix + "auto_update") == Some(s.autoUpdate)
    requires Plain(Field(prefix + "theme", ThemeName(s.theme))) && Plain(Field(prefix + "fps", FpsName(s.fpsLimit)))
    requires Plain(Field(prefix + "display", DisplayName(s.displayMode)))
    requires Plain(Field(prefix + "startup", BoolName(s.launchAtStartup)))
    requires Plain(Field(prefix + "auto_update", BoolName(s.autoUpdate)))
    ensures ParseSettings(prefix, SettingsLines(prefix, s, extent)) == Some(Defaulted(s, extent))
    ensures AllPlain(SettingsLines(prefix, s, extent))
  {
    hide Field, ParseThemeField, ParseFpsField, ParseDisplayField, ParseBoolField, ThemeName, FpsName, DisplayName, BoolName, Plain;
  }

  lemma NameField(name: string, value: string)
    requires PlainPrefix(name) && Tidy(value)
    ensures ParseField(Field(name, value), name) == Some(value) && Plain(Field(name, value))
  {
    FieldRead(name, value);
    TidyStays(value);
    PlainField(name, value);
  }

  // ---- records and journals round trip -------------------------------------------

  lemma VersionDigits()
    ensures Dec(1) == "1" && Dec(2) == "2" && Dec(3) == "3" && Dec(4) == "4"
  {
  }

  lemma SplitConcat<T>(a: seq<T>, b: seq<T>)
    ensures (a + b)[..|a|] == a && (a + b)[|a|..] == b
  {
  }

  /** What a record of an older format is read as. */
  function UpgradedRecord(r: SettingsRecord, version: nat): SettingsRecord
    requires 1 <= version <= 4
  {
    SettingsRecord(r.generation, if version == 1 then 0 else r.lastOperationId,
                   Defaulted(r.settings, if version <= 2 then 3 else version + 1))
  }

  lemma RecordBodyRead(r: SettingsRecord, extent: Extent)
    ensures var body := [Field("generation", Dec(r.generation)), Field("operation_id", Dec(r.lastOperationId))]
                        + SettingsLines("", r.settings, extent);
      && DecodeRecordBody(body, extent) == Some(SettingsRecord(r.generation, r.lastOperationId, Defaulted(r.settings, extent)))
      && AllPlain(body)
  {
    hide Field, ParseU64Field, ParseSettings, SettingsLines, Plain, Defaulted, Dec, AllPlain;
    RecordNames();
    DecField("generation", r.generation);
    DecField("operation_id", r.lastOperationId);
    SettingsRead("", r.settings, extent);
    var head, tail := [Field("generation", Dec(r.generation)), Field("operation_id", Dec(r.lastOperationId))],
      SettingsLines("", r.settings, extent);
    TwoPlain(head[0], head[1]);
    PlainConcat(head, tail);
    SplitConcat(head, tail);
    assert (head + tail)[0] == head[0] && (head + tail)[1] == head[1];
  }

  lemma RecordNames()
    ensures PlainPrefix("") && PlainPrefix("generation") && PlainPrefix("operation_id") && PlainPrefix("base_generation")
    ensures PlainPrefix("sync_run") && PlainPrefix("deadline") && PlainPrefix("desired_") && PlainPrefix("previous_")
  {
  }

  lemma TwoPlain(a: string, b: string)
    requires Plain(a) && Plain(b)
    ensures AllPlain([a, b]) && AllPlain([a])
  {
    hide Plain;
  }

  lemma RecordV1Read(r: SettingsRecord)
    ensures var body := [Field("generation", Dec(r.generation))] + SettingsLines("", r.settings, 3);
      && DecodeRecordV1(body) == Some(SettingsRecord(r.generation, 0, Defaulted(r.settings, 3)))
      && AllPlain(body)
  {
    hide Field, ParseU64Field, ParseSettings, SettingsLines, Plain, Defaulted, Dec, AllPlain;
    RecordNames();
    DecField("generation", r.generation);
    SettingsRead("", r.settings, 3);
    var head, tail := [Field("generation", Dec(r.generation))], SettingsLines("", r.settings, 3);
    TwoPlain(head[0], head[0]);
    PlainConcat(head, tail);
    SplitConcat(head, tail);
    assert (head + tail)[0] == head[0];
  }

  /** A header line is one line, and tells the formats apart. */
  lemma Headers(version: nat)
    requires 1 <= version <= 4
    ensures Plain(RECORD_HEADER + Dec(version)) && Plain(PENDING_HEADER + Dec(version))
    ensures RECORD_HEADER + Dec(version) == ["rundog-settings-1", "rundog-settings-2", "rundog-settings-3", "rundog-settings-4"][version - 1]
    ensures PENDING_HEADER + Dec(version) == ["rundog-pending-1", "rundog-pending-2", "rundog-pending-3", "rundog-pending-4"][version - 1]
  {
    VersionDigits();
  }

  lemma HeadersDiffer()
    ensures "rundog-settings-1"[16] == '1' && "rundog-settings-2"[16] == '2'
    ensures "rundog-settings-3"[16] == '3' && "rundog-settings-4"[16] == '4'
    ensures "rundog-pending-1"[15] == '1' && "rundog-pending-2"[15] == '2' && "rundog-pending-3"[15] == '3'
  {
  }

  /** Every record format is read back, with the defaults of what it lacks; the
      written format loses nothing. */
  lemma RecordRoundTrip(r: SettingsRecord, version: nat)
    requires 1 <= version <= 4
    ensures DecodeRecord(Unlines(RecordLines(r, version))) == Some(UpgradedRecord(r, version))
    ensures DecodeRecord(EncodeRecord(r)) == Some(r)
  {
    RecordVersionRead(r, version);
    RecordVersionRead(r, 4);
  }

  lemma RecordVersionRead(r: SettingsRecord, version: nat)
    requires 1 <= version <= 4
    ensures DecodeRecord(Unlines(RecordLines(r, version))) == Some(UpgradedRecord(r, version))
  {
    hide Field, SettingsLines, Plain, AllPlain, Dec, DecodeRecordBody, DecodeRecordV1, Defaulted, RecordLines;
    Headers(version);
    var body := RecordBody(r, version);
    RecordIsHeaded(r, version);
    if version == 1 {
      RecordV1Read(r);
    } else {
      RecordBodyRead(r, if version == 2 then 3 else version + 1);
    }
    HeadedLines(RECORD_HEADER + Dec(version), body);
    HeadersDiffer();
  }

  /** The lines after the header. */
  function RecordBody(r: SettingsRecord, version: nat): seq<string>
    requires 1 <= version <= 4
  {
    if version == 1 then [Field("generation", Dec(r.generation))] + SettingsLines("", r.settings, 3)
    else
      [Field("generation", Dec(r.generation)), Field("operation_id", Dec(r.lastOperationId))]
      + SettingsLines("", r.settings, if version == 2 then 3 else version + 1)
  }

  lemma RecordIsHeaded(r: SettingsRecord, version: nat)
    requires 1 <= version <= 4
    ensures RecordLines(r, version) == [RECORD_HEADER + Dec(version)] + RecordBody(r, version)
  {
    hide Field, SettingsLines, Dec;
  }

  lemma HeadedLines(header: string, body: seq<string>)
    requires Plain(header) && AllPlain(body)
    ensures var lines := Lines(Unlines([header] + body));
      lines != [] && lines[0] == header && lines[1..] == body
  {
    hide Plain, Lines, Unlines;
    var lines := [header] + body;
    LinesUnlines(lines);
  }

  function UpgradedJournal(j: PendingJournal, version: nat): PendingJournal
    requires 1 <= version <= 3
  {
    j.(desired := Defaulted(j.desired, version + 2), previous := Defaulted(j.previous, version + 2))
  }

  function JournalHead(j: PendingJournal): seq<string> {
    [Field("operation_id", Dec(j.operationId)), Field("base_generation", Dec(j.baseGeneration)),
     Field("sync_run", BoolName(j.syncRunEntry)), Field("deadline", Dec(j.deadlineMillis))]
  }

  lemma JournalBodyRead(j: PendingJournal, extent: Extent)
    ensures var body := JournalHead(j) + SettingsLines("desired_", j.desired, extent) + SettingsLines("previous_", j.previous, extent);
      && DecodeJournalBody(body, extent) ==
         Some(j.(desired := Defaulted(j.desired, extent), previous := Defaulted(j.previous, extent)))
      && AllPlain(body)
  {
    hide Field, ParseU64Field, ParseBoolField, ParseSettings, SettingsLines, Plain, Defaulted, Dec, BoolName, AllPlain;
    RecordNames();
    DecField("operation_id", j.operationId);
    DecField("base_generation", j.baseGeneration);
    BoolField("sync_run", j.syncRunEntry);
    DecField("deadline", j.deadlineMillis);
    SettingsRead("desired_", j.desired, extent);
    SettingsRead("previous_", j.previous, extent);
    var head, desired, previous := JournalHead(j), SettingsLines("desired_", j.desired, extent),
      SettingsLines("previous_", j.previous, extent);
    var body := head + desired + previous;
    TwoPlain(head[0], head[1]);
    TwoPlain(head[2], head[3]);
    assert head == [head[0], head[1]] + [head[2], head[3]];
    PlainConcat([head[0], head[1]], [head[2], head[3]]);
    PlainConcat(head, desired);
    PlainConcat(head + desired, previous);
    ThreeParts(head, desired, previous);
  }

  lemma ThreeParts<T>(a: seq<T>, b: seq<T>, c: seq<T>)
    ensures var s := a + b + c;
      s[..|a|] == a && s[|a|..|a| + |b|] == b && s[|a| + |b|..] == c && forall i :: 0 <= i < |a| ==> s[i] == a[i]
  {
  }

  /** The same for the journal. */
  lemma JournalRoundTrip(j: PendingJournal, version: nat)
    requires 1 <= version <= 3
    ensures DecodeJournal(Unlines(JournalLines(j, version))) == Some(UpgradedJournal(j, version))
    ensures DecodeJournal(EncodeJournal(j)) == Some(j)
  {
    JournalVersionRead(j, version);
    JournalVersionRead(j, 3);
  }

  lemma JournalVersionRead(j: PendingJournal, version: nat)
    requires 1 <= version <= 3
    ensures DecodeJournal(Unlines(JournalLines(j, version))) == Some(UpgradedJournal(j, version))
  {
    hide Field, SettingsLines, Plain, AllPlain, Dec, DecodeJournalBody, Defaulted, JournalHead, JournalLines;
    Headers(version);
    var extent: Extent := version + 2;
    JournalIsHeaded(j, version);
    JournalBodyRead(j, extent);
    HeadedLines(PENDING_HEADER + Dec(version),
                JournalHead(j) + SettingsLines("desired_", j.desired, extent) + SettingsLines("previous_", j.previous, extent));
    HeadersDiffer();
  }

  lemma JournalIsHeaded(j: PendingJournal, version: nat)
    requires 1 <= version <= 3
    ensures JournalLines(j, version) == [PENDING_HEADER + Dec(version)] +
      (JournalHead(j) + SettingsLines("desired_", j.desired, version + 2) + SettingsLines("previous_", j.previous, version + 2))
  {
    hide Field, SettingsLines, Dec, BoolName;
  }
}
