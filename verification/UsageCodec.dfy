/** Encoding and decoding the usage state. */
module UsageCodec {
  import opened Wrappers
  import opened SeqFacts
  import opened Sorting
  import opened Text
  import opened Money
  import opened UsageTypes
  import opened UsageStateModel
  import opened UsageLines
  import opened UsageLineSyntax

  // ---- encoding --------------------------------------------------------------

  predicate IdLe(a: Identity, b: Identity) {
    if a.kind == b.kind then StrLe(a.logicalId, b.logicalId) else a.kind == Claude
  }

  function CursorOrder(): (UsageCursor, UsageCursor) -> bool {
    (a: UsageCursor, b: UsageCursor) => IdLe(a.id, b.id)
  }

  function DayOrder(): (ContribDay, ContribDay) -> bool {
    (a: ContribDay, b: ContribDay) => a.day <= b.day
  }

  function SortedCursors(s: UsageState): seq<UsageCursor> {
    Sort(CursorOrder(), s.cursors)
  }

  function SortedDays(c: UsageCursor): seq<ContribDay> {
    Sort(DayOrder(), c.contribDays)
  }

  /** The numeric header field `k` of a state. */
  function HeaderValue(s: UsageState, k: Key): nat {
    var a := s.aggregate;
    var claude, codex := a.snapshot.claude, a.snapshot.codex;
    match k
    case Schema => s.schemaVersion
    case Generation => s.generation
    case Month => a.monthStart
    case Day => a.today
    case LastMs => a.lastCollectedMs
    case CatchUpDone => if a.catchUpDone then 1 else 0
    case ReconciledMonth => a.codexCacheReconciledMonth.GetOr(0)
    case ClaudeToday => claude.todayCents
    case ClaudeMonth => claude.monthCents
    case ClaudeTodayNanos => PersistedNanos(claude.todayCents, claude.todayCostNanos)
    case ClaudeMonthNanos => PersistedNanos(claude.monthCents, claude.monthCostNanos)
    case ClaudeIn => claude.monthInputTokens
    case ClaudeOut => claude.monthOutputTokens
    case CodexToday => codex.todayCents
    case CodexMonth => codex.monthCents
    case CodexTodayNanos => PersistedNanos(codex.todayCents, codex.todayCostNanos)
    case CodexMonthNanos => PersistedNanos(codex.monthCents, codex.monthCostNanos)
    case CodexIn => codex.monthInputTokens
    case CodexOut => codex.monthOutputTokens
    case _ => 0
  }

  function NumberLines(s: UsageState, keys: seq<Key>): seq<Line>
    decreases |keys|
  {
    if keys == [] then [] else [NumberLine(keys[0], HeaderValue(s, keys[0]))] + NumberLines(s, keys[1..])
  }

  function SafeEvent(): ClaudePendingUsage -> bool {
    (e: ClaudePendingUsage) => IsSafeModel(e.model)
  }

  /** Revisions are written for Claude files only, and only with a safe model name. */
  function KeptPending(c: UsageCursor): seq<ClaudePendingUsage> {
    if c.id.kind == Claude then Filter(SafeEvent(), c.claudePending) else []
  }

  /** The model is written for Codex files only, and only with a safe name. */
  function KeptModel(c: UsageCursor): Option<string> {
    if c.id.kind == Codex && c.lastModel.Some? && IsSafeModel(c.lastModel.value) then c.lastModel else None
  }

  function SeenLines(id: Identity, keys: seq<UsageDedupeKey>): seq<Line>
    decreases |keys|
  {
    if keys == [] then [] else [SeenLine(id, keys[0])] + SeenLines(id, keys[1..])
  }

  function ContribLines(id: Identity, days: seq<ContribDay>): seq<Line>
    decreases |days|
  {
    if days == [] then [] else [ContribLine(id, days[0])] + ContribLines(id, days[1..])
  }

  function PendingLines(id: Identity, events: seq<ClaudePendingUsage>): seq<Line>
    decreases |events|
  {
    if events == [] then [] else [PendingLine(id, Persisted(events[0]))] + PendingLines(id, events[1..])
  }

  /** What the line of a revision carries: the long-context cache subsets are not written. */
  function Persisted(e: ClaudePendingUsage): ClaudePendingUsage {
    e.(usage := e.usage.(longContextCacheRead := 0, longContextCacheWrite5m := 0, longContextCacheWrite1h := 0))
  }

  function MonthLines(c: UsageCursor): seq<Line> {
    if c.activeMonth.Some? then [ActiveMonthLine(c.id, c.activeMonth.value)] else []
  }

  function PrefixLines(c: UsageCursor): seq<Line> {
    if c.prefix.Some? then [PrefixLine(c.id, c.prefix.value)] else []
  }

  function FileIdLines(c: UsageCursor): seq<Line> {
    if c.fileId.Some? then [FileIdLine(c.id, c.fileId.value)] else []
  }

  function ModelLines(c: UsageCursor): seq<Line> {
    if KeptModel(c).Some? then [ModelLine(c.id, KeptModel(c).value)] else []
  }

  /** The lines of the optional fields of a cursor. */
  function FieldLines(c: UsageCursor): seq<Line> {
    MonthLines(c) + PrefixLines(c) + FileIdLines(c) + ModelLines(c)
  }

  function CursorLines(c: UsageCursor): seq<Line> {
    [CursorLine(c.id, c.offset, c.size)]
    + FieldLines(c)
    + SeenLines(c.id, c.seenKeys)
    + ContribLines(c.id, SortedDays(c))
    + PendingLines(c.id, KeptPending(c))
  }

  function AllCursorLines(cs: seq<UsageCursor>): seq<Line>
    decreases |cs|
  {
    if cs == [] then [] else CursorLines(cs[0]) + AllCursorLines(cs[1..])
  }

  function StateLines(s: UsageState): seq<Line> {
    NumberLines(s, NUMBER_KEYS) + AllCursorLines(SortedCursors(s))
  }

  predicate Printable(lines: seq<Line>) {
    forall i :: 0 <= i < |lines| ==> !lines[i].IgnoredLine?
  }

  function PrintAll(lines: seq<Line>): seq<string>
    requires Printable(lines)
    decreases |lines|
  {
    if lines == [] then [] else [Print(lines[0])] + PrintAll(lines[1..])
  }

  lemma StateLinesPrintable(s: UsageState)
    ensures Printable(StateLines(s))
  {
    NumberLinesPrintable(s, NUMBER_KEYS);
    AllCursorLinesPrintable(SortedCursors(s));
  }

  lemma NumberLinesPrintable(s: UsageState, keys: seq<Key>)
    ensures Printable(NumberLines(s, keys))
    decreases |keys|
  {
  }

  lemma {:induction false} AllCursorLinesPrintable(cs: seq<UsageCursor>)
    ensures Printable(AllCursorLines(cs))
    decreases |cs|
  {
    if cs != [] {
      AllCursorLinesPrintable(cs[1..]);
      CursorLinesPrintable(cs[0]);
    }
  }

  lemma FieldLinesPrintable(c: UsageCursor)
    ensures Printable(FieldLines(c))
  {
    hide KeptModel;
  }

  lemma CursorLinesPrintable(c: UsageCursor)
    ensures Printable(CursorLines(c))
  {
    hide FieldLines, SeenLines, ContribLines, PendingLines, SortedDays, KeptPending;
    FieldLinesPrintable(c);
    ListLinesPrintable(c.id, c.seenKeys, SortedDays(c), KeptPending(c));
  }

  lemma ListLinesPrintable(id: Identity, keys: seq<UsageDedupeKey>, days: seq<ContribDay>,
                           events: seq<ClaudePendingUsage>)
    ensures Printable(SeenLines(id, keys)) && Printable(ContribLines(id, days)) && Printable(PendingLines(id, events))
    decreases |keys| + |days| + |events|
  {
    if keys != [] {
      ListLinesPrintable(id, keys[1..], days, events);
    } else if days != [] {
      ListLinesPrintable(id, keys, days[1..], events);
    } else if events != [] {
      ListLinesPrintable(id, keys, days, events[1..]);
    }
  }

  function Encode(s: UsageState): string {
    StateLinesPrintable(s);
    Unlines([USAGE_STATE_HEADER] + PrintAll(StateLines(s)))
  }

  // ---- decoding: collecting --------------------------------------------------

  /** What the lines have contributed so far. */
  datatype Tables = Tables(
    numbers: map<Key, nat>,
    cursors: seq<UsageCursor>,
    prefixes: seq<(Identity, u64)>,
    fileIds: seq<(Identity, FileId)>,
    activeMonths: map<Identity, u32>,
    models: seq<(Identity, string)>,
    seen: map<Identity, seq<UsageDedupeKey>>,
    pending: map<Identity, seq<ClaudePendingUsage>>,
    contribs: map<Identity, seq<ContribDay>>)

  const NO_TABLES := Tables(map[], [], [], [], map[], [], map[], map[], map[])

  function BareCursor(id: Identity, offset: u64, size: u64): UsageCursor {
    UsageCursor(id, offset, size, None, None, None, [], [], None, [])
  }

  /** `HashMap::remove(..).unwrap_or_default()` and `entry(..).or_default()`. */
  function ListOf<T>(m: map<Identity, seq<T>>, id: Identity): seq<T> {
    if id in m then m[id] else []
  }

  /** One line joins the tables, or rejects the payload. */
  function Collect(t: Tables, l: Line): Option<Tables> {
    match l
    case NumberLine(key, value) => Some(t.(numbers := t.numbers[key := value]))
    case CursorLine(id, offset, size) => Some(t.(cursors := t.cursors + [BareCursor(id, offset, size)]))
    case PrefixLine(id, prefix) => Some(t.(prefixes := t.prefixes + [(id, prefix)]))
    case FileIdLine(id, fileId) => Some(t.(fileIds := t.fileIds + [(id, fileId)]))
    case ActiveMonthLine(id, month) =>
      if id in t.activeMonths then None else Some(t.(activeMonths := t.activeMonths[id := month]))
    case ModelLine(id, model) => Some(t.(models := t.models + [(id, model)]))
    case SeenLine(id, key) =>
      var keys := ListOf(t.seen, id);
      if key in keys || |keys| >= SeenCap(id.kind) then None
      else Some(t.(seen := t.seen[id := keys + [key]]))
    case PendingLine(id, event) =>
      var events := ListOf(t.pending, id);
      if (exists i :: 0 <= i < |events| && events[i].key == event.key) || |events| >= PENDING_CAP_CLAUDE then None
      else Some(t.(pending := t.pending[id := events + [event]]))
    case ContribLine(id, day) =>
      var days := ListOf(t.contribs, id);
      if exists i :: 0 <= i < |days| && days[i].day == day.day then None
      else Some(t.(contribs := t.contribs[id := days + [day]]))
    case IgnoredLine => Some(t)
  }

  function CollectText(t: Tables, line: string): Option<Tables> {
    if line == "" then Some(t)
    else
      var l := Parse(line);
      if l.None? then None else Collect(t, l.value)
  }

  function CollectAll(t: Tables, lines: seq<string>): Option<Tables>
    decreases |lines|
  {
    if lines == [] then Some(t)
    else
      var u := CollectText(t, lines[0]);
      if u.None? then None else CollectAll(u.value, lines[1..])
  }

  // ---- decoding: joining -----------------------------------------------------

  /** Each cursor takes its month; a month without a cursor is an error. */
  function JoinMonths(cs: seq<UsageCursor>, months: map<Identity, u32>): Option<seq<UsageCursor>>
    decreases |cs|
  {
    if cs == [] then if months == map[] then Some([]) else None
    else
      var c := cs[0];
      var month := if c.id in months then Some(months[c.id]) else None;
      var rest := JoinMonths(cs[1..], months - {c.id});
      if rest.None? then None else Some([c.(activeMonth := month)] + rest.value)
  }

  /** The first cursor of that identity, or the length. */
  function Position(cs: seq<UsageCursor>, id: Identity): (n: nat)
    ensures n <= |cs| && (n < |cs| ==> cs[n].id == id)
    decreases |cs|
  {
    if cs == [] || cs[0].id == id then 0 else 1 + Position(cs[1..], id)
  }

  function JoinPrefixes(cs: seq<UsageCursor>, prefixes: seq<(Identity, u64)>): seq<UsageCursor>
    decreases |prefixes|
  {
    if prefixes == [] then cs
    else
      var n := Position(cs, prefixes[0].0);
      JoinPrefixes(if n < |cs| then cs[n := cs[n].(prefix := Some(prefixes[0].1))] else cs, prefixes[1..])
  }

  /** A file id without a cursor, or a second one, is an error. */
  function JoinFileIds(cs: seq<UsageCursor>, fileIds: seq<(Identity, FileId)>): Option<seq<UsageCursor>>
    decreases |fileIds|
  {
    if fileIds == [] then Some(cs)
    else
      var n := Position(cs, fileIds[0].0);
      if n == |cs| || cs[n].fileId.Some? then None
      else JoinFileIds(cs[n := cs[n].(fileId := Some(fileIds[0].1))], fileIds[1..])
  }

  function JoinModels(cs: seq<UsageCursor>, models: seq<(Identity, string)>): seq<UsageCursor>
    decreases |models|
  {
    if models == [] then cs
    else
      var n := Position(cs, models[0].0);
      JoinModels(if n < |cs| then cs[n := cs[n].(lastModel := Some(models[0].1))] else cs, models[1..])
  }

  /** A revision must belong to one of the newest seen keys of its file and month. */
  predicate PendingConsistent(keys: seq<UsageDedupeKey>, events: seq<ClaudePendingUsage>) {
    forall i :: 0 <= i < |events| ==>
      events[i].key in Last(keys, PENDING_CAP_CLAUDE) && events[i].key.month == MonthOf(events[i].day)
  }

  function JoinLists(cs: seq<UsageCursor>, seen: map<Identity, seq<UsageDedupeKey>>,
                     pending: map<Identity, seq<ClaudePendingUsage>>, contribs: map<Identity, seq<ContribDay>>)
    : Option<seq<UsageCursor>>
    decreases |cs|
  {
    if cs == [] then if seen == map[] && pending == map[] && contribs == map[] then Some([]) else None
    else
      var id := cs[0].id;
      var keys, events, days := ListOf(seen, id), ListOf(pending, id), ListOf(contribs, id);
      if (id.kind == Codex && events != []) || !PendingConsistent(keys, events) then None
      else
        var rest := JoinLists(cs[1..], seen - {id}, pending - {id}, contribs - {id});
        if rest.None? then None
        else Some([cs[0].(seenKeys := keys, claudePending := events, contribDays := Sort(DayOrder(), days))] + rest.value)
  }

  function JoinCursors(t: Tables): Option<seq<UsageCursor>> {
    var dated := JoinMonths(t.cursors, t.activeMonths);
    if dated.None? then None
    else
      var identified := JoinFileIds(JoinPrefixes(dated.value, t.prefixes), t.fileIds);
      if identified.None? then None
      else JoinLists(JoinModels(identified.value, t.models), t.seen, t.pending, t.contribs)
  }

  // ---- decoding: the aggregate -----------------------------------------------

  function NumberOr0(numbers: map<Key, nat>, k: Key): nat {
    if k in numbers then numbers[k] else 0
  }

  /** The numbers read under each key fit its field. */
  predicate InRange(numbers: map<Key, nat>) {
    forall k :: k in numbers ==> numbers[k] <= MaxOf(k)
  }

  function RestoreProvider(todayCents: u32, monthCents: u32, todayNanos: u64, monthNanos: u64,
                           input: u64, output: u64): Option<ProviderUsage> {
    if DisplayCents(todayNanos) != todayCents || DisplayCents(monthNanos) != monthCents then None
    else Some(ProviderUsage(todayCents, monthCents, todayNanos, monthNanos, input, output, NO_LIVE))
  }

  const REQUIRED_KEYS := {Schema, Generation, Month, Day, LastMs, CatchUpDone,
                          ClaudeTodayNanos, ClaudeMonthNanos, CodexTodayNanos, CodexMonthNanos}

  function RestoreClaude(n: map<Key, nat>): Option<ProviderUsage>
    requires InRange(n)
  {
    RestoreProvider(NumberOr0(n, ClaudeToday), NumberOr0(n, ClaudeMonth), NumberOr0(n, ClaudeTodayNanos),
                    NumberOr0(n, ClaudeMonthNanos), NumberOr0(n, ClaudeIn), NumberOr0(n, ClaudeOut))
  }

  function RestoreCodex(n: map<Key, nat>): Option<ProviderUsage>
    requires InRange(n)
  {
    RestoreProvider(NumberOr0(n, CodexToday), NumberOr0(n, CodexMonth), NumberOr0(n, CodexTodayNanos),
                    NumberOr0(n, CodexMonthNanos), NumberOr0(n, CodexIn), NumberOr0(n, CodexOut))
  }

  function Finish(n: map<Key, nat>, cursors: seq<UsageCursor>): Option<UsageState>
    requires InRange(n)
  {
    if !(REQUIRED_KEYS <= n.Keys) || !(2 <= n[Schema] <= USAGE_STATE_SCHEMA_VERSION) then None
    else
      var claude, codex := RestoreClaude(n), RestoreCodex(n);
      if claude.None? || codex.None? then None
      else
        var reconciled := NumberOr0(n, ReconciledMonth);
        Some(UsageState(
               n[Generation], n[Schema],
               UsageAggregate(n[Month], n[Day], n[LastMs], n[CatchUpDone] != 0,
                              if reconciled != 0 then Some(reconciled) else None,
                              UsageSnapshot(claude.value, codex.value, false)),
               cursors))
  }

  lemma ParsedInRange(line: string)
    ensures var l := Parse(line);
      l.Some? && l.value.NumberLine? ==> l.value.value <= MaxOf(l.value.key)
  {
    hide KeyOf, SplitOnce, ParseCursor, ParsePrefix, ParseActiveMonth, ParseFileId, ParseModel, ParsePending, ParseSeen,
      ParseContrib, ParseNumber, MaxOf, Split;
    var kv := SplitOnce(line, '=');
    if kv.Some? && KeyOf(kv.value.0).Some? {
      ColumnsInRange(kv.value.1);
      NumberInRange(KeyOf(kv.value.0).value, kv.value.1);
    }
  }

  lemma NumberInRange(key: Key, value: string)
    ensures var l := ParseNumber(key, value);
      l.Some? ==> l.value.NumberLine? && l.value.value <= MaxOf(l.value.key)
  {
    hide MaxOf;
  }

  /** The other readers never read a number line. */
  lemma ColumnsInRange(value: string)
    ensures var p := Split(value, '\t');
      && (ParseCursor(p).Some? ==> ParseCursor(p).value.CursorLine?)
      && (ParsePrefix(p).Some? ==> ParsePrefix(p).value.PrefixLine?)
      && (ParseActiveMonth(p).Some? ==> ParseActiveMonth(p).value.ActiveMonthLine?)
      && (ParseFileId(p).Some? ==> ParseFileId(p).value.FileIdLine?)
      && (ParseModel(p).Some? ==> ParseModel(p).value.ModelLine?)
      && (ParseSeen(p).Some? ==> ParseSeen(p).value.SeenLine?)
      && (ParseContrib(p).Some? ==> ParseContrib(p).value.ContribLine?)
      && (ParsePending(p).Some? ==> ParsePending(p).value.PendingLine?)
  {
    hide Split, ParseUint, HexDecode, ParseTokens, IsMonthStart, IsSafeModel, ParseKind;
  }

  lemma {:induction false} CollectedInRange(t: Tables, lines: seq<string>)
    requires InRange(t.numbers)
    ensures CollectAll(t, lines).Some? ==> InRange(CollectAll(t, lines).value.numbers)
    decreases |lines|
  {
    hide Parse, MaxOf;
    if lines != [] {
      ParsedInRange(lines[0]);
      var u := CollectText(t, lines[0]);
      if u.Some? {
        assert InRange(u.value.numbers);
        CollectedInRange(u.value, lines[1..]);
      }
    }
  }

  function Decode(payload: string): Option<UsageState> {
    var lines := Lines(payload);
    if lines == [] || lines[0] != USAGE_STATE_HEADER then None
    else
      var t := CollectAll(NO_TABLES, lines[1..]);
      if t.None? then None
      else
        CollectedInRange(NO_TABLES, lines[1..]);
        var cursors := JoinCursors(t.value);
        if cursors.None? then None else Finish(t.value.numbers, cursors.value)
  }
}
