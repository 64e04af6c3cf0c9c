/** Reading back each written line of the usage state gives the same line. */
module UsageLineSyntax {
  import opened Wrappers
  import opened Text
  import opened UsageTypes
  import opened UsageStateModel
  import opened UsageLines

  datatype Line =
    | NumberLine(key: Key, value: nat)
    | CursorLine(id: Identity, offset: u64, size: u64)
    | ActiveMonthLine(id: Identity, month: u32)
    | PrefixLine(id: Identity, prefix: u64)
    | FileIdLine(id: Identity, fileId: FileId)
    | ModelLine(id: Identity, model: string)
    | SeenLine(id: Identity, dedupeKey: UsageDedupeKey)
    | ContribLine(id: Identity, day: ContribDay)
    | PendingLine(id: Identity, event: ClaudePendingUsage)
    | IgnoredLine

  // ---- writing ---------------------------------------------------------------

  function KindColumn(kind: CursorKind): string {
    match kind
    case Claude => "c"
    case Codex => "x"
  }

  function KeyOfLine(l: Line): Key
    requires !l.IgnoredLine?
  {
    match l
    case NumberLine(key, _) => key
    case CursorLine(_, _, _) => Cursor
    case ActiveMonthLine(_, _) => ActiveMonth
    case PrefixLine(_, _) => Prefix
    case FileIdLine(_, _) => FileIdKey
    case ModelLine(_, _) => CodexModel
    case SeenLine(_, _) => Seen
    case ContribLine(_, _) => ContribDayKey
    case PendingLine(_, _) => CPending
  }

  function Decs(ns: seq<u64>): (s: seq<string>)
    ensures |s| == |ns|
    decreases |ns|
  {
    if ns == [] then [] else [Dec(ns[0])] + Decs(ns[1..])
  }

  /** The nine persisted counts; the long-context cache subsets have no column. */
  function TokenValues(u: TokenUsage): seq<u64> {
    [u.input, u.cachedInput, u.cacheRead, u.cacheWrite5m, u.cacheWrite1h, u.output,
     u.longContextInput, u.longContextCachedInput, u.longContextOutput]
  }

  function OwnColumns(l: Line): seq<string>
    requires !l.IgnoredLine? && !l.NumberLine?
  {
    match l
    case CursorLine(_, offset, size) => [Dec(offset), Dec(size)]
    case ActiveMonthLine(_, month) => [Dec(month)]
    case PrefixLine(_, prefix) => [Dec(prefix)]
    case FileIdLine(_, f) => [Dec(f.volume), Dec(f.high), Dec(f.low)]
    case ModelLine(_, model) => [model]
    case SeenLine(_, k) => [EncodeHex(k.digest), Dec(k.month)]
    case ContribLine(_, d) => [Dec(d.day), Dec(d.contrib.nanos), Dec(d.contrib.input), Dec(d.contrib.output)]
    case PendingLine(_, e) => [EncodeHex(e.key.digest), Dec(e.key.month), Dec(e.day), e.model] + Decs(TokenValues(e.usage))
  }

  function Columns(l: Line): (s: seq<string>)
    requires !l.IgnoredLine?
    ensures s != []
  {
    if l.NumberLine? then [Dec(l.value)]
    else [KindColumn(l.id.kind), l.id.logicalId] + OwnColumns(l)
  }

  function Print(l: Line): string
    requires !l.IgnoredLine?
  {
    Name(KeyOfLine(l)) + ['='] + Join(Columns(l), '\t')
  }

  // ---- reading ---------------------------------------------------------------

  function ParseKind(s: string): Option<CursorKind> {
    if s == "c" then Some(Claude) else if s == "x" then Some(Codex) else None
  }

  function U32(s: string): Option<nat> {
    ParseUint(s, U32_MAX)
  }

  function U64(s: string): Option<nat> {
    ParseUint(s, U64_MAX)
  }

  function ParseNumber(key: Key, value: string): Option<Line> {
    var n := ParseUint(value, MaxOf(key));
    if n.None? || (key == ReconciledMonth && n.value != 0 && !IsMonthOfYear(n.value)) then None
    else Some(NumberLine(key, n.value))
  }

  function ParseCursor(p: seq<string>): Option<Line> {
    if |p| != 4 || ParseKind(p[0]).None? || p[1] == "" || U64(p[2]).None? || U64(p[3]).None? then None
    else Some(CursorLine(Identity(ParseKind(p[0]).value, p[1]), U64(p[2]).value, U64(p[3]).value))
  }

  function ParsePrefix(p: seq<string>): Option<Line> {
    if |p| != 3 || ParseKind(p[0]).None? || U64(p[2]).None? then None
    else Some(PrefixLine(Identity(ParseKind(p[0]).value, p[1]), U64(p[2]).value))
  }

  function ParseActiveMonth(p: seq<string>): Option<Line> {
    var l := ParsePrefix(p);
    if l.None? || l.value.prefix > U32_MAX || !IsMonthStart(l.value.prefix) then None
    else Some(ActiveMonthLine(l.value.id, l.value.prefix))
  }

  function ParseFileId(p: seq<string>): Option<Line> {
    if |p| != 5 || ParseKind(p[0]).None? || U32(p[2]).None? || U32(p[3]).None? || U32(p[4]).None? then None
    else Some(FileIdLine(Identity(ParseKind(p[0]).value, p[1]), FileId(U32(p[2]).value, U32(p[3]).value, U32(p[4]).value)))
  }

  function ParseModel(p: seq<string>): Option<Line> {
    if |p| != 3 || p[0] != "x" || !IsSafeModel(p[2]) then None
    else Some(ModelLine(Identity(Codex, p[1]), p[2]))
  }

  function ParseSeen(p: seq<string>): Option<Line> {
    if |p| != 4 || p[1] == "" || ParseKind(p[0]).None? || HexDecode(p[2]).None? || U32(p[3]).None? then None
    else if !IsMonthStart(U32(p[3]).value) then None
    else Some(SeenLine(Identity(ParseKind(p[0]).value, p[1]), UsageDedupeKey(HexDecode(p[2]).value, U32(p[3]).value)))
  }

  function ParseContrib(p: seq<string>): Option<Line> {
    if |p| != 6 || p[1] == "" || ParseKind(p[0]).None? || U32(p[2]).None? || U64(p[3]).None? || U64(p[4]).None? || U64(p[5]).None?
    then None
    else Some(ContribLine(Identity(ParseKind(p[0]).value, p[1]),
                          ContribDay(U32(p[2]).value, FileDayContrib(U64(p[3]).value, U64(p[4]).value, U64(p[5]).value))))
  }

  function ParseAll(p: seq<string>): (ns: Option<seq<u64>>)
    ensures ns.Some? ==> |ns.value| == |p|
    decreases |p|
  {
    if p == [] then Some([])
    else
      var n, rest := U64(p[0]), ParseAll(p[1..]);
      if n.None? || rest.None? then None else Some([n.value] + rest.value)
  }

  function ParseTokens(p: seq<string>): Option<TokenUsage>
    requires |p| == 9
  {
    var n := ParseAll(p);
    if n.None? then None
    else
      var v := n.value;
      Some(TokenUsage(v[0], v[1], v[2], v[3], v[4], v[5], v[6], v[7], v[8], 0, 0, 0))
  }

  function ParsePending(p: seq<string>): Option<Line> {
    if |p| != 15 || p[1] == "" || !IsSafeModel(p[5]) || p[0] != "c" then None
    else if HexDecode(p[2]).None? || U32(p[3]).None? || U32(p[4]).None? || ParseTokens(p[6..]).None? then None
    else if MonthOf(U32(p[4]).value) != U32(p[3]).value then None
    else Some(PendingLine(Identity(Claude, p[1]),
                          ClaudePendingUsage(UsageDedupeKey(HexDecode(p[2]).value, U32(p[3]).value),
                                             U32(p[4]).value, p[5], ParseTokens(p[6..]).value)))
  }

  function ParseColumns(key: Key, value: string): Option<Line> {
    var p := Split(value, '\t');
    match key
    case Cursor => ParseCursor(p)
    case Prefix => ParsePrefix(p)
    case ActiveMonth => ParseActiveMonth(p)
    case FileIdKey => ParseFileId(p)
    case CodexModel => ParseModel(p)
    case CPending => if "c\t" <= value || "x\t" <= value then ParsePending(p) else Some(IgnoredLine)
    case Seen => ParseSeen(p)
    case ContribDayKey => ParseContrib(p)
    case LegacyFile => None
    case _ => ParseNumber(key, value)
  }

  /** One line; `None` rejects the whole payload, unknown keys are ignored. */
  function Parse(line: string): Option<Line> {
    var kv := SplitOnce(line, '=');
    if kv.None? then Some(IgnoredLine)
    else
      var key := KeyOf(kv.value.0);
      if key.None? then Some(IgnoredLine) else ParseColumns(key.value, kv.value.1)
  }

  // ---- round trip ------------------------------------------------------------

  predicate WfId(id: Identity) {
    id.logicalId != "" && Lacks(id.logicalId, '\t') && Lacks(id.logicalId, '\n')
  }

  /** The lines that survive: what each reader checks, and no separator in an id. */
  predicate WfLine(l: Line) {
    match l
    case NumberLine(key, value) =>
      IsNumberKey(key) && value <= MaxOf(key) && (key == ReconciledMonth && value != 0 ==> IsMonthOfYear(value))
    case CursorLine(id, _, _) => WfId(id)
    case ActiveMonthLine(id, month) => WfId(id) && IsMonthStart(month)
    case PrefixLine(id, _) => WfId(id)
    case FileIdLine(id, _) => WfId(id)
    case ModelLine(id, model) => WfId(id) && id.kind == Codex && IsSafeModel(model)
    case SeenLine(id, k) => WfId(id) && IsMonthStart(k.month)
    case ContribLine(id, _) => WfId(id)
    case PendingLine(id, e) =>
      WfId(id) && id.kind == Claude && IsSafeModel(e.model) && e.key.month == MonthOf(e.day)
      && e.usage.longContextCacheRead == e.usage.longContextCacheWrite5m == e.usage.longContextCacheWrite1h == 0
    case IgnoredLine => false
  }

  /** No separator inside, and no carriage return a line reader would strip. */
  predicate CleanColumn(s: string) {
    Lacks(s, '\t') && Lacks(s, '\n')
  }

  predicate AllClean(s: seq<string>) {
    forall i :: 0 <= i < |s| ==> CleanColumn(s[i])
  }

  predicate EndsClean(s: seq<string>) {
    s != [] && s[|s| - 1] != "" && s[|s| - 1][|s[|s| - 1]| - 1] != '\r'
  }

  lemma DecClean(n: nat)
    ensures CleanColumn(Dec(n)) && EndsClean([Dec(n)])
  {
    DecDigits(n);
    DigitsClean(Dec(n), 10);
  }

  lemma DigitsClean(s: string, base: nat)
    requires AllDigits(s, base)
    ensures CleanColumn(s) && Lacks(s, '\r')
  {
    DigitsLack(s, base, '\t');
    DigitsLack(s, base, '\n');
    DigitsLack(s, base, '\r');
  }

  lemma HexClean(n: u64)
    ensures CleanColumn(EncodeHex(n))
  {
    FixedDigits(n, 16, 16);
    DigitsClean(EncodeHex(n), 16);
  }

  lemma ModelClean(model: string)
    requires IsSafeModel(model)
    ensures CleanColumn(model) && EndsClean([model])
  {
  }

  lemma {:induction false} DecsClean(ns: seq<u64>)
    ensures AllClean(Decs(ns)) && (ns != [] ==> EndsClean(Decs(ns)))
    decreases |ns|
  {
    if ns != [] {
      DecClean(ns[0]);
      DecsClean(ns[1..]);
    }
  }

  lemma OwnColumnsClean(l: Line)
    requires WfLine(l) && !l.NumberLine?
    ensures AllClean(OwnColumns(l)) && EndsClean(OwnColumns(l))
  {
    hide Dec, EncodeHex, IsSafeModel, Decs, CleanColumn;
    match l {
      case CursorLine(_, offset, size) => DecClean(offset); DecClean(size);
      case ActiveMonthLine(_, month) => DecClean(month);
      case PrefixLine(_, prefix) => DecClean(prefix);
      case FileIdLine(_, f) => DecClean(f.volume); DecClean(f.high); DecClean(f.low);
      case ModelLine(_, model) => ModelClean(model);
      case SeenLine(_, k) => HexClean(k.digest); DecClean(k.month);
      case ContribLine(_, d) =>
        DecClean(d.day); DecClean(d.contrib.nanos); DecClean(d.contrib.input); DecClean(d.contrib.output);
      case PendingLine(_, e) =>
        HexClean(e.key.digest); DecClean(e.key.month); DecClean(e.day); ModelClean(e.model);
        DecsClean(TokenValues(e.usage));
    }
  }

  lemma ColumnsClean(l: Line)
    requires WfLine(l)
    ensures AllClean(Columns(l)) && EndsClean(Columns(l))
  {
    hide Dec, OwnColumns, IsSafeModel, IsMonthStart;
    if l.NumberLine? {
      DecClean(l.value);
    } else {
      OwnColumnsClean(l);
    }
  }

  lemma {:induction false} JoinClean(s: seq<string>)
    requires AllClean(s) && EndsClean(s)
    ensures var j := Join(s, '\t'); Lacks(j, '\n') && j != "" && j[|j| - 1] != '\r'
    decreases |s|
  {
    if |s| > 1 {
      JoinClean(s[1..]);
    }
  }

  /** A printed line is read back whole by the line reader. */
  lemma PrintPlain(l: Line)
    requires WfLine(l)
    ensures Plain(Print(l)) && Print(l) != ""
  {
    ColumnsClean(l);
    JoinClean(Columns(l));
    NameLacks(KeyOfLine(l));
  }

  /** ... and its key and columns come apart again. */
  lemma PrintSplits(l: Line)
    requires WfLine(l)
    ensures SplitOnce(Print(l), '=') == Some((Name(KeyOfLine(l)), Join(Columns(l), '\t')))
    ensures KeyOf(Name(KeyOfLine(l))) == Some(KeyOfLine(l))
    ensures Split(Join(Columns(l), '\t'), '\t') == Columns(l)
  {
    NameLacks(KeyOfLine(l));
    SplitOnceJoined(Name(KeyOfLine(l)), '=', Join(Columns(l), '\t'));
    KeyOfName(KeyOfLine(l));
    ColumnsClean(l);
    SplitJoin(Columns(l), '\t');
  }

  lemma {:induction false} ParseAllDecs(ns: seq<u64>)
    ensures ParseAll(Decs(ns)) == Some(ns)
    decreases |ns|
  {
    hide ParseUint;
    if ns != [] {
      ParseDec(ns[0], U64_MAX);
      ParseAllDecs(ns[1..]);
      assert Decs(ns)[1..] == Decs(ns[1..]) && Decs(ns)[0] == Dec(ns[0]);
      assert [ns[0]] + ns[1..] == ns;
    }
  }

  lemma TokensRoundTrip(u: TokenUsage)
    requires u.longContextCacheRead == u.longContextCacheWrite5m == u.longContextCacheWrite1h == 0
    ensures ParseTokens(Decs(TokenValues(u))) == Some(u)
  {
    hide Decs, ParseAll;
    ParseAllDecs(TokenValues(u));
  }

  lemma KindRoundTrip(kind: CursorKind)
    ensures ParseKind(KindColumn(kind)) == Some(kind)
  {
  }

  lemma PendingRoundTrip(l: Line)
    requires WfLine(l) && l.PendingLine?
    ensures ParsePending(Columns(l)) == Some(l)
  {
    hide ParseUint, HexDecode, Dec, Fixed, IsSafeModel;
    var e := l.event;
    var p := Columns(l);
    assert p[6..] == Decs(TokenValues(e.usage));
    TokensRoundTrip(e.usage);
    HexRoundTrip(e.key.digest);
    ParseDec(e.key.month, U32_MAX);
    ParseDec(e.day, U32_MAX);
    assert p[2] == EncodeHex(e.key.digest) && p[3] == Dec(e.key.month) && p[4] == Dec(e.day) && p[5] == e.model;
  }

  lemma StartsWithKind(l: Line)
    requires WfLine(l) && l.PendingLine?
    ensures "c\t" <= Join(Columns(l), '\t')
  {
    var p := Columns(l);
    assert Join(p, '\t') == p[0] + ['\t'] + Join(p[1..], '\t');
    assert "c\t" == "c" + ['\t'];
  }

  lemma SmallLinesRoundTrip(l: Line)
    requires WfLine(l) && (l.CursorLine? || l.PrefixLine? || l.ActiveMonthLine? || l.ModelLine? || l.SeenLine?)
    ensures var p := Columns(l);
      match l
      case CursorLine(_, _, _) => ParseCursor(p) == Some(l)
      case PrefixLine(_, _) => ParsePrefix(p) == Some(l)
      case ActiveMonthLine(_, _) => ParseActiveMonth(p) == Some(l)
      case ModelLine(_, _) => ParseModel(p) == Some(l)
      case _ => ParseSeen(p) == Some(l)
  {
    hide ParseUint, HexDecode, Dec, Fixed;
    KindRoundTrip(l.id.kind);
    match l {
      case CursorLine(_, offset, size) => ParseDec(offset, U64_MAX); ParseDec(size, U64_MAX);
      case PrefixLine(_, prefix) => ParseDec(prefix, U64_MAX);
      case ActiveMonthLine(_, month) => ParseDec(month, U64_MAX);
      case ModelLine(_, _) =>
      case SeenLine(_, k) => HexRoundTrip(k.digest); ParseDec(k.month, U32_MAX);
    }
  }

  lemma FileIdRoundTrip(l: Line)
    requires WfLine(l) && l.FileIdLine?
    ensures ParseFileId(Columns(l)) == Some(l)
  {
    hide ParseUint, HexDecode, Dec, Fixed, IsSafeModel;
    KindRoundTrip(l.id.kind);
    ParseDec(l.fileId.volume, U32_MAX);
    ParseDec(l.fileId.high, U32_MAX);
    ParseDec(l.fileId.low, U32_MAX);
  }

  lemma ContribRoundTrip(l: Line)
    requires WfLine(l) && l.ContribLine?
    ensures ParseContrib(Columns(l)) == Some(l)
  {
    hide ParseUint, HexDecode, Dec, Fixed, IsSafeModel;
    KindRoundTrip(l.id.kind);
    ParseDec(l.day.day, U32_MAX);
    ParseDec(l.day.contrib.nanos, U64_MAX);
    ParseDec(l.day.contrib.input, U64_MAX);
    ParseDec(l.day.contrib.output, U64_MAX);
  }

  lemma NumberRoundTrip(l: Line)
    requires WfLine(l) && l.NumberLine?
    ensures ParseColumns(l.key, Join(Columns(l), '\t')) == Some(l)
  {
    ParseDec(l.value, MaxOf(l.key));
  }

  lemma ColumnsRoundTrip(l: Line)
    requires WfLine(l) && Split(Join(Columns(l), '\t'), '\t') == Columns(l)
    ensures ParseColumns(KeyOfLine(l), Join(Columns(l), '\t')) == Some(l)
  {
    hide Split, Join, Columns, WfId, IsSafeModel;
    hide ParseCursor, ParsePrefix, ParseActiveMonth, ParseFileId, ParseModel, ParseSeen, ParseContrib, ParsePending;
    match l {
      case NumberLine(_, _) => NumberRoundTrip(l);
      case FileIdLine(_, _) => FileIdRoundTrip(l);
      case ContribLine(_, _) => ContribRoundTrip(l);
      case PendingLine(_, _) => PendingRoundTrip(l); StartsWithKind(l);
      case _ => SmallLinesRoundTrip(l);
    }
  }

  /** Every well-formed line is read back as it was written. */
  lemma LineRoundTrip(l: Line)
    requires WfLine(l)
    ensures Parse(Print(l)) == Some(l)
  {
    hide Split, SplitOnce, KeyOf, Name, Join, Columns, ParseColumns;
    PrintSplits(l);
    ColumnsRoundTrip(l);
  }
}
