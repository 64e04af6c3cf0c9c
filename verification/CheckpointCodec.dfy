/** The registry checkpoint: totals and one offset per source file, as text. */
module CheckpointCodec {
  import opened Wrappers
  import opened Sorting
  import opened Text
  import opened Money
  import opened UsageStateModel
  import opened UsageLines
  import opened UsageLineSyntax
  import opened UsageCodec

  const CHECKPOINT_HEADER := "rundog-usage-checkpoint-4"

  datatype FileCursor = FileCursor(offset: u64, size: u64)

  datatype UsageCheckpoint = UsageCheckpoint(
    monthStart: u32,
    today: u32,
    lastCollectedMs: u64,
    catchUpDone: bool,
    snapshot: UsageSnapshot,
    files: map<Identity, FileCursor>)

  // ---- the order of the files ----------------------------------------------------

  lemma IdTotal(a: Identity, b: Identity)
    ensures IdLe(a, b) || IdLe(b, a)
    ensures IdLe(a, b) && IdLe(b, a) ==> a == b
  {
    StrTotal(a.logicalId, b.logicalId);
    if IdLe(a, b) && IdLe(b, a) {
      StrAntisymmetric(a.logicalId, b.logicalId);
    }
  }

  lemma IdTransitive(a: Identity, b: Identity, c: Identity)
    requires IdLe(a, b) && IdLe(b, c)
    ensures IdLe(a, c)
  {
    if a.kind == b.kind == c.kind {
      StrTransitive(a.logicalId, b.logicalId, c.logicalId);
    }
  }

  predicate Least(id: Identity, ids: set<Identity>) {
    id in ids && forall j :: j in ids ==> IdLe(id, j)
  }

  lemma LeastOfTwo(x: Identity, y: Identity, rest: set<Identity>) returns (least: Identity)
    requires Least(y, rest)
    ensures Least(least, rest + {x})
  {
    hide IdLe;
    IdTotal(x, x);
    IdTotal(x, y);
    least := if IdLe(x, y) then x else y;
    forall j | j in rest + {x} ensures IdLe(least, j) {
      if j in rest && least == x {
        IdTransitive(x, y, j);
      }
    }
  }

  lemma LeastExists(ids: set<Identity>)
    requires ids != {}
    ensures exists id :: Least(id, ids)
    decreases |ids|
  {
    hide IdLe;
    var x :| x in ids;
    var rest := ids - {x};
    assert rest + {x} == ids;
    IdTotal(x, x);
    if rest == {} {
      assert Least(x, ids);
    } else {
      LeastExists(rest);
      var y :| Least(y, rest);
      var least := LeastOfTwo(x, y, rest);
    }
  }

  /** Claude files before Codex files, each by path. */
  function SortedIds(ids: set<Identity>): seq<Identity>
    decreases |ids|
  {
    if ids == {} then []
    else
      LeastExists(ids);
      LeastUnique(ids);
      var id :| Least(id, ids);
      [id] + SortedIds(ids - {id})
  }

  lemma LeastUnique(ids: set<Identity>)
    ensures forall a, b :: Least(a, ids) && Least(b, ids) ==> a == b
  {
    hide IdLe;
    forall a, b | Least(a, ids) && Least(b, ids) ensures a == b {
      IdTotal(a, b);
    }
  }

  lemma {:induction false} SortedIdsIs(ids: set<Identity>)
    ensures forall id :: id in SortedIds(ids) <==> id in ids
    ensures forall i, j :: 0 <= i < j < |SortedIds(ids)| ==> IdLe(SortedIds(ids)[i], SortedIds(ids)[j]) && SortedIds(ids)[i] != SortedIds(ids)[j]
    decreases |ids|
  {
    hide IdLe;
    if ids != {} {
      LeastExists(ids);
      LeastUnique(ids);
      var id :| Least(id, ids);
      assert SortedIds(ids) == [id] + SortedIds(ids - {id});
      SortedIdsIs(ids - {id});
    }
  }

  // ---- encoding ------------------------------------------------------------------

  /** The scalar fields, in the order they are written. */
  const CHECKPOINT_KEYS: seq<Key> := [
    Month, Day, LastMs, CatchUpDone,
    ClaudeToday, ClaudeMonth, ClaudeTodayNanos, ClaudeMonthNanos, ClaudeIn, ClaudeOut,
    CodexToday, CodexMonth, CodexTodayNanos, CodexMonthNanos, CodexIn, CodexOut]

  function ScalarValue(c: UsageCheckpoint, k: Key): nat {
    var claude, codex := c.snapshot.claude, c.snapshot.codex;
    match k
    case Month => c.monthStart
    case Day => c.today
    case LastMs => c.lastCollectedMs
    case CatchUpDone => if c.catchUpDone then 1 else 0
    case ClaudeToday => claude.todayCents
    case ClaudeMonth => claude.monthCents
    case ClaudeTodayNanos => PersistedNanos(claude.todayCents, claude.todayCostNanos)
    case ClaudeMonthNanos => PersistedNanos(claude.monthCents, claude.monthCostNanos)
    case ClaudeIn => claude.monthInputTokens
    case ClaudeOut => claude.monthOutputTokens
    case CodexToday => codex.todayCents
    case CodexMonth => codex.monthCents
    case CodexTodayNanos => PersistedNanos(codex.todayCents, codex.todayCostNanos)
    case CodexMonthNanos => PersistedNanos(codex.monthCents, codex.monthCostNanos)
    case CodexIn => codex.monthInputTokens
    case CodexOut => codex.monthOutputTokens
    case _ => 0
  }

  function ScalarLines(c: UsageCheckpoint, keys: seq<Key>): seq<string>
    decreases |keys|
  {
    if keys == [] then [] else [Name(keys[0]) + ['='] + Dec(ScalarValue(c, keys[0]))] + ScalarLines(c, keys[1..])
  }

  function FileLine(id: Identity, cursor: FileCursor): string {
    Name(LegacyFile) + ['='] + Join([KindColumn(id.kind), id.logicalId, Dec(cursor.offset), Dec(cursor.size)], '\t')
  }

  function FileLines(ids: seq<Identity>, files: map<Identity, FileCursor>): seq<string>
    requires forall i :: 0 <= i < |ids| ==> ids[i] in files
    decreases |ids|
  {
    if ids == [] then [] else [FileLine(ids[0], files[ids[0]])] + FileLines(ids[1..], files)
  }

  function EncodeCheckpoint(c: UsageCheckpoint): string {
    SortedIdsIs(c.files.Keys);
    Unlines([CHECKPOINT_HEADER] + (ScalarLines(c, CHECKPOINT_KEYS) + FileLines(SortedIds(c.files.Keys), c.files)))
  }

  // ---- decoding ------------------------------------------------------------------

  /** What the lines read so far have set. */
  datatype Slots = Slots(numbers: map<Key, nat>, files: map<Identity, FileCursor>)

  /** The kind is the first character of its column; further columns are not looked at. */
  function ParseFileLine(value: string): Option<(Identity, FileCursor)> {
    var p := Split(value, '\t');
    if |p| < 4 || p[0] == "" || p[0][0] !in {'c', 'x'} then None
    else
      match (ParseUint(p[2], U64_MAX), ParseUint(p[3], U64_MAX))
      case (Some(offset), Some(size)) =>
        Some((Identity(if p[0][0] == 'c' then Claude else Codex, p[1]), FileCursor(offset, size)))
      case _ => None
  }

  /** A bad month, day or time only unsets it; any other bad value rejects the payload;
      lines with other names are skipped. */
  function ReadLine(s: Slots, line: string): Option<Slots> {
    match SplitOnce(line, '=')
    case None => Some(s)
    case Some((name, value)) =>
      var key := KeyOf(name);
      if key == Some(LegacyFile) then
        (match ParseFileLine(value)
         case None => None
         case Some((id, cursor)) => Some(s.(files := s.files[id := cursor])))
      else if key.None? || key.value !in CHECKPOINT_KEYS then Some(s)
      else
        var n := ParseUint(value, MaxOf(key.value));
        if n.Some? then Some(s.(numbers := s.numbers[key.value := n.value]))
        else if key.value in {Month, Day, LastMs} then Some(s.(numbers := s.numbers - {key.value}))
        else None
  }

  function ReadAll(s: Slots, lines: seq<string>): Option<Slots>
    decreases |lines|
  {
    if lines == [] then Some(s)
    else
      match ReadLine(s, lines[0])
      case None => None
      case Some(t) => ReadAll(t, lines[1..])
  }

  lemma {:induction false} ReadInRange(s: Slots, lines: seq<string>)
    requires InRange(s.numbers)
    ensures ReadAll(s, lines).Some? ==> InRange(ReadAll(s, lines).value.numbers)
    decreases |lines|
  {
    hide MaxOf, KeyOf, SplitOnce, ParseFileLine, DigitsValue, AllDigits;
    if lines != [] && ReadLine(s, lines[0]).Some? {
      ReadInRange(ReadLine(s, lines[0]).value, lines[1..]);
    }
  }

  function FinishCheckpoint(s: Slots): Option<UsageCheckpoint>
    requires InRange(s.numbers)
  {
    var n := s.numbers;
    if NumberOr0(n, CatchUpDone) == 0 then None
    else if !({Month, Day, LastMs, ClaudeTodayNanos, ClaudeMonthNanos, CodexTodayNanos, CodexMonthNanos} <= n.Keys) then None
    else
      var claude, codex := RestoreClaude(n), RestoreCodex(n);
      if claude.None? || codex.None? then None
      else
        Some(UsageCheckpoint(n[Month], n[Day], n[LastMs], true, UsageSnapshot(claude.value, codex.value, false), s.files))
  }

  const NO_SLOTS := Slots(map[], map[])

  function DecodeCheckpoint(payload: string): Option<UsageCheckpoint> {
    var lines := Lines(payload);
    if lines == [] || lines[0] != CHECKPOINT_HEADER then None
    else
      ReadInRange(NO_SLOTS, lines[1..]);
      match ReadAll(NO_SLOTS, lines[1..])
      case None => None
      case Some(s) => FinishCheckpoint(s)
  }

  // ---- the loops -----------------------------------------------------------------

  method Encode(c: UsageCheckpoint) returns (out: string)
    ensures out == EncodeCheckpoint(c)
  {
    hide FileLine, ScalarLines, CHECKPOINT_KEYS, Least, CHECKPOINT_HEADER, SortedIds, Unlines, Name;
    SortedIdsIs(c.files.Keys);
    var head := [CHECKPOINT_HEADER] + ScalarLines(c, CHECKPOINT_KEYS);
    var ids := SortedIds(c.files.Keys);
    UnlinesAppend(head, FileLines(ids, c.files));
    assert head + FileLines(ids, c.files) ==
      [CHECKPOINT_HEADER] + (ScalarLines(c, CHECKPOINT_KEYS) + FileLines(ids, c.files));
    out := Unlines(head);
    out := PushFiles(out, ids, c.files);
  }

  lemma PushedLine(text: string, line: string, rest: seq<string>)
    ensures text + Unlines([line] + rest) == text + line + ['\n'] + Unlines(rest)
  {
    assert ([line] + rest)[1..] == rest;
  }

  method PushFiles(text: string, ids: seq<Identity>, files: map<Identity, FileCursor>) returns (out: string)
    requires forall i :: 0 <= i < |ids| ==> ids[i] in files
    ensures out == text + Unlines(FileLines(ids, files))
  {
    hide FileLine, Unlines;
    out := text;
    var i := 0;
    assert ids[0..] == ids;
    while i < |ids|
      invariant 0 <= i <= |ids|
      invariant out + Unlines(FileLines(ids[i..], files)) == text + Unlines(FileLines(ids, files))
    {
      assert ids[i..][1..] == ids[i + 1..] && ids[i..][0] == ids[i];
      var line := FileLine(ids[i], files[ids[i]]);
      PushedLine(out, line, FileLines(ids[i + 1..], files));
      out := out + line + ['\n'];
      i := i + 1;
    }
    assert Unlines([]) == [] by { NoLines(); }
  }

  lemma NoLines()
    ensures Unlines([]) == []
  {
  }

  method Decode(payload: string) returns (r: Option<UsageCheckpoint>)
    ensures r == DecodeCheckpoint(payload)
  {
    hide ReadLine, FinishCheckpoint;
    var lines := Lines(payload);
    if lines == [] || lines[0] != CHECKPOINT_HEADER {
      return None;
    }
    var s := NO_SLOTS;
    var i := 1;
    while i < |lines|
      invariant 1 <= i <= |lines|
      invariant ReadAll(NO_SLOTS, lines[1..]) == ReadAll(s, lines[i..])
    {
      assert lines[i..][1..] == lines[i + 1..] && lines[i..][0] == lines[i];
      var t := ReadLine(s, lines[i]);
      if t.None? {
        return None;
      }
      s := t.value;
      i := i + 1;
    }
    ReadInRange(NO_SLOTS, lines[1..]);
    return FinishCheckpoint(s);
  }
}
