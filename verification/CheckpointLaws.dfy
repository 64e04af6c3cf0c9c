/** The checkpoint codec round trip, and what a migrated checkpoint becomes. */
module CheckpointLaws {
  import opened Wrappers
  import opened Sorting
  import opened Text
  import opened Money
  import opened UsageStateModel
  import opened UsageLines
  import opened UsageLineSyntax
  import opened UsageCodec
  import opened CheckpointCodec
  import C = UsageCodecLaws
  import U = UsageCollectLaws

  /** Paths are single columns of single lines. */
  predicate WfPaths(files: map<Identity, FileCursor>) {
    forall id :: id in files ==> Lacks(id.logicalId, '\t') && Lacks(id.logicalId, '\n')
  }

  /** What comes back: totals with their nanos filled in, nothing a fetch provides. */
  function CanonCheckpoint(c: UsageCheckpoint): UsageCheckpoint {
    c.(snapshot := UsageSnapshot(C.CanonProvider(c.snapshot.claude), C.CanonProvider(c.snapshot.codex), false))
  }

  // ---- reading scalar lines ------------------------------------------------------

  lemma ReadAllAppend(s: Slots, line: string, rest: seq<string>)
    requires ReadLine(s, line).Some?
    ensures ReadAll(s, [line] + rest) == ReadAll(ReadLine(s, line).value, rest)
  {
    hide ReadLine;
    assert ([line] + rest)[1..] == rest;
  }

  lemma ScalarFits(c: UsageCheckpoint, k: Key)
    requires k in CHECKPOINT_KEYS
    ensures ScalarValue(c, k) <= MaxOf(k)
  {
  }

  lemma ScalarKey(k: Key)
    requires k in CHECKPOINT_KEYS
    ensures k != LegacyFile
  {
  }

  lemma ScalarRead(s: Slots, c: UsageCheckpoint, k: Key)
    requires k in CHECKPOINT_KEYS
    ensures ReadLine(s, Name(k) + ['='] + Dec(ScalarValue(c, k))) == Some(s.(numbers := s.numbers[k := ScalarValue(c, k)]))
  {
    hide Name, KeyOf, ScalarValue, MaxOf, SplitOnce, ParseUint, Dec, CHECKPOINT_KEYS;
    ScalarKey(k);
    ScalarFits(c, k);
    NameLacks(k);
    KeyOfName(k);
    SplitOnceJoined(Name(k), '=', Dec(ScalarValue(c, k)));
    ParseDec(ScalarValue(c, k), MaxOf(k));
  }

  function Scalars(c: UsageCheckpoint, keys: seq<Key>): map<Key, nat> {
    map k | k in keys :: ScalarValue(c, k)
  }

  lemma {:induction false} ScalarsRead(s: Slots, c: UsageCheckpoint, keys: seq<Key>, rest: seq<string>)
    requires forall k :: k in keys ==> k in CHECKPOINT_KEYS
    ensures ReadAll(s, ScalarLines(c, keys) + rest) == ReadAll(s.(numbers := s.numbers + Scalars(c, keys)), rest)
    decreases |keys|
  {
    hide ReadLine, ScalarValue, CHECKPOINT_KEYS, Name, Dec, Scalars;
    ScalarsHead(s.numbers, c, keys);
    if keys == [] {
      assert [] + rest == rest;
    } else {
      var k := keys[0];
      var line := Name(k) + ['='] + Dec(ScalarValue(c, k));
      ScalarRead(s, c, k);
      var next := s.(numbers := s.numbers[k := ScalarValue(c, k)]);
      assert ScalarLines(c, keys) + rest == [line] + (ScalarLines(c, keys[1..]) + rest);
      ReadAllAppend(s, line, ScalarLines(c, keys[1..]) + rest);
      ScalarsRead(next, c, keys[1..], rest);
    }
  }

  lemma ScalarsHead(m: map<Key, nat>, c: UsageCheckpoint, keys: seq<Key>)
    ensures keys == [] ==> m + Scalars(c, keys) == m
    ensures keys != [] ==> m[keys[0] := ScalarValue(c, keys[0])] + Scalars(c, keys[1..]) == m + Scalars(c, keys)
  {
    hide ScalarValue;
    if keys != [] {
      assert keys == [keys[0]] + keys[1..];
    }
  }

  // ---- reading file lines --------------------------------------------------------

  lemma FileRead(s: Slots, id: Identity, cursor: FileCursor)
    requires Lacks(id.logicalId, '\t')
    ensures ReadLine(s, FileLine(id, cursor)) == Some(s.(files := s.files[id := cursor]))
  {
    hide Name, KeyOf, SplitOnce, ParseUint, Dec, CHECKPOINT_KEYS, ParseFileLine, Join, KindColumn;
    FileColumns(id, cursor);
    NameLacks(LegacyFile);
    KeyOfName(LegacyFile);
    SplitOnceJoined(Name(LegacyFile), '=', Join([KindColumn(id.kind), id.logicalId, Dec(cursor.offset), Dec(cursor.size)], '\t'));
  }

  lemma FileColumns(id: Identity, cursor: FileCursor)
    requires Lacks(id.logicalId, '\t')
    ensures ParseFileLine(Join([KindColumn(id.kind), id.logicalId, Dec(cursor.offset), Dec(cursor.size)], '\t')) == Some((id, cursor))
  {
    hide Join, Split, Dec, ParseUint, AllDigits, DigitsValue, Lacks;
    DecDigits(cursor.offset);
    DecDigits(cursor.size);
    DigitsLack(Dec(cursor.offset), 10, '\t');
    DigitsLack(Dec(cursor.size), 10, '\t');
    ParseDec(cursor.offset, U64_MAX);
    ParseDec(cursor.size, U64_MAX);
    KindLetter(id.kind);
    var columns := [KindColumn(id.kind), id.logicalId, Dec(cursor.offset), Dec(cursor.size)];
    SplitJoin(columns, '\t');
    hide KindColumn;
  }

  lemma KindLetter(kind: CursorKind)
    ensures Lacks(KindColumn(kind), '\t') && Lacks(KindColumn(kind), '\n')
    ensures KindColumn(kind) != "" && KindColumn(kind)[0] == if kind == Claude then 'c' else 'x'
  {
  }

  function Taken(ids: seq<Identity>, files: map<Identity, FileCursor>): map<Identity, FileCursor>
    requires forall i :: 0 <= i < |ids| ==> ids[i] in files
  {
    map id | id in ids :: files[id]
  }

  lemma {:induction false} FilesRead(s: Slots, ids: seq<Identity>, files: map<Identity, FileCursor>)
    requires WfPaths(files) && forall i :: 0 <= i < |ids| ==> ids[i] in files
    ensures ReadAll(s, FileLines(ids, files)) == Some(s.(files := s.files + Taken(ids, files)))
    decreases |ids|
  {
    hide ReadLine, FileLine, Lacks, Taken;
    TakenHead(s.files, ids, files);
    if ids != [] {
      var id := ids[0];
      FileRead(s, id, files[id]);
      var next := s.(files := s.files[id := files[id]]);
      ReadAllAppend(s, FileLine(id, files[id]), FileLines(ids[1..], files));
      FilesRead(next, ids[1..], files);
    }
  }

  lemma TakenHead(m: map<Identity, FileCursor>, ids: seq<Identity>, files: map<Identity, FileCursor>)
    requires forall i :: 0 <= i < |ids| ==> ids[i] in files
    ensures ids == [] ==> m + Taken(ids, files) == m
    ensures ids != [] ==> m[ids[0] := files[ids[0]]] + Taken(ids[1..], files) == m + Taken(ids, files)
  {
    if ids != [] {
      assert ids == [ids[0]] + ids[1..];
    }
  }

  // ---- the text ------------------------------------------------------------------

  lemma {:induction false} ScalarLinesPlain(c: UsageCheckpoint, keys: seq<Key>)
    ensures forall i :: 0 <= i < |ScalarLines(c, keys)| ==> Plain(ScalarLines(c, keys)[i])
    decreases |keys|
  {
    hide Plain, ScalarValue, Name, Dec;
    if keys != [] {
      ScalarLinesPlain(c, keys[1..]);
      NumberPlain(keys[0], ScalarValue(c, keys[0]));
    }
  }

  lemma NumberPlain(k: Key, n: nat)
    ensures Plain(Name(k) + ['='] + Dec(n))
  {
    hide Name, Dec, AllDigits, DigitsValue, Plain;
    NameLacks(k);
    DecTail(n);
    PlainTail(Name(k) + ['='], Dec(n));
  }

  lemma PlainTail(a: string, b: string)
    requires Lacks(a, '\n') && Lacks(b, '\n') && Lacks(b, '\r') && b != []
    ensures Plain(a + b)
  {
    assert (a + b)[|a + b| - 1] == b[|b| - 1];
  }

  lemma DecTail(n: nat)
    ensures Lacks(Dec(n), '\n') && Lacks(Dec(n), '\r') && Dec(n) != []
  {
    DecDigits(n);
    DigitsLack(Dec(n), 10, '\n');
    DigitsLack(Dec(n), 10, '\r');
  }

  lemma {:induction false} FileLinesPlain(ids: seq<Identity>, files: map<Identity, FileCursor>)
    requires WfPaths(files) && forall i :: 0 <= i < |ids| ==> ids[i] in files
    ensures forall i :: 0 <= i < |FileLines(ids, files)| ==> Plain(FileLines(ids, files)[i])
    decreases |ids|
  {
    hide Plain, FileLine;
    if ids != [] {
      FileLinesPlain(ids[1..], files);
      FilePlain(ids[0], files[ids[0]]);
    }
  }

  lemma FilePlain(id: Identity, cursor: FileCursor)
    requires Lacks(id.logicalId, '\n')
    ensures Plain(FileLine(id, cursor))
  {
    hide Name, Dec, Plain, KindColumn, Join;
    NameLacks(LegacyFile);
    DecTail(cursor.offset);
    DecTail(cursor.size);
    KindLetter(id.kind);
    FourJoined(KindColumn(id.kind), id.logicalId, Dec(cursor.offset), Dec(cursor.size));
    var front := Name(LegacyFile) + ['='] + (KindColumn(id.kind) + ['\t'] + id.logicalId + ['\t'] + Dec(cursor.offset) + ['\t']);
    assert FileLine(id, cursor) == front + Dec(cursor.size);
    PlainTail(front, Dec(cursor.size));
  }

  lemma FourJoined(a: string, b: string, c: string, d: string)
    ensures Join([a, b, c, d], '\t') == a + ['\t'] + b + ['\t'] + c + ['\t'] + d
  {
    assert [a, b, c, d][1..] == [b, c, d] && [b, c, d][1..] == [c, d] && [c, d][1..] == [d];
    assert Join([d], '\t') == d;
    assert Join([c, d], '\t') == c + ['\t'] + d;
    assert Join([b, c, d], '\t') == b + ['\t'] + (c + ['\t'] + d);
    assert Join([a, b, c, d], '\t') == a + ['\t'] + (b + ['\t'] + (c + ['\t'] + d));
  }

  // ---- the round trip ------------------------------------------------------------

  lemma ScalarsInRange(c: UsageCheckpoint)
    ensures InRange(Scalars(c, CHECKPOINT_KEYS))
  {
    hide ScalarValue, MaxOf;
    forall k | k in CHECKPOINT_KEYS ensures ScalarValue(c, k) <= MaxOf(k) {
      ScalarFits(c, k);
    }
  }

  lemma ScalarAt(c: UsageCheckpoint, k: Key)
    requires k in {Month, Day, LastMs, CatchUpDone, ClaudeToday, ClaudeMonth, ClaudeTodayNanos, ClaudeMonthNanos, ClaudeIn,
        ClaudeOut, CodexToday, CodexMonth, CodexTodayNanos, CodexMonthNanos, CodexIn, CodexOut}
    ensures k in Scalars(c, CHECKPOINT_KEYS) && Scalars(c, CHECKPOINT_KEYS)[k] == ScalarValue(c, k)
    ensures NumberOr0(Scalars(c, CHECKPOINT_KEYS), k) == ScalarValue(c, k)
  {
    hide ScalarValue;
  }

  lemma ClaudeScalars(c: UsageCheckpoint)
    ensures var p := c.snapshot.claude;
      && ScalarValue(c, ClaudeToday) == p.todayCents && ScalarValue(c, ClaudeMonth) == p.monthCents
      && ScalarValue(c, ClaudeTodayNanos) == PersistedNanos(p.todayCents, p.todayCostNanos)
      && ScalarValue(c, ClaudeMonthNanos) == PersistedNanos(p.monthCents, p.monthCostNanos)
      && ScalarValue(c, ClaudeIn) == p.monthInputTokens && ScalarValue(c, ClaudeOut) == p.monthOutputTokens
  {
    hide PersistedNanos;
  }

  lemma CodexScalars(c: UsageCheckpoint)
    ensures var p := c.snapshot.codex;
      && ScalarValue(c, CodexToday) == p.todayCents && ScalarValue(c, CodexMonth) == p.monthCents
      && ScalarValue(c, CodexTodayNanos) == PersistedNanos(p.todayCents, p.todayCostNanos)
      && ScalarValue(c, CodexMonthNanos) == PersistedNanos(p.monthCents, p.monthCostNanos)
      && ScalarValue(c, CodexIn) == p.monthInputTokens && ScalarValue(c, CodexOut) == p.monthOutputTokens
  {
    hide PersistedNanos;
  }

  lemma OwnScalars(c: UsageCheckpoint)
    ensures ScalarValue(c, Month) == c.monthStart && ScalarValue(c, Day) == c.today
    ensures ScalarValue(c, LastMs) == c.lastCollectedMs && ScalarValue(c, CatchUpDone) == if c.catchUpDone then 1 else 0
  {
  }

  lemma NumbersFinish(c: UsageCheckpoint)
    ensures InRange(Scalars(c, CHECKPOINT_KEYS))
    ensures FinishCheckpoint(Slots(Scalars(c, CHECKPOINT_KEYS), c.files)) ==
            if c.catchUpDone && U.WfProvider(c.snapshot.claude) && U.WfProvider(c.snapshot.codex)
            then Some(CanonCheckpoint(c)) else None
  {
    OwnScalars(c);
    ClaudeScalars(c);
    CodexScalars(c);
    hide Scalars, CHECKPOINT_KEYS, PersistedNanos, MaxOf, RestoreProvider, InRange, NumberOr0, U.WfProvider, C.CanonProvider,
      ScalarValue;
    ScalarsInRange(c);
    ScalarAt(c, Month);
    ScalarAt(c, Day);
    ScalarAt(c, LastMs);
    ScalarAt(c, CatchUpDone);
    ScalarAt(c, ClaudeToday);
    ScalarAt(c, ClaudeMonth);
    ScalarAt(c, ClaudeTodayNanos);
    ScalarAt(c, ClaudeMonthNanos);
    ScalarAt(c, ClaudeIn);
    ScalarAt(c, ClaudeOut);
    ScalarAt(c, CodexToday);
    ScalarAt(c, CodexMonth);
    ScalarAt(c, CodexTodayNanos);
    ScalarAt(c, CodexMonthNanos);
    ScalarAt(c, CodexIn);
    ScalarAt(c, CodexOut);
    C.ProviderRestored(c.snapshot.claude);
    C.ProviderRestored(c.snapshot.codex);
  }

  /** Writing and reading a checkpoint keeps every total and file; it comes back at all
      exactly when the first catch-up is done and the nanos agree with the cents. */
  lemma CheckpointRoundTrip(c: UsageCheckpoint)
    requires WfPaths(c.files)
    ensures DecodeCheckpoint(EncodeCheckpoint(c)) ==
            if c.catchUpDone && U.WfProvider(c.snapshot.claude) && U.WfProvider(c.snapshot.codex)
            then Some(CanonCheckpoint(c)) else None
  {
    hide ReadAll, FinishCheckpoint, ScalarLines, FileLines, Lines, Unlines, CHECKPOINT_KEYS, Scalars, U.WfProvider,
      CanonCheckpoint, Plain, WfPaths, SortedIds, Taken;
    var ids := SortedIds(c.files.Keys);
    SortedIdsIs(c.files.Keys);
    TakenAll(ids, c.files);
    var body := ScalarLines(c, CHECKPOINT_KEYS) + FileLines(ids, c.files);
    ScalarLinesPlain(c, CHECKPOINT_KEYS);
    FileLinesPlain(ids, c.files);
    HeaderPlain();
    var lines := [CHECKPOINT_HEADER] + body;
    LinesUnlines(lines);
    assert lines[1..] == body;
    ScalarsRead(NO_SLOTS, c, CHECKPOINT_KEYS, FileLines(ids, c.files));
    NumbersFinish(c);
    assert NO_SLOTS.numbers + Scalars(c, CHECKPOINT_KEYS) == Scalars(c, CHECKPOINT_KEYS);
    FilesRead(Slots(Scalars(c, CHECKPOINT_KEYS), map[]), ids, c.files);
    assert map[] + c.files == c.files;
  }

  lemma TakenAll(ids: seq<Identity>, files: map<Identity, FileCursor>)
    requires forall id :: id in ids <==> id in files
    ensures Taken(ids, files) == files
  {
  }

  lemma HeaderPlain()
    ensures Plain(CHECKPOINT_HEADER)
  {
    assert CHECKPOINT_HEADER[|CHECKPOINT_HEADER| - 1] == '4';
  }

  /** A decoded checkpoint is written back as it was read: nothing is lost twice. */
  lemma CheckpointStable(payload: string)
    requires DecodeCheckpoint(payload).Some? && WfPaths(DecodeCheckpoint(payload).value.files)
    ensures DecodeCheckpoint(EncodeCheckpoint(DecodeCheckpoint(payload).value)) == DecodeCheckpoint(payload)
  {
    hide ReadAll, EncodeCheckpoint, Lines;
    CheckpointRoundTrip(DecodeCheckpoint(payload).value);
  }

  // ---- migration -----------------------------------------------------------------

  function MigratedCursors(ids: seq<Identity>, files: map<Identity, FileCursor>): (cs: seq<UsageCursor>)
    requires forall i :: 0 <= i < |ids| ==> ids[i] in files
    ensures |cs| == |ids|
    ensures forall i :: 0 <= i < |ids| ==> cs[i] == BareCursor(ids[i], files[ids[i]].offset, files[ids[i]].size)
  {
    seq(|ids|, i requires 0 <= i < |ids| => BareCursor(ids[i], files[ids[i]].offset, files[ids[i]].size))
  }

  /** The state a checkpoint is migrated to: an older schema, cursors without identity. */
  function FromRegistryCheckpoint(c: UsageCheckpoint, generation: u64): UsageState {
    SortedIdsIs(c.files.Keys);
    UsageState(generation, 2,
      UsageAggregate(c.monthStart, c.today, c.lastCollectedMs, c.catchUpDone, None,
                     UsageSnapshot(c.snapshot.claude, c.snapshot.codex, false)),
      MigratedCursors(SortedIds(c.files.Keys), c.files))
  }

  /** A decoded checkpoint with non-empty paths migrates to a state that the state
      codec keeps: it can be persisted and loaded. */
  lemma MigrationSaves(payload: string, generation: u64)
    requires DecodeCheckpoint(payload).Some?
    requires forall id :: id in DecodeCheckpoint(payload).value.files ==> WfId(id)
    ensures U.WfState(FromRegistryCheckpoint(DecodeCheckpoint(payload).value, generation))
  {
    hide ReadAll, Lines, WfId;
    var c := DecodeCheckpoint(payload).value;
    SortedIdsIs(c.files.Keys);
    var cs := MigratedCursors(SortedIds(c.files.Keys), c.files);
    forall i | 0 <= i < |cs| ensures U.WfCursor(cs[i]) {
      BareCursorWf(cs[i].id, cs[i].offset, cs[i].size);
    }
    hide U.WfCursor, DisplayCents;
  }

  lemma BareCursorWf(id: Identity, offset: u64, size: u64)
    requires WfId(id)
    ensures U.WfCursor(BareCursor(id, offset, size))
  {
  }
}
