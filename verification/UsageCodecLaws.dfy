/** Decoding what was encoded gives the canonical form of the state. */
module UsageCodecLaws {
  import opened Wrappers
  import opened SeqFacts
  import opened Sorting
  import opened Text
  import opened Money
  import opened UsageTypes
  import opened UsageStateModel
  import opened UsageLines
  import opened UsageLineSyntax
  import opened UsageCodec
  import opened UsageCollectLaws

  // ---- the canonical form --------------------------------------------------------

  function CanonCursor(c: UsageCursor): UsageCursor {
    c.(lastModel := KeptModel(c), claudePending := PersistedAll(KeptPending(c)), contribDays := SortedDays(c))
  }

  function ToCanon(): UsageCursor -> UsageCursor {
    (c: UsageCursor) => CanonCursor(c)
  }

  function CanonProvider(p: ProviderUsage): ProviderUsage {
    p.(todayCostNanos := PersistedNanos(p.todayCents, p.todayCostNanos),
       monthCostNanos := PersistedNanos(p.monthCents, p.monthCostNanos),
       live := NO_LIVE)
  }

  /** Cursors by kind and id, days in order, unsafe models gone, nanos filled in,
      and nothing that is not persisted. */
  function Canon(s: UsageState): UsageState {
    var snapshot := s.aggregate.snapshot;
    s.(aggregate := s.aggregate.(snapshot :=
         UsageSnapshot(CanonProvider(snapshot.claude), CanonProvider(snapshot.codex), false)),
       cursors := MapCursors(ToCanon(), SortedCursors(s)))
  }

  // ---- joining -------------------------------------------------------------------

  function Dated(c: UsageCursor): UsageCursor {
    Bare(c).(activeMonth := c.activeMonth)
  }

  function Prefixed(c: UsageCursor): UsageCursor {
    Dated(c).(prefix := c.prefix)
  }

  function Identified(c: UsageCursor): UsageCursor {
    Prefixed(c).(fileId := c.fileId)
  }

  function Modelled(c: UsageCursor): UsageCursor {
    Identified(c).(lastModel := KeptModel(c))
  }

  function ToDated(): UsageCursor -> UsageCursor { (c: UsageCursor) => Dated(c) }

  function ToPrefixed(): UsageCursor -> UsageCursor { (c: UsageCursor) => Prefixed(c) }

  function ToIdentified(): UsageCursor -> UsageCursor { (c: UsageCursor) => Identified(c) }

  function ToModelled(): UsageCursor -> UsageCursor { (c: UsageCursor) => Modelled(c) }

  lemma DistinctIdsTail(cs: seq<UsageCursor>)
    requires DistinctIds(cs) && cs != []
    ensures DistinctIds(cs[1..]) && Fresh(cs[1..], cs[0].id)
  {
  }

  lemma MonthMapTail(cs: seq<UsageCursor>)
    requires DistinctIds(cs) && cs != []
    ensures MonthMap(cs) - {cs[0].id} == MonthMap(cs[1..])
    ensures (if cs[0].id in MonthMap(cs) then Some(MonthMap(cs)[cs[0].id]) else None) == cs[0].activeMonth
  {
    DistinctIdsTail(cs);
    MonthMapKeys(cs[1..], cs[0].id);
  }

  lemma {:induction false} JoinMonthsAll(cs: seq<UsageCursor>)
    requires DistinctIds(cs)
    ensures JoinMonths(MapCursors(ToBare(), cs), MonthMap(cs)) == Some(MapCursors(ToDated(), cs))
    decreases |cs|
  {
    if cs != [] {
      hide MonthMap;
      var bare := MapCursors(ToBare(), cs);
      assert bare[1..] == MapCursors(ToBare(), cs[1..]);
      MonthMapTail(cs);
      DistinctIdsTail(cs);
      JoinMonthsAll(cs[1..]);
      assert MapCursors(ToDated(), cs) == [Dated(cs[0])] + MapCursors(ToDated(), cs[1..]);
    }
  }

  lemma {:induction false} PositionIs(cs: seq<UsageCursor>, k: nat)
    requires DistinctIds(cs) && k < |cs|
    ensures Position(cs, cs[k].id) == k
    decreases k
  {
    if k > 0 {
      assert cs[0].id != cs[k].id;
      PositionIs(cs[1..], k - 1);
    }
  }

  /** The first `k` cursors are finished, the others are not. */
  predicate Between(cur: seq<UsageCursor>, cs: seq<UsageCursor>, k: nat,
                    done: UsageCursor -> UsageCursor, todo: UsageCursor -> UsageCursor) {
    && k <= |cs| && |cur| == |cs|
    && (forall i :: 0 <= i < k ==> cur[i] == done(cs[i]))
    && (forall i :: k <= i < |cs| ==> cur[i] == todo(cs[i]))
  }

  lemma AllDone(cur: seq<UsageCursor>, cs: seq<UsageCursor>, done: UsageCursor -> UsageCursor,
                todo: UsageCursor -> UsageCursor)
    requires Between(cur, cs, |cs|, done, todo)
    ensures cur == MapCursors(done, cs)
  {
  }

  /** The next entry of an optional column, if the cursor has one. */
  lemma OptListStep<T>(f: UsageCursor -> Option<T>, cs: seq<UsageCursor>, k: nat)
    requires k < |cs|
    ensures var (all, rest) := (OptList(f, cs[k..]), OptList(f, cs[k + 1..]));
      if f(cs[k]).None? then all == rest
      else all != [] && all[0] == (cs[k].id, f(cs[k]).value) && all[1..] == rest
  {
    assert cs[k..][1..] == cs[k + 1..];
    var rest := OptList(f, cs[k + 1..]);
    assert OptList(f, cs[k..]) == Opt(cs[k].id, f(cs[k])) + rest;
    assert [] + rest == rest;
  }

  lemma {:induction false} JoinPrefixesFrom(cur: seq<UsageCursor>, cs: seq<UsageCursor>, k: nat)
    requires DistinctIds(cs) && Between(cur, cs, k, ToPrefixed(), ToDated())
    ensures JoinPrefixes(cur, OptList(PrefixOf(), cs[k..])) == MapCursors(ToPrefixed(), cs)
    decreases |cs| - k
  {
    if k == |cs| {
      AllDone(cur, cs, ToPrefixed(), ToDated());
    } else {
      var c := cs[k];
      OptListStep(PrefixOf(), cs, k);
      hide OptList;
      if c.prefix.None? {
        JoinPrefixesFrom(cur, cs, k + 1);
      } else {
        assert DistinctIds(cur);
        PositionIs(cur, k);
        JoinPrefixesFrom(cur[k := cur[k].(prefix := c.prefix)], cs, k + 1);
      }
    }
  }

  lemma {:induction false} JoinFileIdsFrom(cur: seq<UsageCursor>, cs: seq<UsageCursor>, k: nat)
    requires DistinctIds(cs) && Between(cur, cs, k, ToIdentified(), ToPrefixed())
    ensures JoinFileIds(cur, OptList(FileIdOf(), cs[k..])) == Some(MapCursors(ToIdentified(), cs))
    decreases |cs| - k
  {
    if k == |cs| {
      AllDone(cur, cs, ToIdentified(), ToPrefixed());
    } else {
      var c := cs[k];
      OptListStep(FileIdOf(), cs, k);
      hide OptList;
      if c.fileId.None? {
        JoinFileIdsFrom(cur, cs, k + 1);
      } else {
        assert DistinctIds(cur);
        PositionIs(cur, k);
        JoinFileIdsFrom(cur[k := cur[k].(fileId := c.fileId)], cs, k + 1);
      }
    }
  }

  lemma {:induction false} JoinModelsFrom(cur: seq<UsageCursor>, cs: seq<UsageCursor>, k: nat)
    requires DistinctIds(cs) && Between(cur, cs, k, ToModelled(), ToIdentified())
    ensures JoinModels(cur, OptList(ModelOf(), cs[k..])) == MapCursors(ToModelled(), cs)
    decreases |cs| - k
  {
    hide KeptModel;
    if k == |cs| {
      AllDone(cur, cs, ToModelled(), ToIdentified());
    } else {
      var c := cs[k];
      OptListStep(ModelOf(), cs, k);
      hide OptList;
      if KeptModel(c).None? {
        JoinModelsFrom(cur, cs, k + 1);
      } else {
        assert DistinctIds(cur);
        PositionIs(cur, k);
        JoinModelsFrom(cur[k := cur[k].(lastModel := KeptModel(c))], cs, k + 1);
      }
    }
  }

  lemma ListMapTail<T>(f: UsageCursor -> seq<T>, cs: seq<UsageCursor>)
    requires DistinctIds(cs) && cs != []
    ensures ListMap(f, cs) - {cs[0].id} == ListMap(f, cs[1..])
    ensures ListOf(ListMap(f, cs), cs[0].id) == f(cs[0])
  {
    DistinctIdsTail(cs);
    ListMapKeys(f, cs[1..], cs[0].id);
  }

  lemma SortedDaysStay(c: UsageCursor)
    ensures Sort(DayOrder(), SortedDays(c)) == SortedDays(c)
  {
    SortSorted(DayOrder(), c.contribDays);
    SortedStays(DayOrder(), SortedDays(c));
  }

  lemma PersistedConsistent(c: UsageCursor)
    requires WfCursor(c)
    ensures PendingConsistent(c.seenKeys, PersistedAll(KeptPending(c)))
    ensures c.id.kind == Codex ==> PersistedAll(KeptPending(c)) == []
  {
    hide KeptPending;
    if c.id.kind == Codex {
      CodexKeepsNone(c);
    }
  }

  lemma CodexKeepsNone(c: UsageCursor)
    requires c.id.kind == Codex
    ensures KeptPending(c) == []
  {
  }

  lemma {:induction false} JoinListsAll(cs: seq<UsageCursor>)
    requires DistinctIds(cs) && forall i :: 0 <= i < |cs| ==> WfCursor(cs[i])
    ensures JoinLists(MapCursors(ToModelled(), cs), ListMap(SeenOf(), cs), ListMap(PendingOf(), cs), ListMap(DaysOf(), cs))
         == Some(MapCursors(ToCanon(), cs))
    decreases |cs|
  {
    hide WfCursor, KeptModel, KeptPending, PendingConsistent, SortedDays;
    if cs != [] {
      hide ListMap;
      var c := cs[0];
      assert MapCursors(ToModelled(), cs)[1..] == MapCursors(ToModelled(), cs[1..]);
      ListMapTail(SeenOf(), cs);
      ListMapTail(PendingOf(), cs);
      ListMapTail(DaysOf(), cs);
      DistinctIdsTail(cs);
      PersistedConsistent(c);
      SortedDaysStay(c);
      JoinListsAll(cs[1..]);
      assert MapCursors(ToCanon(), cs) == [CanonCursor(c)] + MapCursors(ToCanon(), cs[1..]);
    }
  }

  lemma JoinAll(numbers: map<Key, nat>, cs: seq<UsageCursor>)
    requires DistinctIds(cs) && forall i :: 0 <= i < |cs| ==> WfCursor(cs[i])
    ensures JoinCursors(TablesOf(numbers, cs)) == Some(MapCursors(ToCanon(), cs))
  {
    hide JoinMonths, JoinPrefixes, JoinFileIds, JoinModels, JoinLists, OptList, ListMap, MonthMap, WfCursor, KeptModel;
    assert cs[0..] == cs;
    JoinMonthsAll(cs);
    JoinPrefixesFrom(MapCursors(ToDated(), cs), cs, 0);
    JoinFileIdsFrom(MapCursors(ToPrefixed(), cs), cs, 0);
    JoinModelsFrom(MapCursors(ToIdentified(), cs), cs, 0);
    JoinListsAll(cs);
  }

  // ---- the lines of a well-formed state are well-formed -----------------------------

  lemma HeaderWf(s: UsageState, k: Key)
    requires WfBody(s) && IsNumberKey(k)
    ensures WfLine(NumberLine(k, HeaderValue(s, k)))
  {
  }

  lemma {:induction false} NumberLinesWf(s: UsageState, keys: seq<Key>)
    requires WfBody(s) && forall i :: 0 <= i < |keys| ==> IsNumberKey(keys[i])
    ensures WfLines(NumberLines(s, keys))
    decreases |keys|
  {
    hide WfBody, WfLine, HeaderValue;
    if keys != [] {
      HeaderWf(s, keys[0]);
      NumberLinesWf(s, keys[1..]);
    }
  }

  lemma {:induction false} SeenLinesWf(id: Identity, keys: seq<UsageDedupeKey>)
    requires WfId(id) && forall i :: 0 <= i < |keys| ==> IsMonthStart(keys[i].month)
    ensures WfLines(SeenLines(id, keys))
    decreases |keys|
  {
    hide WfId, IsMonthStart;
    if keys != [] {
      SeenLinesWf(id, keys[1..]);
    }
  }

  lemma {:induction false} ContribLinesWf(id: Identity, days: seq<ContribDay>)
    requires WfId(id)
    ensures WfLines(ContribLines(id, days))
    decreases |days|
  {
    hide WfId;
    if days != [] {
      ContribLinesWf(id, days[1..]);
    }
  }

  lemma {:induction false} PendingLinesWf(id: Identity, events: seq<ClaudePendingUsage>)
    requires WfId(id) && (events != [] ==> id.kind == Claude)
    requires forall i :: 0 <= i < |events| ==> IsSafeModel(events[i].model) && events[i].key.month == MonthOf(events[i].day)
    ensures WfLines(PendingLines(id, events))
    decreases |events|
  {
    hide WfId, IsSafeModel;
    if events != [] {
      PendingLinesWf(id, events[1..]);
    }
  }

  lemma KeptSafe(c: UsageCursor)
    ensures forall i :: 0 <= i < |KeptPending(c)| ==> IsSafeModel(KeptPending(c)[i].model)
    ensures KeptPending(c) != [] ==> c.id.kind == Claude
  {
    FilterMembers(SafeEvent(), c.claudePending);
    var kept := KeptPending(c);
    forall i | 0 <= i < |kept| ensures IsSafeModel(kept[i].model) {
      assert kept[i] in Filter(SafeEvent(), c.claudePending);
    }
  }

  lemma FieldLinesWf(c: UsageCursor)
    requires WfCursor(c)
    ensures WfLines(FieldLines(c))
  {
  }

  lemma WfLinesAppend(a: seq<Line>, b: seq<Line>)
    requires WfLines(a) && WfLines(b)
    ensures WfLines(a + b)
  {
    hide WfLine;
  }

  lemma CursorLinesWf(c: UsageCursor)
    requires WfCursor(c)
    ensures WfLines(CursorLines(c))
  {
    hide KeptPending, SortedDays, IsSafeModel, FieldLines, SeenLines, ContribLines, PendingLines, IsMonthStart;
    KeptSafe(c);
    SeenLinesWf(c.id, c.seenKeys);
    ContribLinesWf(c.id, SortedDays(c));
    PendingLinesWf(c.id, KeptPending(c));
    FieldLinesWf(c);
    var first := [CursorLine(c.id, c.offset, c.size)];
    assert WfLines(first);
    hide WfLines;
    WfLinesAppend(first, FieldLines(c));
    WfLinesAppend(first + FieldLines(c), SeenLines(c.id, c.seenKeys));
    WfLinesAppend(first + FieldLines(c) + SeenLines(c.id, c.seenKeys), ContribLines(c.id, SortedDays(c)));
    WfLinesAppend(first + FieldLines(c) + SeenLines(c.id, c.seenKeys) + ContribLines(c.id, SortedDays(c)),
                  PendingLines(c.id, KeptPending(c)));
  }

  lemma {:induction false} AllCursorLinesWf(cs: seq<UsageCursor>)
    requires forall i :: 0 <= i < |cs| ==> WfCursor(cs[i])
    ensures WfLines(AllCursorLines(cs))
    decreases |cs|
  {
    hide WfCursor, CursorLines;
    if cs != [] {
      CursorLinesWf(cs[0]);
      AllCursorLinesWf(cs[1..]);
      WfLinesAppend(CursorLines(cs[0]), AllCursorLines(cs[1..]));
    }
  }

  lemma SortedCursorsWf(s: UsageState)
    requires WfBody(s)
    ensures DistinctIds(SortedCursors(s)) && forall i :: 0 <= i < |SortedCursors(s)| ==> WfCursor(SortedCursors(s)[i])
  {
    hide WfCursor;
    SortedCursorsDistinct(s);
    SortMembers(CursorOrder(), s.cursors);
    var sorted := SortedCursors(s);
    forall i | 0 <= i < |sorted| ensures WfCursor(sorted[i]) {
      var p := IndexIn(sorted, i, s.cursors);
    }
  }

  lemma StateLinesWf(s: UsageState)
    requires WfBody(s)
    ensures WfLines(StateLines(s))
  {
    hide WfLine, WfCursor, NumberLines, AllCursorLines, SortedCursors;
    SortedCursorsWf(s);
    forall i | 0 <= i < |NUMBER_KEYS| ensures IsNumberKey(NUMBER_KEYS[i]) {
      HeaderOnlyNumbers(i);
    }
    NumberLinesWf(s, NUMBER_KEYS);
    AllCursorLinesWf(SortedCursors(s));
    WfLinesAppend(NumberLines(s, NUMBER_KEYS), AllCursorLines(SortedCursors(s)));
  }

  // ---- the aggregate ---------------------------------------------------------------

  lemma NumbersHave(s: UsageState, k: Key)
    requires IsNumberKey(k)
    ensures var n := NumbersOf(s, NUMBER_KEYS);
      k in n && n[k] == HeaderValue(s, k) && NumberOr0(n, k) == HeaderValue(s, k)
  {
    hide HeaderValue;
    HeaderListed(k);
  }

  lemma ProviderRestored(p: ProviderUsage)
    ensures RestoreProvider(p.todayCents, p.monthCents, PersistedNanos(p.todayCents, p.todayCostNanos),
                            PersistedNanos(p.monthCents, p.monthCostNanos), p.monthInputTokens, p.monthOutputTokens)
         == if WfProvider(p) then Some(CanonProvider(p)) else None
  {
    hide DisplayCents, PersistedNanos;
    PersistedNanosAccepted(p.todayCents, p.todayCostNanos);
    PersistedNanosAccepted(p.monthCents, p.monthCostNanos);
  }

  function Restored(p: ProviderUsage): Option<ProviderUsage> {
    if WfProvider(p) then Some(CanonProvider(p)) else None
  }

  lemma ClaudeHeader(s: UsageState)
    ensures var p := s.aggregate.snapshot.claude;
      && HeaderValue(s, ClaudeToday) == p.todayCents && HeaderValue(s, ClaudeMonth) == p.monthCents
      && HeaderValue(s, ClaudeTodayNanos) == PersistedNanos(p.todayCents, p.todayCostNanos)
      && HeaderValue(s, ClaudeMonthNanos) == PersistedNanos(p.monthCents, p.monthCostNanos)
      && HeaderValue(s, ClaudeIn) == p.monthInputTokens && HeaderValue(s, ClaudeOut) == p.monthOutputTokens
  {
    hide PersistedNanos;
  }

  lemma CodexHeader(s: UsageState)
    ensures var p := s.aggregate.snapshot.codex;
      && HeaderValue(s, CodexToday) == p.todayCents && HeaderValue(s, CodexMonth) == p.monthCents
      && HeaderValue(s, CodexTodayNanos) == PersistedNanos(p.todayCents, p.todayCostNanos)
      && HeaderValue(s, CodexMonthNanos) == PersistedNanos(p.monthCents, p.monthCostNanos)
      && HeaderValue(s, CodexIn) == p.monthInputTokens && HeaderValue(s, CodexOut) == p.monthOutputTokens
  {
    hide PersistedNanos;
  }

  lemma RestoresClaude(s: UsageState)
    requires InRange(NumbersOf(s, NUMBER_KEYS))
    ensures RestoreClaude(NumbersOf(s, NUMBER_KEYS)) == Restored(s.aggregate.snapshot.claude)
  {
    ClaudeHeader(s);
    hide NumbersOf, NumberOr0, PersistedNanos, DisplayCents, RestoreProvider, CanonProvider, WfProvider, HeaderValue;
    NumbersHave(s, ClaudeToday); NumbersHave(s, ClaudeMonth); NumbersHave(s, ClaudeTodayNanos);
    NumbersHave(s, ClaudeMonthNanos); NumbersHave(s, ClaudeIn); NumbersHave(s, ClaudeOut);
    ProviderRestored(s.aggregate.snapshot.claude);
  }

  lemma RestoresCodex(s: UsageState)
    requires InRange(NumbersOf(s, NUMBER_KEYS))
    ensures RestoreCodex(NumbersOf(s, NUMBER_KEYS)) == Restored(s.aggregate.snapshot.codex)
  {
    CodexHeader(s);
    hide NumbersOf, NumberOr0, PersistedNanos, DisplayCents, RestoreProvider, CanonProvider, WfProvider, HeaderValue;
    NumbersHave(s, CodexToday); NumbersHave(s, CodexMonth); NumbersHave(s, CodexTodayNanos);
    NumbersHave(s, CodexMonthNanos); NumbersHave(s, CodexIn); NumbersHave(s, CodexOut);
    ProviderRestored(s.aggregate.snapshot.codex);
  }

  lemma FinishCanon(s: UsageState)
    requires WfBody(s) && InRange(NumbersOf(s, NUMBER_KEYS))
    ensures Finish(NumbersOf(s, NUMBER_KEYS), MapCursors(ToCanon(), SortedCursors(s)))
         == if Acceptable(s) then Some(Canon(s)) else None
  {
    hide NumbersOf, RestoreClaude, RestoreCodex, CanonProvider, WfProvider, PersistedNanos, DisplayCents, SortedCursors;
    RestoresClaude(s);
    RestoresCodex(s);
    NumbersHave(s, Schema); NumbersHave(s, Generation); NumbersHave(s, Month); NumbersHave(s, Day);
    NumbersHave(s, LastMs); NumbersHave(s, CatchUpDone); NumbersHave(s, ReconciledMonth);
    NumbersHave(s, ClaudeTodayNanos); NumbersHave(s, ClaudeMonthNanos);
    NumbersHave(s, CodexTodayNanos); NumbersHave(s, CodexMonthNanos);
  }

  // ---- the round trip --------------------------------------------------------------

  lemma EncodedLines(s: UsageState)
    requires WfBody(s) && Printable(StateLines(s))
    ensures Lines(Encode(s)) == [USAGE_STATE_HEADER] + PrintAll(StateLines(s))
  {
    hide StateLines, WfLine, Print, Lines, Unlines, Plain;
    StateLinesWf(s);
    PrintAllPlain(StateLines(s));
    HeaderPlain();
    var lines := [USAGE_STATE_HEADER] + PrintAll(StateLines(s));
    LinesUnlines(lines);
  }

  lemma HeaderPlain()
    ensures Plain(USAGE_STATE_HEADER)
  {
    assert forall i :: 0 <= i < |USAGE_STATE_HEADER| ==> USAGE_STATE_HEADER[i] >= '-';
  }

  lemma StateTables(s: UsageState)
    requires WfBody(s)
    ensures Fold(NO_TABLES, StateLines(s)) == Some(TablesOf(NumbersOf(s, NUMBER_KEYS), SortedCursors(s)))
  {
    hide WfCursor, NumberLines, AllCursorLines, NumbersOf, SortedCursors, Fold;
    var numbers := NumbersOf(s, NUMBER_KEYS);
    FoldNumbers(NO_TABLES, s, NUMBER_KEYS);
    assert map[] + numbers == numbers;
    FoldAppend(NO_TABLES, NumberLines(s, NUMBER_KEYS), AllCursorLines(SortedCursors(s)));
    SortedCursorsWf(s);
    assert [] + SortedCursors(s) == SortedCursors(s);
    NoCursors(numbers);
    FoldCursors(numbers, [], SortedCursors(s));
  }

  lemma NoCursors(numbers: map<Key, nat>)
    ensures TablesOf(numbers, []) == NO_TABLES.(numbers := numbers)
  {
  }

  /** A state whose cursors are well-formed decodes to its canonical form exactly
      when its aggregate is acceptable, and is rejected otherwise. */
  lemma RoundTripExact(s: UsageState)
    requires WfBody(s)
    ensures Decode(Encode(s)) == if Acceptable(s) then Some(Canon(s)) else None
  {
    hide Acceptable, StateLines, WfBody, WfLine, TablesOf, NumbersOf, Encode, SortedCursors, Canon, JoinCursors, Lines, Finish;
    StateLinesPrintable(s);
    StateLinesWf(s);
    EncodedLines(s);
    var printed := PrintAll(StateLines(s));
    assert ([USAGE_STATE_HEADER] + printed)[1..] == printed;
    CollectPrinted(NO_TABLES, StateLines(s));
    StateTables(s);
    CollectedInRange(NO_TABLES, printed);
    TablesNumbers(NumbersOf(s, NUMBER_KEYS), SortedCursors(s));
    SortedFinishes(s);
  }

  lemma TablesNumbers(numbers: map<Key, nat>, cs: seq<UsageCursor>)
    ensures TablesOf(numbers, cs).numbers == numbers
  {
  }

  lemma SortedFinishes(s: UsageState)
    requires WfBody(s) && InRange(NumbersOf(s, NUMBER_KEYS))
    ensures var t := TablesOf(NumbersOf(s, NUMBER_KEYS), SortedCursors(s));
      && t.numbers == NumbersOf(s, NUMBER_KEYS)
      && JoinCursors(t).Some?
      && Finish(t.numbers, JoinCursors(t).value) == if Acceptable(s) then Some(Canon(s)) else None
  {
    hide Acceptable, NumbersOf, SortedCursors, Canon, JoinCursors, WfCursor, Finish;
    SortedCursorsWf(s);
    JoinAll(NumbersOf(s, NUMBER_KEYS), SortedCursors(s));
    FinishCanon(s);
  }

  /** Every well-formed state decodes to its canonical form. */
  lemma RoundTrip(s: UsageState)
    requires WfState(s)
    ensures Decode(Encode(s)) == Some(Canon(s))
  {
    hide Decode, Encode, Canon, WfBody, Acceptable;
    RoundTripExact(s);
  }

  // ---- encoding again ----------------------------------------------------------------

  lemma HeaderStays(s: UsageState, k: Key)
    ensures HeaderValue(Canon(s), k) == HeaderValue(s, k)
  {
    hide SortedCursors;
  }

  lemma {:induction false} NumberLinesStay(s: UsageState, keys: seq<Key>)
    ensures NumberLines(Canon(s), keys) == NumberLines(s, keys)
    decreases |keys|
  {
    hide Canon, HeaderValue;
    if keys != [] {
      HeaderStays(s, keys[0]);
      NumberLinesStay(s, keys[1..]);
    }
  }

  lemma PersistedStays(events: seq<ClaudePendingUsage>)
    requires forall i :: 0 <= i < |events| ==> IsSafeModel(events[i].model)
    ensures Filter(SafeEvent(), PersistedAll(events)) == PersistedAll(events)
    ensures PersistedAll(PersistedAll(events)) == PersistedAll(events)
  {
    hide IsSafeModel;
    var p := PersistedAll(events);
    forall e | e in p ensures SafeEvent()(e) {
      var i :| 0 <= i < |p| && p[i] == e;
    }
    FilterAll(SafeEvent(), p);
  }

  lemma CanonKeeps(c: UsageCursor)
    ensures var k := CanonCursor(c);
      && KeptModel(k) == KeptModel(c)
      && KeptPending(k) == PersistedAll(KeptPending(c)) && PersistedAll(KeptPending(k)) == PersistedAll(KeptPending(c))
      && SortedDays(k) == SortedDays(c)
  {
    KeptSafe(c);
    PersistedStays(KeptPending(c));
    SortedDaysStay(c);
    if c.id.kind == Codex {
      CodexKeepsNone(c);
    }
  }

  lemma {:induction false} PendingLinesPersisted(id: Identity, events: seq<ClaudePendingUsage>)
    ensures PendingLines(id, PersistedAll(events)) == PendingLines(id, events)
    decreases |events|
  {
    if events != [] {
      assert PersistedAll(events)[1..] == PersistedAll(events[1..]);
      PendingLinesPersisted(id, events[1..]);
    }
  }

  lemma CursorLinesStay(c: UsageCursor)
    ensures CursorLines(CanonCursor(c)) == CursorLines(c)
  {
    CanonKeeps(c);
    PendingLinesPersisted(c.id, KeptPending(c));
    var k := CanonCursor(c);
    assert k.id == c.id && k.offset == c.offset && k.size == c.size && k.seenKeys == c.seenKeys;
    assert FieldLines(k) == FieldLines(c) by { hide KeptPending, SortedDays; }
    hide KeptModel, KeptPending, SortedDays, FieldLines, PersistedAll;
  }

  lemma {:induction false} AllCursorLinesStay(cs: seq<UsageCursor>)
    ensures AllCursorLines(MapCursors(ToCanon(), cs)) == AllCursorLines(cs)
    decreases |cs|
  {
    hide CursorLines, CanonCursor;
    if cs != [] {
      CursorLinesStay(cs[0]);
      assert MapCursors(ToCanon(), cs)[1..] == MapCursors(ToCanon(), cs[1..]);
      AllCursorLinesStay(cs[1..]);
    }
  }

  lemma CursorOrderTotal()
    ensures TotalPreorder(CursorOrder())
  {
    forall x: UsageCursor, y: UsageCursor ensures CursorOrder()(x, y) || CursorOrder()(y, x) {
      StrTotal(x.id.logicalId, y.id.logicalId);
    }
    forall x: UsageCursor, y: UsageCursor, z: UsageCursor | CursorOrder()(x, y) && CursorOrder()(y, z)
      ensures CursorOrder()(x, z)
    {
      if x.id.kind == y.id.kind == z.id.kind {
        StrTransitive(x.id.logicalId, y.id.logicalId, z.id.logicalId);
      }
    }
  }

  lemma CanonStaysSorted(s: UsageState)
    ensures SortedCursors(Canon(s)) == MapCursors(ToCanon(), SortedCursors(s))
  {
    CursorOrderTotal();
    SortSorted(CursorOrder(), s.cursors);
    var sorted := SortedCursors(s);
    var mapped := MapCursors(ToCanon(), sorted);
    hide CanonCursor, IdLe;
    forall i, j | 0 <= i < j < |mapped| ensures CursorOrder()(mapped[i], mapped[j]) {
      assert CursorOrder()(sorted[i], sorted[j]);
      CanonKeepsId(sorted[i]);
      CanonKeepsId(sorted[j]);
    }
    SortedStays(CursorOrder(), mapped);
  }

  lemma CanonKeepsId(c: UsageCursor)
    ensures CanonCursor(c).id == c.id
  {
  }

  /** The canonical form is written as the same text. */
  lemma EncodeCanon(s: UsageState)
    ensures Encode(Canon(s)) == Encode(s)
  {
    hide Canon, SortedCursors, Unlines, PrintAll, NumberLines, AllCursorLines;
    NumberLinesStay(s, NUMBER_KEYS);
    CanonStaysSorted(s);
    AllCursorLinesStay(SortedCursors(s));
    assert StateLines(Canon(s)) == StateLines(s);
  }

  /** The encoded cursors come by kind and then by id. */
  lemma EncodesInOrder(s: UsageState)
    ensures Sorted(CursorOrder(), SortedCursors(s)) && multiset(SortedCursors(s)) == multiset(s.cursors)
  {
    CursorOrderTotal();
    SortSorted(CursorOrder(), s.cursors);
    SortMembers(CursorOrder(), s.cursors);
  }
}
