/** The lines of a well-formed state collect into exactly its fields. */
module UsageCollectLaws {
  import opened Wrappers
  import opened SeqFacts
  import opened Sorting
  import opened Text
  import opened Money
  import opened UsageTypes
  import opened UsageStateModel
  import opened UsageLines
  import opened UsageLineSyntax
  import opened UsageCodec

  // ---- well-formed states ------------------------------------------------------

  predicate DistinctKeys(events: seq<ClaudePendingUsage>) {
    forall i, j :: 0 <= i < j < |events| ==> events[i].key != events[j].key
  }

  predicate DistinctDays(days: seq<ContribDay>) {
    forall i, j :: 0 <= i < j < |days| ==> days[i].day != days[j].day
  }

  predicate DistinctIds(cs: seq<UsageCursor>) {
    forall i, j :: 0 <= i < j < |cs| ==> cs[i].id != cs[j].id
  }

  predicate WfCursor(c: UsageCursor) {
    && WfId(c.id)
    && (c.activeMonth.Some? ==> IsMonthStart(c.activeMonth.value))
    && Distinct(c.seenKeys) && |c.seenKeys| <= SeenCap(c.id.kind)
    && (forall i :: 0 <= i < |c.seenKeys| ==> IsMonthStart(c.seenKeys[i].month))
    && DistinctDays(c.contribDays)
    && DistinctKeys(KeptPending(c)) && |KeptPending(c)| <= PENDING_CAP_CLAUDE
    && PendingConsistent(c.seenKeys, KeptPending(c))
  }

  predicate WfProvider(p: ProviderUsage) {
    && (p.todayCostNanos == 0 || DisplayCents(p.todayCostNanos) == p.todayCents)
    && (p.monthCostNanos == 0 || DisplayCents(p.monthCostNanos) == p.monthCents)
  }

  /** What the line format itself needs of a state. */
  predicate WfBody(s: UsageState) {
    && (s.aggregate.codexCacheReconciledMonth.Some? ==>
          s.aggregate.codexCacheReconciledMonth.value != 0 && IsMonthOfYear(s.aggregate.codexCacheReconciledMonth.value))
    && DistinctIds(s.cursors)
    && (forall i :: 0 <= i < |s.cursors| ==> WfCursor(s.cursors[i]))
  }

  /** What the aggregate checks of the decoder accept: a known schema, and nanos
      that are missing or round to the cents beside them. */
  predicate Acceptable(s: UsageState) {
    && 2 <= s.schemaVersion <= USAGE_STATE_SCHEMA_VERSION
    && WfProvider(s.aggregate.snapshot.claude) && WfProvider(s.aggregate.snapshot.codex)
  }

  predicate WfState(s: UsageState) {
    WfBody(s) && Acceptable(s)
  }

  // ---- folding typed lines -----------------------------------------------------

  function Fold(t: Tables, lines: seq<Line>): Option<Tables>
    decreases |lines|
  {
    if lines == [] then Some(t)
    else
      var u := Collect(t, lines[0]);
      if u.None? then None else Fold(u.value, lines[1..])
  }

  lemma {:induction false} FoldAppend(t: Tables, a: seq<Line>, b: seq<Line>)
    requires Fold(t, a).Some?
    ensures Fold(t, a + b) == Fold(Fold(t, a).value, b)
    decreases |a|
  {
    if a == [] {
      assert a + b == b;
    } else {
      assert (a + b)[1..] == a[1..] + b;
      FoldAppend(Collect(t, a[0]).value, a[1..], b);
    }
  }

  predicate WfLines(lines: seq<Line>) {
    forall i :: 0 <= i < |lines| ==> WfLine(lines[i])
  }

  /** Reading printed lines collects the lines themselves. */
  lemma {:induction false} CollectPrinted(t: Tables, lines: seq<Line>)
    requires WfLines(lines) && Printable(lines)
    ensures CollectAll(t, PrintAll(lines)) == Fold(t, lines)
    decreases |lines|
  {
    hide Print, Parse, WfLine, Collect;
    if lines != [] {
      var printed := PrintAll(lines);
      assert printed[0] == Print(lines[0]) && printed[1..] == PrintAll(lines[1..]);
      LineRoundTrip(lines[0]);
      PrintPlain(lines[0]);
      var u := Collect(t, lines[0]);
      if u.Some? {
        CollectPrinted(u.value, lines[1..]);
      }
    }
  }

  lemma {:induction false} PrintAllPlain(lines: seq<Line>)
    requires WfLines(lines) && Printable(lines)
    ensures forall i :: 0 <= i < |PrintAll(lines)| ==> Plain(PrintAll(lines)[i])
    decreases |lines|
  {
    hide Print, Plain, WfLine;
    if lines != [] {
      PrintPlain(lines[0]);
      PrintAllPlain(lines[1..]);
    }
  }

  // ---- numbers -----------------------------------------------------------------

  function NumbersOf(s: UsageState, keys: seq<Key>): map<Key, nat> {
    map k | k in keys :: HeaderValue(s, k)
  }

  lemma NumbersHead(m: map<Key, nat>, s: UsageState, keys: seq<Key>)
    requires keys != []
    ensures m + NumbersOf(s, keys) == m[keys[0] := HeaderValue(s, keys[0])] + NumbersOf(s, keys[1..])
  {
    hide HeaderValue;
    assert keys == [keys[0]] + keys[1..];
  }

  lemma {:induction false} FoldNumbers(t: Tables, s: UsageState, keys: seq<Key>)
    ensures Fold(t, NumberLines(s, keys)) == Some(t.(numbers := t.numbers + NumbersOf(s, keys)))
    decreases |keys|
  {
    hide HeaderValue;
    if keys == [] {
      assert t.numbers + NumbersOf(s, keys) == t.numbers;
    } else {
      hide NumbersOf;
      NumbersHead(t.numbers, s, keys);
      assert NumberLines(s, keys)[1..] == NumberLines(s, keys[1..]);
      FoldNumbers(t.(numbers := t.numbers[keys[0] := HeaderValue(s, keys[0])]), s, keys[1..]);
    }
  }

  // ---- one cursor --------------------------------------------------------------

  /** Appending to the list of an identity; an empty addition leaves no entry. */
  function Extend<T>(m: map<Identity, seq<T>>, id: Identity, more: seq<T>): map<Identity, seq<T>> {
    if more == [] then m else m[id := ListOf(m, id) + more]
  }

  lemma ExtendTwice<T>(m: map<Identity, seq<T>>, id: Identity, x: T, rest: seq<T>)
    ensures Extend(m[id := ListOf(m, id) + [x]], id, rest) == Extend(m, id, [x] + rest)
  {
    if rest == [] {
      assert [x] + rest == [x];
    } else {
      assert ListOf(m, id) + [x] + rest == ListOf(m, id) + ([x] + rest);
    }
  }

  lemma {:induction false} FoldSeen(t: Tables, id: Identity, keys: seq<UsageDedupeKey>)
    requires Distinct(ListOf(t.seen, id) + keys) && |ListOf(t.seen, id) + keys| <= SeenCap(id.kind)
    ensures Fold(t, SeenLines(id, keys)) == Some(t.(seen := Extend(t.seen, id, keys)))
    decreases |keys|
  {
    if keys != [] {
      var had := ListOf(t.seen, id);
      var u := t.(seen := t.seen[id := had + [keys[0]]]);
      assert (had + keys)[|had|] == keys[0];
      forall i | 0 <= i < |had| ensures had[i] != keys[0] {
        assert (had + keys)[i] == had[i];
      }
      assert had + keys == had + [keys[0]] + keys[1..];
      assert SeenLines(id, keys)[1..] == SeenLines(id, keys[1..]);
      FoldSeen(u, id, keys[1..]);
      ExtendTwice(t.seen, id, keys[0], keys[1..]);
      assert [keys[0]] + keys[1..] == keys;
    }
  }

  lemma {:induction false} FoldContribs(t: Tables, id: Identity, days: seq<ContribDay>)
    requires DistinctDays(ListOf(t.contribs, id) + days)
    ensures Fold(t, ContribLines(id, days)) == Some(t.(contribs := Extend(t.contribs, id, days)))
    decreases |days|
  {
    if days != [] {
      var had := ListOf(t.contribs, id);
      var u := t.(contribs := t.contribs[id := had + [days[0]]]);
      assert (had + days)[|had|] == days[0];
      forall i | 0 <= i < |had| ensures had[i].day != days[0].day {
        assert (had + days)[i] == had[i];
      }
      assert had + days == had + [days[0]] + days[1..];
      assert ContribLines(id, days)[1..] == ContribLines(id, days[1..]);
      FoldContribs(u, id, days[1..]);
      ExtendTwice(t.contribs, id, days[0], days[1..]);
      assert [days[0]] + days[1..] == days;
    }
  }

  function PersistedAll(events: seq<ClaudePendingUsage>): (r: seq<ClaudePendingUsage>)
    ensures |r| == |events| && forall i :: 0 <= i < |r| ==> r[i] == Persisted(events[i])
  {
    seq(|events|, i requires 0 <= i < |events| => Persisted(events[i]))
  }

  lemma HeadKeyNew(had: seq<ClaudePendingUsage>, e: ClaudePendingUsage, rest: seq<ClaudePendingUsage>)
    requires DistinctKeys(had + ([e] + rest))
    ensures forall i :: 0 <= i < |had| ==> had[i].key != e.key
    ensures DistinctKeys(had + [e] + rest)
  {
    var all := had + ([e] + rest);
    assert all == had + [e] + rest;
    assert all[|had|] == e;
    forall i | 0 <= i < |had| ensures had[i].key != e.key {
      assert all[i] == had[i];
    }
  }

  lemma {:induction false} FoldPending(t: Tables, id: Identity, events: seq<ClaudePendingUsage>)
    requires DistinctKeys(ListOf(t.pending, id) + PersistedAll(events))
    requires |ListOf(t.pending, id) + events| <= PENDING_CAP_CLAUDE
    ensures Fold(t, PendingLines(id, events)) == Some(t.(pending := Extend(t.pending, id, PersistedAll(events))))
    decreases |events|
  {
    if events != [] {
      var had, e, rest := ListOf(t.pending, id), Persisted(events[0]), PersistedAll(events[1..]);
      hide Persisted;
      assert PersistedAll(events) == [e] + rest;
      HeadKeyNew(had, e, rest);
      var u := t.(pending := t.pending[id := had + [e]]);
      assert Collect(t, PendingLine(id, e)) == Some(u);
      hide Collect, DistinctKeys;
      assert PendingLines(id, events)[1..] == PendingLines(id, events[1..]);
      FoldPending(u, id, events[1..]);
      ExtendTwice(t.pending, id, e, rest);
    }
  }

  function Opt<T>(id: Identity, x: Option<T>): seq<(Identity, T)> {
    if x.Some? then [(id, x.value)] else []
  }

  function PutMonth(m: map<Identity, u32>, c: UsageCursor): map<Identity, u32> {
    if c.activeMonth.Some? then m[c.id := c.activeMonth.value] else m
  }

  lemma FoldMonth(t: Tables, c: UsageCursor)
    requires c.id !in t.activeMonths
    ensures Fold(t, MonthLines(c)) == Some(t.(activeMonths := PutMonth(t.activeMonths, c)))
  {
    FoldAtMostOne(t, MonthLines(c), t.(activeMonths := PutMonth(t.activeMonths, c)));
  }

  lemma FoldPrefix(t: Tables, c: UsageCursor)
    ensures Fold(t, PrefixLines(c)) == Some(t.(prefixes := t.prefixes + Opt(c.id, c.prefix)))
  {
    FoldAtMostOne(t, PrefixLines(c), t.(prefixes := t.prefixes + Opt(c.id, c.prefix)));
  }

  lemma FoldFileId(t: Tables, c: UsageCursor)
    ensures Fold(t, FileIdLines(c)) == Some(t.(fileIds := t.fileIds + Opt(c.id, c.fileId)))
  {
    FoldAtMostOne(t, FileIdLines(c), t.(fileIds := t.fileIds + Opt(c.id, c.fileId)));
  }

  lemma FoldModel(t: Tables, c: UsageCursor)
    ensures Fold(t, ModelLines(c)) == Some(t.(models := t.models + Opt(c.id, KeptModel(c))))
  {
    hide KeptModel;
    FoldAtMostOne(t, ModelLines(c), t.(models := t.models + Opt(c.id, KeptModel(c))));
  }

  lemma FoldFields(t: Tables, c: UsageCursor)
    requires c.id !in t.activeMonths
    ensures Fold(t, FieldLines(c)) == Some(t.(
      activeMonths := PutMonth(t.activeMonths, c),
      prefixes := t.prefixes + Opt(c.id, c.prefix),
      fileIds := t.fileIds + Opt(c.id, c.fileId),
      models := t.models + Opt(c.id, KeptModel(c))))
  {
    hide Fold, MonthLines, PrefixLines, FileIdLines, ModelLines, PutMonth, Opt, KeptModel;
    var t1 := t.(activeMonths := PutMonth(t.activeMonths, c));
    var t2 := t1.(prefixes := t.prefixes + Opt(c.id, c.prefix));
    var t3 := t2.(fileIds := t.fileIds + Opt(c.id, c.fileId));
    FoldMonth(t, c);
    FoldPrefix(t1, c);
    FoldFileId(t2, c);
    FoldModel(t3, c);
    FoldAppend(t, MonthLines(c), PrefixLines(c));
    FoldAppend(t, MonthLines(c) + PrefixLines(c), FileIdLines(c));
    FoldAppend(t, MonthLines(c) + PrefixLines(c) + FileIdLines(c), ModelLines(c));
  }

  lemma FoldAtMostOne(t: Tables, lines: seq<Line>, u: Tables)
    requires lines == [] ==> u == t
    requires lines != [] ==> |lines| == 1 && Collect(t, lines[0]) == Some(u)
    ensures Fold(t, lines) == Some(u)
  {
    if lines != [] {
      assert lines[1..] == [];
    }
  }

  // ---- all cursors -------------------------------------------------------------

  function SeenOf(): UsageCursor -> seq<UsageDedupeKey> {
    (c: UsageCursor) => c.seenKeys
  }

  function PendingOf(): UsageCursor -> seq<ClaudePendingUsage> {
    (c: UsageCursor) => PersistedAll(KeptPending(c))
  }

  function DaysOf(): UsageCursor -> seq<ContribDay> {
    (c: UsageCursor) => SortedDays(c)
  }

  function PrefixOf(): UsageCursor -> Option<u64> {
    (c: UsageCursor) => c.prefix
  }

  function FileIdOf(): UsageCursor -> Option<FileId> {
    (c: UsageCursor) => c.fileId
  }

  function ModelOf(): UsageCursor -> Option<string> {
    (c: UsageCursor) => KeptModel(c)
  }

  /** The entries of the cursors that have one, in order. */
  function OptList<T>(f: UsageCursor -> Option<T>, cs: seq<UsageCursor>): seq<(Identity, T)>
    decreases |cs|
  {
    if cs == [] then [] else Opt(cs[0].id, f(cs[0])) + OptList(f, cs[1..])
  }

  /** The lists of the cursors that have one, by identity. */
  function ListMap<T>(f: UsageCursor -> seq<T>, cs: seq<UsageCursor>): map<Identity, seq<T>>
    decreases |cs|
  {
    if cs == [] then map[]
    else
      var rest := ListMap(f, cs[1..]);
      if f(cs[0]) == [] then rest else rest[cs[0].id := f(cs[0])]
  }

  function MonthMap(cs: seq<UsageCursor>): map<Identity, u32>
    decreases |cs|
  {
    if cs == [] then map[] else PutMonth(MonthMap(cs[1..]), cs[0])
  }

  function Bare(c: UsageCursor): UsageCursor {
    BareCursor(c.id, c.offset, c.size)
  }

  function MapCursors(f: UsageCursor -> UsageCursor, cs: seq<UsageCursor>): (r: seq<UsageCursor>)
    ensures |r| == |cs| && forall i :: 0 <= i < |cs| ==> r[i] == f(cs[i])
  {
    seq(|cs|, i requires 0 <= i < |cs| => f(cs[i]))
  }

  function ToBare(): UsageCursor -> UsageCursor {
    (c: UsageCursor) => Bare(c)
  }

  /** What the cursor lines of `cs` amount to. */
  function TablesOf(numbers: map<Key, nat>, cs: seq<UsageCursor>): Tables {
    Tables(numbers, MapCursors(ToBare(), cs), OptList(PrefixOf(), cs), OptList(FileIdOf(), cs), MonthMap(cs),
           OptList(ModelOf(), cs), ListMap(SeenOf(), cs), ListMap(PendingOf(), cs), ListMap(DaysOf(), cs))
  }

  predicate Fresh(cs: seq<UsageCursor>, id: Identity) {
    forall i :: 0 <= i < |cs| ==> cs[i].id != id
  }

  lemma {:induction false} OptListSnoc<T>(f: UsageCursor -> Option<T>, cs: seq<UsageCursor>, c: UsageCursor)
    ensures OptList(f, cs + [c]) == OptList(f, cs) + Opt(c.id, f(c))
    decreases |cs|
  {
    if cs == [] {
      assert (cs + [c])[1..] == [];
    } else {
      assert (cs + [c])[1..] == cs[1..] + [c];
      OptListSnoc(f, cs[1..], c);
    }
  }

  lemma {:induction false} ListMapKeys<T>(f: UsageCursor -> seq<T>, cs: seq<UsageCursor>, id: Identity)
    requires Fresh(cs, id)
    ensures id !in ListMap(f, cs)
    decreases |cs|
  {
    if cs != [] {
      ListMapKeys(f, cs[1..], id);
    }
  }

  lemma {:induction false} ListMapSnoc<T>(f: UsageCursor -> seq<T>, cs: seq<UsageCursor>, c: UsageCursor)
    requires Fresh(cs, c.id)
    ensures ListMap(f, cs + [c]) == Extend(ListMap(f, cs), c.id, f(c))
    decreases |cs|
  {
    ListMapKeys(f, cs, c.id);
    assert [] + f(c) == f(c);
    if cs == [] {
      assert (cs + [c])[1..] == [];
    } else {
      assert (cs + [c])[1..] == cs[1..] + [c];
      ListMapSnoc(f, cs[1..], c);
      ListMapKeys(f, cs[1..], c.id);
    }
  }

  lemma {:induction false} MonthMapKeys(cs: seq<UsageCursor>, id: Identity)
    requires Fresh(cs, id)
    ensures id !in MonthMap(cs)
    decreases |cs|
  {
    if cs != [] {
      MonthMapKeys(cs[1..], id);
    }
  }

  lemma {:induction false} MonthMapSnoc(cs: seq<UsageCursor>, c: UsageCursor)
    requires Fresh(cs, c.id)
    ensures MonthMap(cs + [c]) == PutMonth(MonthMap(cs), c)
    decreases |cs|
  {
    if cs == [] {
      assert (cs + [c])[1..] == [];
    } else {
      assert (cs + [c])[1..] == cs[1..] + [c];
      MonthMapSnoc(cs[1..], c);
    }
  }

  /** The tables after one more cursor. */
  function AddCursor(t: Tables, c: UsageCursor): Tables {
    t.(cursors := t.cursors + [Bare(c)],
       activeMonths := PutMonth(t.activeMonths, c),
       prefixes := t.prefixes + Opt(c.id, c.prefix),
       fileIds := t.fileIds + Opt(c.id, c.fileId),
       models := t.models + Opt(c.id, KeptModel(c)),
       seen := Extend(t.seen, c.id, c.seenKeys),
       contribs := Extend(t.contribs, c.id, SortedDays(c)),
       pending := Extend(t.pending, c.id, PersistedAll(KeptPending(c))))
  }

  lemma TablesSnoc(numbers: map<Key, nat>, cs: seq<UsageCursor>, c: UsageCursor)
    requires Fresh(cs, c.id)
    ensures TablesOf(numbers, cs + [c]) == AddCursor(TablesOf(numbers, cs), c)
  {
    hide OptList, ListMap, MonthMap, Extend, PutMonth, Opt, KeptModel, KeptPending, SortedDays;
    OptListSnoc(PrefixOf(), cs, c);
    OptListSnoc(FileIdOf(), cs, c);
    OptListSnoc(ModelOf(), cs, c);
    ListMapSnoc(SeenOf(), cs, c);
    ListMapSnoc(PendingOf(), cs, c);
    ListMapSnoc(DaysOf(), cs, c);
    MonthMapSnoc(cs, c);
    assert MapCursors(ToBare(), cs + [c]) == MapCursors(ToBare(), cs) + [Bare(c)];
  }

  lemma KeptPersisted(c: UsageCursor)
    requires DistinctKeys(KeptPending(c))
    ensures DistinctKeys(PersistedAll(KeptPending(c)))
  {
  }

  function DayKey(): ContribDay -> u32 {
    (d: ContribDay) => d.day
  }

  lemma SortedDaysDistinct(c: UsageCursor)
    requires DistinctDays(c.contribDays)
    ensures DistinctDays(SortedDays(c))
  {
    assert DistinctOn(DayKey(), c.contribDays);
    SortDistinct(DayOrder(), DayKey(), c.contribDays);
    assert DistinctOn(DayKey(), SortedDays(c));
  }

  function IdKey(): UsageCursor -> Identity {
    (c: UsageCursor) => c.id
  }

  lemma SortedCursorsDistinct(s: UsageState)
    requires DistinctIds(s.cursors)
    ensures DistinctIds(SortedCursors(s))
  {
    assert DistinctOn(IdKey(), s.cursors);
    SortDistinct(CursorOrder(), IdKey(), s.cursors);
    assert DistinctOn(IdKey(), SortedCursors(s));
  }

  /** The list lines of a cursor whose identity is new. */
  lemma FoldLists(t: Tables, c: UsageCursor)
    requires WfCursor(c) && c.id !in t.seen && c.id !in t.pending && c.id !in t.contribs
    ensures Fold(t, SeenLines(c.id, c.seenKeys) + ContribLines(c.id, SortedDays(c)) + PendingLines(c.id, KeptPending(c)))
         == Some(t.(seen := Extend(t.seen, c.id, c.seenKeys),
                    contribs := Extend(t.contribs, c.id, SortedDays(c)),
                    pending := Extend(t.pending, c.id, PersistedAll(KeptPending(c)))))
  {
    hide KeptPending, SortedDays, Fold, Extend, Collect;
    var days, events := SortedDays(c), KeptPending(c);
    SortedDaysDistinct(c);
    KeptPersisted(c);
    assert [] + c.seenKeys == c.seenKeys && [] + days == days && [] + events == events;
    assert [] + PersistedAll(events) == PersistedAll(events);
    var t1 := t.(seen := Extend(t.seen, c.id, c.seenKeys));
    var t2 := t1.(contribs := Extend(t.contribs, c.id, days));
    FoldSeen(t, c.id, c.seenKeys);
    FoldContribs(t1, c.id, days);
    FoldPending(t2, c.id, events);
    FoldAppend(t, SeenLines(c.id, c.seenKeys), ContribLines(c.id, days));
    FoldAppend(t, SeenLines(c.id, c.seenKeys) + ContribLines(c.id, days), PendingLines(c.id, events));
  }

  lemma FoldCursor(t: Tables, c: UsageCursor)
    requires WfCursor(c)
    requires c.id !in t.activeMonths && c.id !in t.seen && c.id !in t.pending && c.id !in t.contribs
    ensures Fold(t, CursorLines(c)) == Some(AddCursor(t, c))
  {
    hide FieldLines, SeenLines, ContribLines, PendingLines, KeptPending, KeptModel, SortedDays, Extend, PutMonth, Opt;
    hide WfCursor, PersistedAll;
    var head := CursorLine(c.id, c.offset, c.size);
    var fields := FieldLines(c);
    var lists := SeenLines(c.id, c.seenKeys) + ContribLines(c.id, SortedDays(c)) + PendingLines(c.id, KeptPending(c));
    var t0 := t.(cursors := t.cursors + [Bare(c)]);
    FoldAtMostOne(t, [head], t0);
    hide Fold, Collect;
    FoldFields(t0, c);
    var t1 := Fold(t0, fields).value;
    FoldLists(t1, c);
    FoldAppend(t, [head], fields);
    FoldAppend(t, [head] + fields, lists);
    assert CursorLines(c) == [head] + fields + lists;
  }

  lemma {:induction false} FoldCursors(numbers: map<Key, nat>, done: seq<UsageCursor>, rest: seq<UsageCursor>)
    requires DistinctIds(done + rest) && forall i :: 0 <= i < |rest| ==> WfCursor(rest[i])
    ensures Fold(TablesOf(numbers, done), AllCursorLines(rest)) == Some(TablesOf(numbers, done + rest))
    decreases |rest|
  {
    hide WfCursor, CursorLines, TablesOf, Fold;
    if rest == [] {
      assert done + rest == done;
      FoldNothing(TablesOf(numbers, done));
    } else {
      var c := rest[0];
      FreshBefore(done, rest);
      TablesFresh(numbers, done, c.id);
      FoldCursor(TablesOf(numbers, done), c);
      TablesSnoc(numbers, done, c);
      FoldAppend(TablesOf(numbers, done), CursorLines(c), AllCursorLines(rest[1..]));
      assert done + rest == done + [c] + rest[1..];
      FoldCursors(numbers, done + [c], rest[1..]);
    }
  }

  lemma FoldNothing(t: Tables)
    ensures Fold(t, []) == Some(t)
  {
  }

  lemma FreshBefore(done: seq<UsageCursor>, rest: seq<UsageCursor>)
    requires DistinctIds(done + rest) && rest != []
    ensures Fresh(done, rest[0].id)
  {
    var all := done + rest;
    assert all[|done|] == rest[0];
    forall i | 0 <= i < |done| ensures done[i].id != rest[0].id {
      assert all[i] == done[i];
    }
  }

  lemma TablesFresh(numbers: map<Key, nat>, cs: seq<UsageCursor>, id: Identity)
    requires Fresh(cs, id)
    ensures var t := TablesOf(numbers, cs);
      id !in t.activeMonths && id !in t.seen && id !in t.pending && id !in t.contribs
  {
    MonthMapKeys(cs, id);
    ListMapKeys(SeenOf(), cs, id);
    ListMapKeys(PendingOf(), cs, id);
    ListMapKeys(DaysOf(), cs, id);
  }
}
