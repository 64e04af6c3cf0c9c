/** The states the collector saves: windows always give decodable cursors, and
    pruning an old month keeps a decodable state decodable. */
module UsageStateLaws {
  import opened Wrappers
  import opened SeqFacts
  import opened Sorting
  import opened UsageTypes
  import opened UsageStateModel
  import opened UsageLineSyntax
  import opened UsageCodec
  import opened UsageCollectLaws
  import D = DedupeModel
  import L = DedupeLaws
  import R = DedupeRuns
  import H = DedupeHistory
  import C = UsageCodecLaws

  // ---- windows -----------------------------------------------------------------

  /** An event as the readers produce it: a real month, and a revision under its
      own key whose day lies in that month. */
  predicate EventOk(op: R.Op) {
    op.DoRemember? ==>
      && IsMonthStart(op.key.month)
      && (op.revision.Some? ==> op.revision.value.key == op.key && op.key.month == MonthOf(op.revision.value.day))
  }

  ghost predicate MonthsOk(w: D.Window) {
    && (forall k :: k in w.order ==> IsMonthStart(k.month))
    && (forall k :: k in w.pending ==> w.pending[k].key.month == MonthOf(w.pending[k].day))
  }

  lemma RememberMonths(w: D.Window, key: UsageDedupeKey, revision: Option<ClaudePendingUsage>, cap: nat)
    requires L.Valid(w) && MonthsOk(w) && EventOk(R.DoRemember(key, revision, cap))
    ensures MonthsOk(D.Remember(w, key, revision, cap))
  {
    hide D.Remember, Last, L.Valid, Filter;
    L.RememberIs(w, key, revision, cap);
    L.LastMembers(L.MoveToBack(w.order, key), cap);
    FilterMembers(D.ButKey(key), w.order);
    RevisedMonths(w.pending, key, revision);
  }

  lemma RevisedMonths(pending: map<UsageDedupeKey, ClaudePendingUsage>, key: UsageDedupeKey,
                      revision: Option<ClaudePendingUsage>)
    requires forall k :: k in pending ==> pending[k].key.month == MonthOf(pending[k].day)
    requires revision.Some? ==> revision.value.key.month == MonthOf(revision.value.day)
    ensures var m := L.Revise(pending, key, revision);
      forall k :: k in m ==> m[k].key.month == MonthOf(m[k].day)
  {
    hide MonthOf;
  }

  lemma RetainMonths(w: D.Window, month: u32)
    requires L.Valid(w) && MonthsOk(w)
    ensures MonthsOk(D.RetainMonth(w, month))
  {
    hide D.RetainMonth;
    R.RetainIs(w, month);
    FilterMembers(D.NotBefore(month), w.order);
    hide L.Valid;
  }

  lemma ApplyMonths(w: D.Window, op: R.Op)
    requires L.Valid(w) && MonthsOk(w) && EventOk(op)
    ensures MonthsOk(R.Apply(w, op))
  {
    hide D.Remember, D.RetainMonth, L.Valid;
    match op {
      case DoRemember(key, revision, cap) => RememberMonths(w, key, revision, cap);
      case DoRetain(month) => RetainMonths(w, month);
      case DoClear =>
    }
  }

  lemma {:induction false} ApplyAllMonths(w: D.Window, ops: seq<R.Op>)
    requires L.Valid(w) && MonthsOk(w) && forall i :: 0 <= i < |ops| ==> EventOk(ops[i])
    ensures MonthsOk(R.ApplyAll(w, ops))
    decreases |ops|
  {
    hide EventOk, R.Apply;
    if ops != [] {
      ApplyMonths(w, ops[0]);
      R.ApplyValid(w, ops[0]);
      ApplyAllMonths(R.Apply(w, ops[0]), ops[1..]);
    }
  }

  /** A cursor that stores what a window of its kind saves. */
  function WindowCursor(c: UsageCursor, w: D.Window): UsageCursor {
    c.(seenKeys := D.SeenKeys(w), claudePending := D.PendingValues(w))
  }

  lemma {:induction false} FilterKeepsDistinctKeys(events: seq<ClaudePendingUsage>, p: ClaudePendingUsage -> bool)
    requires DistinctKeys(events)
    ensures DistinctKeys(Filter(p, events)) && |Filter(p, events)| <= |events|
    decreases |events|
  {
    if events != [] {
      FilterKeepsDistinctKeys(events[1..], p);
      FilterMembers(p, events[1..]);
      var rest := Filter(p, events[1..]);
      forall j | 0 <= j < |rest| ensures rest[j].key != events[0].key {
        assert rest[j] in events[1..];
      }
    }
  }

  lemma {:induction false} AddPendingFrom(w: D.Window, events: seq<ClaudePendingUsage>)
    ensures var t := D.AddPending(w, events);
      forall k :: k in t.pending ==> (k in w.pending && t.pending[k] == w.pending[k]) || t.pending[k] in events
    decreases |events|
  {
    if events != [] {
      var key := events[0].key;
      AddPendingFrom(if key in w.recent && key !in w.pending then w.(pending := w.pending[key := events[0]]) else w,
                     events[1..]);
      assert events == [events[0]] + events[1..];
    }
  }

  /** The window a decodable cursor opens. */
  function Opened(c: UsageCursor): D.Window {
    D.FromParts(c.seenKeys, KeptPending(c))
  }

  lemma OpenedOk(c: UsageCursor)
    requires WfCursor(c)
    ensures var w := Opened(c);
      L.Valid(w) && L.Keyed(w) && MonthsOk(w) && w.order == c.seenKeys && |w.order| <= SeenCap(c.id.kind)
  {
    hide KeptPending, IsMonthStart;
    var events := KeptPending(c);
    R.FromPartsValid(c.seenKeys, events);
    assert D.EMPTY.order + c.seenKeys == c.seenKeys;
    R.AddKeysFresh(D.EMPTY, c.seenKeys);
    var w0 := D.AddKeys(D.EMPTY, c.seenKeys).(recent := Last(c.seenKeys, PENDING_CAP_CLAUDE));
    AddPendingFrom(w0, events);
    R.AddKeysValid(D.EMPTY, c.seenKeys);
    R.AddPendingValid(w0, events);
  }

  /** Every window of every file, opened from a decodable cursor and whatever
      happened to it since, saves lists the decoder accepts. */
  lemma WindowsSaveCleanly(c: UsageCursor, ops: seq<R.Op>)
    requires WfCursor(c)
    requires forall i :: 0 <= i < |ops| ==> EventOk(ops[i]) && (ops[i].DoRemember? ==> ops[i].cap == SeenCap(c.id.kind))
    ensures WfCursor(WindowCursor(c, R.ApplyAll(Opened(c), ops)))
  {
    var w0 := Opened(c);
    OpenedOk(c);
    assert forall i :: 0 <= i < |ops| ==> R.KeyedOp(ops[i]);
    hide WfCursor, Opened, R.ApplyAll, H.SavedListsOk, L.Valid, L.Keyed, EventOk, R.KeyedOp;
    H.SavesCleanly(w0, ops, SeenCap(c.id.kind));
    R.ApplyAllValid(w0, ops);
    ApplyAllMonths(w0, ops);
    SavedWindowWf(c, R.ApplyAll(w0, ops));
  }

  /** A window whose lists are saved cleanly makes a decodable cursor. */
  lemma SavedWindowWf(c: UsageCursor, w: D.Window)
    requires WfCursor(c) && L.Valid(w) && L.Keyed(w) && MonthsOk(w)
    requires H.SavedListsOk(D.SeenKeys(w), D.PendingValues(w), SeenCap(c.id.kind))
    ensures WfCursor(WindowCursor(c, w))
  {
    SavedEvents(w);
    var k := WindowCursor(c, w);
    hide D.PendingValues, L.Valid, L.Keyed, Last, Filter;
    FilterKeepsDistinctKeys(k.claudePending, SafeEvent());
    KeptConsistent(k);
  }

  lemma KeptConsistent(c: UsageCursor)
    requires PendingConsistent(c.seenKeys, c.claudePending)
    ensures PendingConsistent(c.seenKeys, KeptPending(c))
  {
    hide Last, KeptPending;
    KeptAmong(c);
    forall i | 0 <= i < |KeptPending(c)|
      ensures KeptPending(c)[i].key in Last(c.seenKeys, PENDING_CAP_CLAUDE)
      ensures KeptPending(c)[i].key.month == MonthOf(KeptPending(c)[i].day)
    {
      var j :| 0 <= j < |c.claudePending| && c.claudePending[j] == KeptPending(c)[i];
    }
  }

  lemma SavedEvents(w: D.Window)
    requires L.Valid(w) && L.Keyed(w) && MonthsOk(w)
    ensures forall i :: 0 <= i < |D.PendingValues(w)| ==>
              D.PendingValues(w)[i].key.month == MonthOf(D.PendingValues(w)[i].day)
  {
    L.DistinctSuffix(w.recent, w.order);
    H.ValuesKeys(w.recent, w.pending);
  }

  lemma KeptAmong(c: UsageCursor)
    ensures forall i :: 0 <= i < |KeptPending(c)| ==> KeptPending(c)[i] in c.claudePending
  {
    FilterMembers(SafeEvent(), c.claudePending);
    var kept := KeptPending(c);
    forall i | 0 <= i < |kept| ensures kept[i] in c.claudePending {
      if c.id.kind == Claude {
        assert kept[i] in Filter(SafeEvent(), c.claudePending);
      }
    }
  }

  // ---- pruning -----------------------------------------------------------------

  function DayNotBefore(month: u32): ContribDay -> bool {
    (d: ContribDay) => d.day >= month
  }

  function PruneCursor(c: UsageCursor, month: u32): UsageCursor {
    c.(seenKeys := Filter(D.NotBefore(month), c.seenKeys),
       claudePending := Filter(H.EventNotBefore(month), c.claudePending),
       contribDays := Filter(DayNotBefore(month), c.contribDays))
  }

  function ToPruned(month: u32): UsageCursor -> UsageCursor {
    (c: UsageCursor) => PruneCursor(c, month)
  }

  /** `prune_event_keys_before_month` as it runs. */
  method Prune(s: UsageState, month: u32) returns (t: UsageState)
    ensures t == s.(cursors := MapCursors(ToPruned(month), s.cursors))
    ensures WfState(s) ==> WfState(t)
  {
    var cursors := s.cursors;
    var i := 0;
    while i < |cursors|
      invariant 0 <= i <= |cursors| == |s.cursors|
      invariant forall j :: 0 <= j < i ==> cursors[j] == PruneCursor(s.cursors[j], month)
      invariant forall j :: i <= j < |cursors| ==> cursors[j] == s.cursors[j]
    {
      var c := cursors[i];
      c := c.(seenKeys := Filter(D.NotBefore(month), c.seenKeys));
      c := c.(claudePending := Filter(H.EventNotBefore(month), c.claudePending));
      c := c.(contribDays := Filter(DayNotBefore(month), c.contribDays));
      cursors := cursors[i := c];
      i := i + 1;
    }
    t := s.(cursors := cursors);
    if WfState(s) {
      PruneKeepsWf(s, month);
    }
  }

  lemma {:induction false} FilterCommutes<T>(p: T -> bool, q: T -> bool, s: seq<T>)
    ensures Filter(p, Filter(q, s)) == Filter(q, Filter(p, s))
    decreases |s|
  {
    if s != [] {
      FilterCommutes(p, q, s[1..]);
      var x := [s[0]];
      assert x[1..] == [];
      FilterAppend(p, Filter(q, x), Filter(q, s[1..]));
      FilterAppend(q, Filter(p, x), Filter(p, s[1..]));
      FilterAppend(p, x, s[1..]);
      FilterAppend(q, x, s[1..]);
      assert s == x + s[1..];
    }
  }

  /** A newest key that survives is still among the newest. */
  lemma NewestSurvives(keys: seq<UsageDedupeKey>, month: u32, k: UsageDedupeKey, n: nat)
    requires k in Last(keys, n) && k.month >= month
    ensures k in Last(Filter(D.NotBefore(month), keys), n)
  {
    var p := D.NotBefore(month);
    var last := Last(keys, n);
    assert IsSuffix(last, keys);
    FilterSuffix(p, last, keys);
    FilterMembers(p, last);
    assert k in Filter(p, last);
    var a, b := Filter(p, last), Filter(p, keys);
    assert |a| <= n;
    var i :| 0 <= i < |a| && a[i] == k;
    assert b[|b| - |a| + i] == k;
    assert |b| <= n || Last(b, n)[|b| - |a| + i - (|b| - n)] == k;
  }

  lemma PruneKeptPending(c: UsageCursor, month: u32)
    ensures KeptPending(PruneCursor(c, month)) == Filter(H.EventNotBefore(month), KeptPending(c))
  {
    if c.id.kind == Claude {
      FilterCommutes(SafeEvent(), H.EventNotBefore(month), c.claudePending);
    }
  }

  lemma {:induction false} FilterKeepsDistinctDays(days: seq<ContribDay>, p: ContribDay -> bool)
    requires DistinctDays(days)
    ensures DistinctDays(Filter(p, days))
    decreases |days|
  {
    if days != [] {
      FilterKeepsDistinctDays(days[1..], p);
      FilterMembers(p, days[1..]);
      var rest := Filter(p, days[1..]);
      forall j | 0 <= j < |rest| ensures rest[j].day != days[0].day {
        assert rest[j] in days[1..];
      }
    }
  }

  lemma PrunedPendingConsistent(keys: seq<UsageDedupeKey>, events: seq<ClaudePendingUsage>, month: u32)
    requires PendingConsistent(keys, events)
    ensures PendingConsistent(Filter(D.NotBefore(month), keys), Filter(H.EventNotBefore(month), events))
  {
    var pruned := Filter(H.EventNotBefore(month), events);
    FilterMembers(H.EventNotBefore(month), events);
    forall i | 0 <= i < |pruned|
      ensures pruned[i].key in Last(Filter(D.NotBefore(month), keys), PENDING_CAP_CLAUDE)
      ensures pruned[i].key.month == MonthOf(pruned[i].day)
    {
      assert pruned[i] in pruned;
      assert pruned[i] in events && H.EventNotBefore(month)(pruned[i]);
      var j :| 0 <= j < |events| && events[j] == pruned[i];
      NewestSurvives(keys, month, pruned[i].key, PENDING_CAP_CLAUDE);
    }
  }

  lemma PruneCursorWf(c: UsageCursor, month: u32)
    requires WfCursor(c)
    ensures WfCursor(PruneCursor(c, month))
  {
    hide KeptPending, IsMonthStart, PendingConsistent;
    var p := PruneCursor(c, month);
    PruneKeptPending(c, month);
    FilterDistinct(D.NotBefore(month), c.seenKeys);
    FilterMembers(D.NotBefore(month), c.seenKeys);
    forall i | 0 <= i < |p.seenKeys| ensures IsMonthStart(p.seenKeys[i].month) {
      assert p.seenKeys[i] in c.seenKeys;
    }
    FilterKeepsDistinctDays(c.contribDays, DayNotBefore(month));
    FilterKeepsDistinctKeys(KeptPending(c), H.EventNotBefore(month));
    PrunedPendingConsistent(c.seenKeys, KeptPending(c), month);
  }

  /** A month rollover never makes a decodable state undecodable. */
  lemma PruneKeepsWf(s: UsageState, month: u32)
    requires WfState(s)
    ensures WfState(s.(cursors := MapCursors(ToPruned(month), s.cursors)))
  {
    hide WfCursor, Acceptable;
    var t := s.(cursors := MapCursors(ToPruned(month), s.cursors));
    forall i | 0 <= i < |t.cursors| ensures WfCursor(t.cursors[i]) && t.cursors[i].id == s.cursors[i].id {
      PruneCursorWf(s.cursors[i], month);
    }
    AcceptableIgnoresCursors(s, t);
  }

  lemma AcceptableIgnoresCursors(s: UsageState, t: UsageState)
    requires Acceptable(s) && t.schemaVersion == s.schemaVersion && t.aggregate == s.aggregate
    ensures Acceptable(t)
  {
  }

  /** Pruning a saved cursor by month and then opening its window is opening the
      window and then dropping the earlier months, for everything that follows. */
  lemma PrunedCursorReopens(c: UsageCursor, w: D.Window, month: u32, ops: seq<R.Op>)
    requires L.Valid(w) && L.Keyed(w)
    ensures var saved := WindowCursor(c, w);
      var pruned := PruneCursor(saved, month);
      R.Indistinguishable(R.ApplyAll(D.FromParts(pruned.seenKeys, pruned.claudePending), ops),
                          R.ApplyAll(D.RetainMonth(D.FromParts(saved.seenKeys, saved.claudePending), month), ops))
  {
    H.PruneCommutes(w, month, ops);
  }
}
