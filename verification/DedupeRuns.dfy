/** Windows over whole histories: restoring a saved window, and the exact content
    of a window after any sequence of events. */
module DedupeRuns {
  import opened Wrappers
  import opened SeqFacts
  import opened UsageTypes
  import opened DedupeModel
  import opened DedupeLaws

  datatype Op =
    | DoRemember(key: UsageDedupeKey, revision: Option<ClaudePendingUsage>, cap: nat)
    | DoRetain(month: u32)
    | DoClear

  /** A revision is remembered under its own key. */
  predicate KeyedOp(op: Op) {
    op.DoRemember? && op.revision.Some? ==> op.revision.value.key == op.key
  }

  function Apply(w: Window, op: Op): Window {
    match op
    case DoRemember(key, revision, cap) => Remember(w, key, revision, cap)
    case DoRetain(month) => RetainMonth(w, month)
    case DoClear => ClearPending(w)
  }

  function ApplyAll(w: Window, ops: seq<Op>): Window
    decreases |ops|
  {
    if ops == [] then w else ApplyAll(Apply(w, ops[0]), ops[1..])
  }

  lemma RetainedOrder(w: Window, month: u32)
    requires Distinct(w.order) && w.seen == ToSet(w.order)
    ensures var t := RetainMonth(w, month); Distinct(t.order) && t.seen == ToSet(t.order)
  {
    FilterMembers(NotBefore(month), w.order);
    FilterDistinct(NotBefore(month), w.order);
  }

  lemma RetainedRecent(w: Window, month: u32)
    requires w.seen == ToSet(w.order) && IsSuffix(w.recent, w.order)
    ensures var t := RetainMonth(w, month);
      && IsSuffix(t.recent, t.order) && |t.recent| <= |w.recent|
      && forall k :: k in t.recent <==> k in w.recent && k.month >= month
  {
    var keep := KeptRecent(month, set k | k in w.seen && k.month >= month);
    FilterSame(NotBefore(month), keep, w.order);
    FilterSuffix(keep, w.recent, w.order);
    FilterMembers(keep, w.recent);
  }

  /** What `retain_month` does, told without the recent queue. */
  lemma RetainIs(w: Window, month: u32)
    requires Valid(w)
    ensures var t := RetainMonth(w, month);
      && Valid(t)
      && t.order == Filter(NotBefore(month), w.order)
      && t.pending == map k | k in w.pending && k.month >= month :: w.pending[k]
  {
    RetainedOrder(w, month);
    RetainedRecent(w, month);
    var t := RetainMonth(w, month);
    assert forall k :: k in w.pending ==> k in w.recent;
    assert t.pending.Keys <= ToSet(t.recent);
  }

  lemma ApplyValid(w: Window, op: Op)
    requires Valid(w)
    ensures Valid(Apply(w, op))
  {
    match op {
      case DoRemember(key, revision, cap) => RememberIs(w, key, revision, cap);
      case DoRetain(month) => RetainIs(w, month);
      case DoClear =>
    }
  }

  lemma ApplyKeyed(w: Window, op: Op)
    requires Valid(w) && Keyed(w) && KeyedOp(op)
    ensures Keyed(Apply(w, op))
  {
    match op {
      case DoRemember(key, revision, cap) => RememberIs(w, key, revision, cap);
      case DoRetain(month) => RetainIs(w, month);
      case DoClear =>
    }
  }

  /** Same order and same pending events; the recent queues may differ. */
  ghost predicate Same(v: Window, w: Window) {
    Valid(v) && Valid(w) && v.order == w.order && v.pending == w.pending
  }

  /** Everything the window's readers can ask. */
  ghost predicate Indistinguishable(v: Window, w: Window) {
    && (forall k :: Contains(v, k) == Contains(w, k))
    && (forall k :: Pending(v, k) == Pending(w, k))
    && SeenKeys(v) == SeenKeys(w)
    && PendingValues(v) == PendingValues(w)
  }

  lemma {:induction false} ValuesAppend(a: seq<UsageDedupeKey>, b: seq<UsageDedupeKey>,
                                        m: map<UsageDedupeKey, ClaudePendingUsage>)
    ensures ValuesAlong(a + b, m) == ValuesAlong(a, m) + ValuesAlong(b, m)
    decreases |a|
  {
    if a == [] {
      assert a + b == b;
    } else {
      assert (a + b)[1..] == a[1..] + b;
      ValuesAppend(a[1..], b, m);
    }
  }

  lemma {:induction false} ValuesNone(a: seq<UsageDedupeKey>, m: map<UsageDedupeKey, ClaudePendingUsage>)
    requires forall k :: k in a ==> k !in m
    ensures ValuesAlong(a, m) == []
    decreases |a|
  {
    if a != [] {
      ValuesNone(a[1..], m);
    }
  }

  /** The pending list follows the order, wherever the recent queue starts. */
  lemma PendingAlongOrder(w: Window)
    requires Valid(w)
    ensures PendingValues(w) == ValuesAlong(w.order, w.pending)
  {
    var n := |w.order| - |w.recent|;
    var older := w.order[..n];
    assert w.order == older + w.recent;
    ValuesAppend(older, w.recent, w.pending);
    DistinctParts(older, w.recent);
    ValuesNone(older, w.pending);
  }

  lemma DistinctParts<T>(a: seq<T>, b: seq<T>)
    requires Distinct(a + b)
    ensures forall x :: x in a ==> x !in b
  {
    forall x | x in a ensures x !in b {
      var i :| 0 <= i < |a| && a[i] == x;
      forall j | 0 <= j < |b| ensures b[j] != x {
        assert (a + b)[i] != (a + b)[|a| + j];
      }
    }
  }

  lemma SameIndistinguishable(v: Window, w: Window)
    requires Same(v, w)
    ensures Indistinguishable(v, w)
  {
    PendingAlongOrder(v);
    PendingAlongOrder(w);
  }

  lemma ApplySame(v: Window, w: Window, op: Op)
    requires Same(v, w)
    ensures Same(Apply(v, op), Apply(w, op))
  {
    match op {
      case DoRemember(key, revision, cap) =>
        RememberIs(v, key, revision, cap);
        RememberIs(w, key, revision, cap);
      case DoRetain(month) =>
        RetainIs(v, month);
        RetainIs(w, month);
      case DoClear =>
    }
  }

  lemma {:induction false} ApplyAllSame(v: Window, w: Window, ops: seq<Op>)
    requires Same(v, w)
    ensures Same(ApplyAll(v, ops), ApplyAll(w, ops))
    decreases |ops|
  {
    if ops != [] {
      ApplySame(v, w, ops[0]);
      ApplyAllSame(Apply(v, ops[0]), Apply(w, ops[0]), ops[1..]);
    }
  }

  // ---- save and restore ------------------------------------------------------

  lemma {:induction false} AddKeysValid(w: Window, keys: seq<UsageDedupeKey>)
    requires Distinct(w.order) && w.seen == ToSet(w.order)
    ensures var t := AddKeys(w, keys);
      Distinct(t.order) && t.seen == ToSet(t.order) && t.recent == w.recent && t.pending == w.pending
    decreases |keys|
  {
    if keys != [] {
      if keys[0] in w.seen {
        AddKeysValid(w, keys[1..]);
      } else {
        assert keys[0] !in w.order;
        DistinctSnoc(w.order, keys[0]);
        AddKeysValid(w.(order := w.order + [keys[0]], seen := w.seen + {keys[0]}), keys[1..]);
      }
    }
  }

  lemma {:induction false} AddKeysFresh(w: Window, keys: seq<UsageDedupeKey>)
    requires Distinct(w.order + keys) && w.seen == ToSet(w.order)
    ensures AddKeys(w, keys) == w.(order := w.order + keys, seen := ToSet(w.order + keys))
    decreases |keys|
  {
    if keys == [] {
      assert w.order + keys == w.order;
    } else {
      var k := keys[0];
      assert (w.order + keys)[|w.order|] == k;
      DistinctParts(w.order, keys);
      assert w.order + keys == (w.order + [k]) + keys[1..];
      AddKeysFresh(w.(order := w.order + [k], seen := w.seen + {k}), keys[1..]);
    }
  }

  lemma {:induction false} AddPendingValid(w: Window, events: seq<ClaudePendingUsage>)
    requires Valid(w) && Keyed(w)
    ensures var t := AddPending(w, events); Valid(t) && Keyed(t) && t == w.(pending := t.pending)
    decreases |events|
  {
    if events != [] {
      var key := events[0].key;
      AddPendingValid(if key in w.recent && key !in w.pending then w.(pending := w.pending[key := events[0]]) else w,
                      events[1..]);
    }
  }

  /** Any two lists restore to a consistent window. */
  lemma FromPartsValid(keys: seq<UsageDedupeKey>, events: seq<ClaudePendingUsage>)
    ensures Valid(FromParts(keys, events)) && Keyed(FromParts(keys, events))
  {
    AddKeysValid(EMPTY, keys);
    var w := AddKeys(EMPTY, keys);
    AddPendingValid(w.(recent := Last(w.order, PENDING_CAP_CLAUDE)), events);
  }

  lemma RestrictCons(m: map<UsageDedupeKey, ClaudePendingUsage>, keys: seq<UsageDedupeKey>)
    requires Distinct(keys) && keys != []
    ensures Restrict(m, keys) ==
      if keys[0] in m then Restrict(m, keys[1..])[keys[0] := m[keys[0]]] else Restrict(m, keys[1..])
  {
    DistinctTail(keys);
    assert keys == [keys[0]] + keys[1..];
  }

  lemma MergeUpdate(m: map<UsageDedupeKey, ClaudePendingUsage>, k: UsageDedupeKey, v: ClaudePendingUsage,
                    r: map<UsageDedupeKey, ClaudePendingUsage>)
    requires k !in r
    ensures m[k := v] + r == m + r[k := v]
  {
  }

  /** The events of a pending map listed along `keys` rebuild the map. */
  lemma {:induction false} AddPendingRebuilds(w: Window, keys: seq<UsageDedupeKey>,
                                              m: map<UsageDedupeKey, ClaudePendingUsage>)
    requires Distinct(keys) && (forall k :: k in keys ==> k in w.recent && k !in w.pending)
    requires forall k :: k in m ==> m[k].key == k
    ensures AddPending(w, ValuesAlong(keys, m)) == w.(pending := w.pending + Restrict(m, keys))
    decreases |keys|
  {
    var rest := ValuesAlong(keys[if keys == [] then 0 else 1..], m);
    if keys == [] {
      assert w.pending + Restrict(m, keys) == w.pending;
    } else {
      DistinctTail(keys);
      RestrictCons(m, keys);
      var k := keys[0];
      if k in m {
        assert ([m[k]] + rest)[1..] == rest;
        AddPendingRebuilds(w.(pending := w.pending[k := m[k]]), keys[1..], m);
        MergeUpdate(w.pending, k, m[k], Restrict(m, keys[1..]));
      } else {
        assert [] + rest == rest;
        AddPendingRebuilds(w, keys[1..], m);
      }
    }
  }

  lemma RestoredKeys(w: Window)
    requires Distinct(w.order) && w.seen == ToSet(w.order)
    ensures AddKeys(EMPTY, w.order) == Window(w.order, w.seen, [], map[])
  {
    assert EMPTY.order + w.order == w.order;
    AddKeysFresh(EMPTY, w.order);
  }

  lemma RestrictWhole(m: map<UsageDedupeKey, ClaudePendingUsage>, keys: seq<UsageDedupeKey>)
    requires m.Keys <= ToSet(keys)
    ensures Restrict(m, keys) == m && map[] + m == m
  {
  }

  lemma RestoredPending(v: Window, keys: seq<UsageDedupeKey>, m: map<UsageDedupeKey, ClaudePendingUsage>)
    requires Distinct(keys) && m.Keys <= ToSet(keys) && v.pending == map[]
    requires forall k :: k in keys ==> k in v.recent
    requires forall k :: k in m ==> m[k].key == k
    ensures AddPending(v, ValuesAlong(keys, m)) == v.(pending := m)
  {
    AddPendingRebuilds(v, keys, m);
    RestrictWhole(m, keys);
  }

  /** Restoring what was saved gives the same window up to the recent queue. */
  lemma RestoreSame(w: Window)
    requires Valid(w) && Keyed(w)
    ensures Same(FromParts(SeenKeys(w), PendingValues(w)), w)
  {
    FromPartsValid(SeenKeys(w), PendingValues(w));
    RestoredKeys(w);
    RecentWithinLast(w);
    DistinctSuffix(w.recent, w.order);
    RestoredPending(Window(w.order, w.seen, Last(w.order, PENDING_CAP_CLAUDE), map[]), w.recent, w.pending);
  }

  lemma RecentWithinLast(w: Window)
    requires Valid(w)
    ensures forall k :: k in w.recent ==> k in Last(w.order, PENDING_CAP_CLAUDE)
  {
    assert IsSuffix(w.recent, Last(w.order, PENDING_CAP_CLAUDE));
  }

  /** Saving and restoring a window in the middle of its life cannot be observed,
      whatever is done with it afterwards. */
  lemma RestoreInvisible(w: Window, ops: seq<Op>)
    requires Valid(w) && Keyed(w)
    ensures Indistinguishable(ApplyAll(FromParts(SeenKeys(w), PendingValues(w)), ops), ApplyAll(w, ops))
  {
    RestoreSame(w);
    ApplyAllSame(FromParts(SeenKeys(w), PendingValues(w)), w, ops);
    SameIndistinguishable(ApplyAll(FromParts(SeenKeys(w), PendingValues(w)), ops), ApplyAll(w, ops));
  }

  /** The windows the program can have: restored from any lists, then operated on. */
  lemma {:induction false} ReachableValid(keys: seq<UsageDedupeKey>, events: seq<ClaudePendingUsage>, ops: seq<Op>)
    requires forall i :: 0 <= i < |ops| ==> KeyedOp(ops[i])
    ensures var w := ApplyAll(FromParts(keys, events), ops); Valid(w) && Keyed(w)
  {
    FromPartsValid(keys, events);
    ApplyAllValid(FromParts(keys, events), ops);
  }

  lemma {:induction false} ApplyAllValid(w: Window, ops: seq<Op>)
    requires Valid(w) && Keyed(w) && forall i :: 0 <= i < |ops| ==> KeyedOp(ops[i])
    ensures Valid(ApplyAll(w, ops)) && Keyed(ApplyAll(w, ops))
    decreases |ops|
  {
    if ops != [] {
      ApplyValid(w, ops[0]);
      ApplyKeyed(w, ops[0]);
      ApplyAllValid(Apply(w, ops[0]), ops[1..]);
    }
  }
}
