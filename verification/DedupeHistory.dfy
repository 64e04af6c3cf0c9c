/** The window against its whole history, and the lists it saves. */
module DedupeHistory {
  import opened Wrappers
  import opened SeqFacts
  import opened UsageTypes
  import opened DedupeModel
  import opened DedupeLaws
  import opened DedupeRuns

  /** One ingested event. */
  datatype Ingest = Ingest(key: UsageDedupeKey, revision: Option<ClaudePendingUsage>)

  function Replay(history: seq<Ingest>, cap: nat): Window
    decreases |history|
  {
    if history == [] then EMPTY
    else
      var e := history[|history| - 1];
      Remember(Replay(history[..|history| - 1], cap), e.key, e.revision, cap)
  }

  /** All keys ever remembered, by their last occurrence. */
  function ByLastUse(history: seq<Ingest>): seq<UsageDedupeKey>
    decreases |history|
  {
    if history == [] then []
    else MoveToBack(ByLastUse(history[..|history| - 1]), history[|history| - 1].key)
  }

  /** The keys remembered after the last occurrence of `k`. */
  function UsedSince(history: seq<Ingest>, k: UsageDedupeKey): set<UsageDedupeKey>
    decreases |history|
  {
    if history == [] || history[|history| - 1].key == k then {}
    else UsedSince(history[..|history| - 1], k) + {history[|history| - 1].key}
  }

  predicate Occurs(history: seq<Ingest>, k: UsageDedupeKey) {
    exists i :: 0 <= i < |history| && history[i].key == k
  }

  /** The revision carried by the last occurrence of `k`. */
  function LastRevision(history: seq<Ingest>, k: UsageDedupeKey): Option<ClaudePendingUsage>
    decreases |history|
  {
    if history == [] then None
    else if history[|history| - 1].key == k then history[|history| - 1].revision
    else LastRevision(history[..|history| - 1], k)
  }

  // ---- the order is the newest part of the history -----------------------------

  lemma {:induction false} ByLastUseDistinct(history: seq<Ingest>)
    ensures Distinct(ByLastUse(history))
    ensures forall k :: k in ByLastUse(history) <==> Occurs(history, k)
    decreases |history|
  {
    if history != [] {
      var n := |history| - 1;
      ByLastUseDistinct(history[..n]);
      MoveToBackDistinct(ByLastUse(history[..n]), history[n].key);
      forall k ensures k in ByLastUse(history) <==> Occurs(history, k) {
        OccursSnoc(history, k);
        assert k in ByLastUse(history) <==> k in ToSet(ByLastUse(history));
        assert k in ByLastUse(history[..n]) <==> k in ToSet(ByLastUse(history[..n]));
      }
    }
  }

  lemma OccursSnoc(history: seq<Ingest>, k: UsageDedupeKey)
    requires history != []
    ensures Occurs(history, k) <==> Occurs(history[..|history| - 1], k) || history[|history| - 1].key == k
  {
    var n := |history| - 1;
    if Occurs(history, k) {
      var i :| 0 <= i < |history| && history[i].key == k;
      assert i == n || history[..n][i].key == k;
    }
    if Occurs(history[..n], k) {
      var i :| 0 <= i < n && history[..n][i].key == k;
      assert history[i].key == k;
    }
  }

  /** Keys already pushed out of the newest `n` never matter again. */
  lemma MoveForgotten(s: seq<UsageDedupeKey>, key: UsageDedupeKey, n: nat)
    requires Distinct(s)
    ensures Last(MoveToBack(Last(s, n), key), n) == Last(MoveToBack(s, key), n)
  {
    if |s| > n {
      var a, b := s[..|s| - n], s[|s| - n..];
      assert s == a + b;
      FilterAppend(ButKey(key), a, b);
      assert MoveToBack(s, key) == Without(a, key) + MoveToBack(b, key);
      WithoutLength(b, key);
    }
  }

  lemma {:induction false} WithoutLength(s: seq<UsageDedupeKey>, key: UsageDedupeKey)
    requires Distinct(s)
    ensures |Without(s, key)| >= |s| - 1
    decreases |s|
  {
    if s != [] {
      DistinctTail(s);
      if s[0] == key {
        WithoutAbsent(s[1..], key);
      } else {
        WithoutLength(s[1..], key);
      }
    }
  }

  lemma {:induction false} ReplayOrder(history: seq<Ingest>, cap: nat)
    ensures var w := Replay(history, cap); Valid(w) && w.order == Last(ByLastUse(history), cap)
    decreases |history|
  {
    if history != [] {
      var n := |history| - 1;
      var e := history[n];
      ReplayOrder(history[..n], cap);
      RememberIs(Replay(history[..n], cap), e.key, e.revision, cap);
      ByLastUseDistinct(history[..n]);
      MoveForgotten(ByLastUse(history[..n]), e.key, cap);
    }
  }

  // ---- position and recency ------------------------------------------------------

  /** Where another key was before a move, and what follows it after the move. */
  lemma BeforeMove(before: seq<UsageDedupeKey>, key: UsageDedupeKey, i: nat) returns (j: nat)
    requires Distinct(before) && i < |Without(before, key)|
    ensures var s := MoveToBack(before, key);
      && j < |before| && before[j] == s[i]
      && ToSet(s[i + 1..]) == ToSet(before[j + 1..]) + {key}
      && s[i] != key
  {
    var s, kept := MoveToBack(before, key), Without(before, key);
    FilterMembers(ButKey(key), before);
    assert kept[i] in before;
    j :| 0 <= j < |before| && before[j] == kept[i];
    WithoutTail(before, key, j, i);
    assert s[i + 1..] == kept[i + 1..] + [key];
    FilterMembers(ButKey(key), before[j + 1..]);
  }

  /** The keys after `k` in the order of last use are those used since. */
  lemma {:induction false} AfterIsUsedSince(history: seq<Ingest>, i: nat)
    requires i < |ByLastUse(history)|
    ensures var s := ByLastUse(history); ToSet(s[i + 1..]) == UsedSince(history, s[i])
    decreases |history|
  {
    var n := |history| - 1;
    var before, key := ByLastUse(history[..n]), history[n].key;
    var s := ByLastUse(history);
    if i == |s| - 1 {
      assert s[i] == key && s[i + 1..] == [];
    } else {
      ByLastUseDistinct(history[..n]);
      var j := BeforeMove(before, key, i);
      AfterIsUsedSince(history[..n], j);
    }
  }

  /** Removing a key keeps what follows another key, less the removed one. */
  lemma WithoutTail(s: seq<UsageDedupeKey>, key: UsageDedupeKey, j: nat, i: nat)
    requires Distinct(s) && j < |s| && s[j] != key
    requires i < |Without(s, key)| && Without(s, key)[i] == s[j]
    ensures Without(s, key)[i + 1..] == Without(s[j + 1..], key)
  {
    var a, b := s[..j], s[j + 1..];
    assert s == a + ([s[j]] + b);
    FilterAppend(ButKey(key), a, [s[j]] + b);
    assert Without([s[j]] + b, key) == [s[j]] + Without(b, key) by {
      assert ([s[j]] + b)[1..] == b;
    }
    var f := Without(s, key);
    var p := |Without(a, key)|;
    assert f == Without(a, key) + ([s[j]] + Without(b, key));
    assert f[p] == s[j];
    FilterDistinct(ButKey(key), s);
    assert i == p;
  }

  /** A key is among the newest `n` exactly when fewer than `n` others were used since. */
  lemma NewestExactly(history: seq<Ingest>, k: UsageDedupeKey, n: nat)
    ensures k in Last(ByLastUse(history), n) <==> Occurs(history, k) && |UsedSince(history, k)| < n
  {
    var s := ByLastUse(history);
    ByLastUseDistinct(history);
    LastMembers(s, n);
    if Occurs(history, k) {
      var i :| 0 <= i < |s| && s[i] == k;
      AfterIsUsedSince(history, i);
      assert IsSuffix(s[i + 1..], s);
      DistinctSuffix(s[i + 1..], s);
      DistinctSize(s[i + 1..]);
      assert |UsedSince(history, k)| == |s| - 1 - i;
      InLastAt(s, i, n);
    }
  }

  lemma InLastAt(s: seq<UsageDedupeKey>, i: nat, n: nat)
    requires Distinct(s) && i < |s|
    ensures s[i] in Last(s, n) <==> |s| - i <= n
  {
    if |s| - i <= n && |s| > n {
      assert Last(s, n)[i - (|s| - n)] == s[i];
    }
  }

  lemma SameNewest(order: seq<UsageDedupeKey>, s: seq<UsageDedupeKey>, key: UsageDedupeKey, cap: nat, c: nat)
    requires Distinct(s) && order == Last(s, cap) && c <= cap
    ensures Last(MoveToBack(order, key), c) == Last(MoveToBack(s, key), c)
  {
    MoveForgotten(s, key, cap);
    LastLast(MoveToBack(order, key), cap, c);
    LastLast(MoveToBack(s, key), cap, c);
  }

  /** One remember, on a window that holds the newest of `s`. */
  lemma RememberPending(w: Window, s: seq<UsageDedupeKey>, e: Ingest, cap: nat, k: UsageDedupeKey)
    requires Valid(w) && Distinct(s) && w.order == Last(s, cap)
    ensures var c := Min(PENDING_CAP_CLAUDE, cap);
      Pending(Remember(w, e.key, e.revision, cap), k)
      == if k !in Last(MoveToBack(s, e.key), c) then None
         else if k == e.key then e.revision
         else Pending(w, k)
  {
    var c := Min(PENDING_CAP_CLAUDE, cap);
    RememberIs(w, e.key, e.revision, cap);
    SameNewest(w.order, s, e.key, cap, c);
    LookUpRevised(w.pending, e.key, e.revision, Last(MoveToBack(s, e.key), c), k);
  }

  function LookUp(m: map<UsageDedupeKey, ClaudePendingUsage>, k: UsageDedupeKey): Option<ClaudePendingUsage> {
    if k in m then Some(m[k]) else None
  }

  lemma LookUpRevised(m: map<UsageDedupeKey, ClaudePendingUsage>, key: UsageDedupeKey,
                      revision: Option<ClaudePendingUsage>, newest: seq<UsageDedupeKey>, k: UsageDedupeKey)
    ensures LookUp(Restrict(Revise(m, key, revision), newest), k)
         == if k !in newest then None else if k == key then revision else LookUp(m, k)
  {
  }

  lemma {:induction false} ReplayPending(history: seq<Ingest>, cap: nat, k: UsageDedupeKey)
    ensures Pending(Replay(history, cap), k)
         == if k in Last(ByLastUse(history), Min(PENDING_CAP_CLAUDE, cap)) then LastRevision(history, k) else None
    decreases |history|
  {
    if history != [] {
      var n := |history| - 1;
      var e := history[n];
      var s := ByLastUse(history[..n]);
      ReplayOrder(history[..n], cap);
      ByLastUseDistinct(history[..n]);
      RememberPending(Replay(history[..n], cap), s, e, cap, k);
      ReplayPending(history[..n], cap, k);
      if k != e.key && k in Last(ByLastUse(history), Min(PENDING_CAP_CLAUDE, cap)) {
        StaysNewest(s, e.key, k, Min(PENDING_CAP_CLAUDE, cap));
      }
    }
  }

  /** Another key among the newest was there before the move. */
  lemma StaysNewest(s: seq<UsageDedupeKey>, key: UsageDedupeKey, k: UsageDedupeKey, n: nat)
    requires Distinct(s) && k != key && k in Last(MoveToBack(s, key), n)
    ensures k in Last(s, n)
  {
    MoveForgotten(s, key, n);
    var b := Last(s, n);
    LastMembers(MoveToBack(b, key), n);
    FilterMembers(ButKey(key), b);
  }

  /** The window is a least-recently-used list over the full history: a key is
      contained while fewer than `cap` others were used since its last use, and
      its last revision is held while fewer than 32 (and fewer than `cap`) were. */
  lemma LeastRecentlyUsed(history: seq<Ingest>, cap: nat, k: UsageDedupeKey)
    ensures var w := Replay(history, cap);
      && (Contains(w, k) <==> Occurs(history, k) && |UsedSince(history, k)| < cap)
      && Pending(w, k) == if |UsedSince(history, k)| < Min(PENDING_CAP_CLAUDE, cap)
                          then LastRevision(history, k) else None
  {
    ReplayOrder(history, cap);
    ReplayPending(history, cap, k);
    NewestExactly(history, k, cap);
    NewestExactly(history, k, Min(PENDING_CAP_CLAUDE, cap));
    if !Occurs(history, k) {
      NoRevision(history, k);
    }
  }

  lemma {:induction false} NoRevision(history: seq<Ingest>, k: UsageDedupeKey)
    requires !Occurs(history, k)
    ensures LastRevision(history, k) == None
    decreases |history|
  {
    if history != [] {
      OccursSnoc(history, k);
      NoRevision(history[..|history| - 1], k);
    }
  }

  // ---- what a window saves ---------------------------------------------------------

  /** What the decoder demands of the saved lists of one file. */
  ghost predicate SavedListsOk(keys: seq<UsageDedupeKey>, events: seq<ClaudePendingUsage>, cap: nat) {
    && Distinct(keys) && |keys| <= cap
    && |events| <= PENDING_CAP_CLAUDE
    && (forall i, j :: 0 <= i < j < |events| ==> events[i].key != events[j].key)
    && (forall i :: 0 <= i < |events| ==> events[i].key in Last(keys, PENDING_CAP_CLAUDE))
  }

  lemma {:induction false} ValuesKeys(keys: seq<UsageDedupeKey>, m: map<UsageDedupeKey, ClaudePendingUsage>)
    requires Distinct(keys) && forall k :: k in m ==> m[k].key == k
    ensures var v := ValuesAlong(keys, m);
      && |v| <= |keys|
      && (forall i :: 0 <= i < |v| ==> v[i].key in keys && v[i].key in m && m[v[i].key] == v[i])
      && (forall i, j :: 0 <= i < j < |v| ==> v[i].key != v[j].key)
    decreases |keys|
  {
    if keys != [] {
      DistinctTail(keys);
      ValuesKeys(keys[1..], m);
    }
  }

  lemma {:induction false} CapKept(w: Window, ops: seq<Op>, cap: nat)
    requires Valid(w) && |w.order| <= cap
    requires forall i :: 0 <= i < |ops| ==> ops[i].DoRemember? ==> ops[i].cap == cap
    ensures |ApplyAll(w, ops).order| <= cap
    decreases |ops|
  {
    if ops != [] {
      ApplyValid(w, ops[0]);
      match ops[0] {
        case DoRemember(key, revision, _) => RememberIs(w, key, revision, cap);
        case DoRetain(month) =>
          RetainIs(w, month);
          FilterMembers(NotBefore(month), w.order);
        case DoClear =>
      }
      CapKept(Apply(w, ops[0]), ops[1..], cap);
    }
  }

  /** Whatever happens to a window under one cap, the lists it saves pass every
      check the decoder makes on them. */
  lemma SavesCleanly(w0: Window, ops: seq<Op>, cap: nat)
    requires Valid(w0) && Keyed(w0) && |w0.order| <= cap
    requires forall i :: 0 <= i < |ops| ==> KeyedOp(ops[i]) && (ops[i].DoRemember? ==> ops[i].cap == cap)
    ensures var w := ApplyAll(w0, ops); SavedListsOk(SeenKeys(w), PendingValues(w), cap)
  {
    var w := ApplyAll(w0, ops);
    ApplyAllValid(w0, ops);
    CapKept(w0, ops, cap);
    DistinctSuffix(w.recent, w.order);
    ValuesKeys(w.recent, w.pending);
    RecentWithinLast(w);
  }

  // ---- pruning saved lists -----------------------------------------------------------

  function EventNotBefore(month: u32): ClaudePendingUsage -> bool {
    (e: ClaudePendingUsage) => e.key.month >= month
  }

  lemma {:induction false} ValuesPruned(keys: seq<UsageDedupeKey>, m: map<UsageDedupeKey, ClaudePendingUsage>, month: u32)
    requires forall k :: k in m ==> m[k].key == k
    ensures Filter(EventNotBefore(month), ValuesAlong(keys, m))
         == ValuesAlong(Filter(NotBefore(month), keys), map k | k in m && k.month >= month :: m[k])
    decreases |keys|
  {
    if keys != [] {
      var k := keys[0];
      var n := map k | k in m && k.month >= month :: m[k];
      ValuesPruned(keys[1..], m, month);
      var head := if k in m then [m[k]] else [];
      FilterAppend(EventNotBefore(month), head, ValuesAlong(keys[1..], m));
      ValuesAppend(Filter(NotBefore(month), [k]), Filter(NotBefore(month), keys[1..]), n);
      FilterAppend(NotBefore(month), [k], keys[1..]);
      assert [k] + keys[1..] == keys;
      if k in m {
        assert [m[k]][1..] == [];
      }
      assert [k][1..] == [];
    }
  }

  /** Pruning the saved lists by month and restoring them is restoring them and
      then dropping the earlier months. */
  lemma PruneCommutes(w: Window, month: u32, ops: seq<Op>)
    requires Valid(w) && Keyed(w)
    ensures var keys := Filter(NotBefore(month), SeenKeys(w));
      var events := Filter(EventNotBefore(month), PendingValues(w));
      Indistinguishable(ApplyAll(FromParts(keys, events), ops),
                        ApplyAll(RetainMonth(FromParts(SeenKeys(w), PendingValues(w)), month), ops))
  {
    var t := RetainMonth(w, month);
    RetainIs(w, month);
    PendingAlongOrder(w);
    PendingAlongOrder(t);
    ValuesPruned(w.order, w.pending, month);
    RestoreSame(t);
    RestoreSame(w);
    var v := RetainMonth(FromParts(SeenKeys(w), PendingValues(w)), month);
    ApplySame(FromParts(SeenKeys(w), PendingValues(w)), w, DoRetain(month));
    ApplyAllSame(FromParts(SeenKeys(t), PendingValues(t)), v, ops);
    SameIndistinguishable(ApplyAll(FromParts(SeenKeys(t), PendingValues(t)), ops), ApplyAll(v, ops));
  }
}
