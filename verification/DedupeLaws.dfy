/** The four structures of a window stay one list, and what one event does to it. */
module DedupeLaws {
  import opened Wrappers
  import opened SeqFacts
  import opened UsageTypes
  import opened DedupeModel

  /** The four structures describe one list. */
  ghost predicate Valid(w: Window) {
    && Distinct(w.order)
    && w.seen == ToSet(w.order)
    && IsSuffix(w.recent, w.order) && |w.recent| <= PENDING_CAP_CLAUDE
    && w.pending.Keys <= ToSet(w.recent)
  }

  /** Every revision is stored under its own key. */
  ghost predicate Keyed(w: Window) {
    forall k :: k in w.pending ==> w.pending[k].key == k
  }

  function Restrict(m: map<UsageDedupeKey, ClaudePendingUsage>, keys: seq<UsageDedupeKey>)
    : map<UsageDedupeKey, ClaudePendingUsage>
  {
    map k | k in m && k in keys :: m[k]
  }

  // ---- one remember ----------------------------------------------------------

  lemma LastLast<T>(s: seq<T>, a: nat, b: nat)
    ensures Last(Last(s, a), b) == Last(s, Min(a, b))
  {
  }

  lemma DistinctTail<T>(s: seq<T>)
    requires Distinct(s) && s != []
    ensures Distinct(s[1..]) && s[0] !in s[1..]
    ensures ToSet(s[1..]) == ToSet(s) - {s[0]}
  {
    assert s == [s[0]] + s[1..];
  }

  lemma DistinctSuffix<T>(a: seq<T>, b: seq<T>)
    requires Distinct(b) && IsSuffix(a, b)
    ensures Distinct(a) && ToSet(a) <= ToSet(b)
  {
  }

  lemma LastMembers<T>(s: seq<T>, n: nat)
    ensures forall x :: x in Last(s, n) ==> x in s
  {
  }

  /** Dropping the oldest key first does not change what the newest keys retain. */
  lemma RestrictTail(m: map<UsageDedupeKey, ClaudePendingUsage>, s: seq<UsageDedupeKey>, n: nat)
    requires Distinct(s) && |s| > n
    ensures Last(s[1..], n) == Last(s, n)
    ensures Restrict(m - {s[0]}, Last(s, n)) == Restrict(m, Last(s, n))
  {
    DistinctTail(s);
    assert Last(s[1..], n) == Last(s, n);
    LastMembers(s[1..], n);
  }

  lemma {:induction false} EvictRecentIs(w: Window)
    requires Distinct(w.recent) && w.pending.Keys <= ToSet(w.recent)
    ensures var r := Last(w.recent, PENDING_CAP_CLAUDE);
      EvictRecent(w) == w.(recent := r, pending := Restrict(w.pending, r))
    decreases |w.recent|
  {
    if |w.recent| <= PENDING_CAP_CLAUDE {
      assert Restrict(w.pending, w.recent) == w.pending;
    } else {
      DistinctTail(w.recent);
      RestrictTail(w.pending, w.recent, PENDING_CAP_CLAUDE);
      EvictRecentIs(w.(recent := w.recent[1..], pending := w.pending - {w.recent[0]}));
    }
  }

  lemma WithoutFirst(s: seq<UsageDedupeKey>)
    requires Distinct(s) && s != []
    ensures Without(s, s[0]) == s[1..]
  {
    FilterAll(ButKey(s[0]), s[1..]);
  }

  lemma WithoutAbsent(s: seq<UsageDedupeKey>, key: UsageDedupeKey)
    requires key !in s
    ensures Without(s, key) == s
  {
    FilterAll(ButKey(key), s);
  }

  /** The oldest key leaves a suffix of the order with it, or was not in it. */
  lemma SuffixWithoutOldest(recent: seq<UsageDedupeKey>, order: seq<UsageDedupeKey>)
    requires Distinct(order) && order != [] && IsSuffix(recent, order)
    ensures IsSuffix(Without(recent, order[0]), order[1..])
    ensures Without(recent, order[0]) == if recent == order then order[1..] else recent
  {
    if recent == order {
      WithoutFirst(order);
    } else {
      SuffixSkipsOldest(recent, order);
      WithoutAbsent(recent, order[0]);
    }
  }

  /** One eviction keeps the window valid. */
  lemma EvictOldestValid(w: Window)
    requires Valid(w) && w.order != []
    ensures var o := w.order[0];
      Valid(Window(w.order[1..], w.seen - {o}, Without(w.recent, o), w.pending - {o}))
  {
    DistinctTail(w.order);
    SuffixWithoutOldest(w.recent, w.order);
    if w.recent != w.order {
      assert w.order[0] !in w.recent by { SuffixSkipsOldest(w.recent, w.order); }
    }
  }

  lemma SuffixSkipsOldest(recent: seq<UsageDedupeKey>, order: seq<UsageDedupeKey>)
    requires Distinct(order) && order != [] && IsSuffix(recent, order) && recent != order
    ensures order[0] !in recent
  {
    assert order[0..] == order;
  }

  lemma {:induction false} EvictOrderIs(w: Window, cap: nat)
    requires Valid(w)
    ensures var t := EvictOrder(w, cap);
      Valid(t) && t.order == Last(w.order, cap) && t.pending == Restrict(w.pending, Last(w.order, cap))
    decreases |w.order|
  {
    if |w.order| <= cap {
      DistinctSuffix(w.recent, w.order);
      assert Restrict(w.pending, w.order) == w.pending;
    } else {
      var o := w.order[0];
      EvictOldestValid(w);
      RestrictTail(w.pending, w.order, cap);
      EvictOrderIs(Window(w.order[1..], w.seen - {o}, Without(w.recent, o), w.pending - {o}), cap);
    }
  }

  /** The order with `key` moved to the newest position. */
  function MoveToBack(order: seq<UsageDedupeKey>, key: UsageDedupeKey): seq<UsageDedupeKey> {
    Without(order, key) + [key]
  }

  function Revise(pending: map<UsageDedupeKey, ClaudePendingUsage>, key: UsageDedupeKey,
                  revision: Option<ClaudePendingUsage>): map<UsageDedupeKey, ClaudePendingUsage> {
    if revision.Some? then pending[key := revision.value] else pending - {key}
  }

  lemma DistinctSnoc<T>(s: seq<T>, x: T)
    requires Distinct(s) && x !in s
    ensures Distinct(s + [x]) && ToSet(s + [x]) == ToSet(s) + {x}
  {
  }

  lemma MoveToBackDistinct(order: seq<UsageDedupeKey>, key: UsageDedupeKey)
    requires Distinct(order)
    ensures Distinct(MoveToBack(order, key))
    ensures ToSet(MoveToBack(order, key)) == ToSet(order) + {key}
    ensures ToSet(Without(order, key)) == ToSet(order) - {key}
  {
    FilterDistinct(ButKey(key), order);
    FilterMembers(ButKey(key), order);
    assert key !in Without(order, key);
    DistinctSnoc(Without(order, key), key);
  }

  lemma MoveToBackSuffix(recent: seq<UsageDedupeKey>, order: seq<UsageDedupeKey>, key: UsageDedupeKey)
    requires IsSuffix(recent, order)
    ensures IsSuffix(MoveToBack(recent, key), MoveToBack(order, key))
  {
    FilterSuffix(ButKey(key), recent, order);
    var a, b := Without(recent, key), Without(order, key);
    assert (b + [key])[|b| - |a|..] == b[|b| - |a|..] + [key];
  }

  lemma ReviseAfterForget(m: map<UsageDedupeKey, ClaudePendingUsage>, key: UsageDedupeKey,
                          revision: Option<ClaudePendingUsage>)
    ensures Revise(m - {key}, key, revision) == Revise(m, key, revision)
    ensures key !in m ==> m - {key} == m
  {
  }

  /** Forgetting and anchoring, whether or not the key was known. */
  lemma AnchorIs(w: Window, key: UsageDedupeKey, revision: Option<ClaudePendingUsage>)
    requires w.seen == ToSet(w.order) && ToSet(w.recent) <= w.seen && w.pending.Keys <= w.seen
    ensures Anchor(Forget(w, key), key, revision)
         == Window(MoveToBack(w.order, key), w.seen + {key}, MoveToBack(w.recent, key),
                   Revise(w.pending, key, revision))
  {
    ReviseAfterForget(w.pending, key, revision);
    if key in w.seen {
      assert w.seen - {key} + {key} == w.seen + {key};
    } else {
      assert key !in w.order && key !in ToSet(w.recent);
      WithoutAbsent(w.order, key);
      WithoutAbsent(w.recent, key);
    }
  }

  lemma RevisedWithin(w: Window, key: UsageDedupeKey, revision: Option<ClaudePendingUsage>)
    requires Valid(w)
    ensures Revise(w.pending, key, revision).Keys <= ToSet(MoveToBack(w.recent, key))
  {
    DistinctSuffix(w.recent, w.order);
    MoveToBackDistinct(w.recent, key);
  }

  /** After the recent queue is trimmed the window is valid again. */
  lemma AnchoredEvicts(w: Window, key: UsageDedupeKey, revision: Option<ClaudePendingUsage>)
    requires Valid(w)
    ensures var e := EvictRecent(Anchor(Forget(w, key), key, revision));
      var recent := MoveToBack(w.recent, key);
      && Valid(e) && e.order == MoveToBack(w.order, key)
      && e.pending == Restrict(Revise(w.pending, key, revision), Last(recent, PENDING_CAP_CLAUDE))
  {
    DistinctSuffix(w.recent, w.order);
    AnchorIs(w, key, revision);
    RevisedWithin(w, key, revision);
    MoveToBackDistinct(w.order, key);
    MoveToBackDistinct(w.recent, key);
    MoveToBackSuffix(w.recent, w.order, key);
    hide MoveToBack, Anchor, Forget, EvictRecent, Revise, Restrict, Distinct, IsSuffix, Last;
    EvictedValid(MoveToBack(w.order, key), MoveToBack(w.recent, key), Revise(w.pending, key, revision));
  }

  lemma EvictedValid(order: seq<UsageDedupeKey>, recent: seq<UsageDedupeKey>,
                     pending: map<UsageDedupeKey, ClaudePendingUsage>)
    requires Distinct(order) && Distinct(recent) && IsSuffix(recent, order) && pending.Keys <= ToSet(recent)
    ensures var e := EvictRecent(Window(order, ToSet(order), recent, pending));
      Valid(e) && e.order == order && e.pending == Restrict(pending, Last(recent, PENDING_CAP_CLAUDE))
  {
    EvictRecentIs(Window(order, ToSet(order), recent, pending));
    LastSuffix(recent, order, PENDING_CAP_CLAUDE);
    hide EvictRecent, Distinct, IsSuffix, Last;
  }

  lemma LastSuffix<T>(a: seq<T>, b: seq<T>, n: nat)
    requires IsSuffix(a, b)
    ensures IsSuffix(Last(a, n), b) && |Last(a, n)| <= n
  {
  }

  /** What a call of `remember` does, told without the recent queue. */
  lemma RememberIs(w: Window, key: UsageDedupeKey, revision: Option<ClaudePendingUsage>, cap: nat)
    requires Valid(w)
    ensures var t := Remember(w, key, revision, cap); var moved := MoveToBack(w.order, key);
      && Valid(t)
      && t.order == Last(moved, cap)
      && t.pending == Restrict(Revise(w.pending, key, revision), Last(moved, Min(PENDING_CAP_CLAUDE, cap)))
  {
    AnchoredEvicts(w, key, revision);
    EvictOrderIs(EvictRecent(Anchor(Forget(w, key), key, revision)), cap);
    RevisedWithin(w, key, revision);
    DistinctSuffix(w.recent, w.order);
    MoveToBackDistinct(w.order, key);
    MoveToBackSuffix(w.recent, w.order, key);
    RestrictNewest(Revise(w.pending, key, revision), MoveToBack(w.recent, key), MoveToBack(w.order, key), cap);
  }

  /** The two evictions together keep exactly the newest of the whole order. */
  lemma RestrictNewest(m: map<UsageDedupeKey, ClaudePendingUsage>, suffix: seq<UsageDedupeKey>,
                       s: seq<UsageDedupeKey>, cap: nat)
    requires Distinct(s) && IsSuffix(suffix, s) && m.Keys <= ToSet(suffix)
    ensures Restrict(Restrict(m, Last(suffix, PENDING_CAP_CLAUDE)), Last(s, cap))
         == Restrict(m, Last(s, Min(PENDING_CAP_CLAUDE, cap)))
  {
    forall k | k in m
      ensures k in Last(suffix, PENDING_CAP_CLAUDE) && k in Last(s, cap)
              <==> k in Last(s, Min(PENDING_CAP_CLAUDE, cap))
    {
      SuffixMembers(suffix, s, PENDING_CAP_CLAUDE, k);
    }
  }

  /** Being among the newest of a suffix is being among the newest. */
  lemma SuffixMembers(suffix: seq<UsageDedupeKey>, s: seq<UsageDedupeKey>, n: nat, k: UsageDedupeKey)
    requires Distinct(s) && IsSuffix(suffix, s) && k in suffix
    ensures k in Last(suffix, n) <==> k in Last(s, n)
    ensures forall m: nat :: k in Last(s, n) && k in Last(s, m) <==> k in Last(s, Min(n, m))
  {
    var i :| 0 <= i < |suffix| && suffix[i] == k;
    var p := |s| - |suffix| + i;
    assert s[p] == k;
    forall m: nat ensures k in Last(s, m) <==> |s| - p <= m {
      if |s| - p <= m {
        assert |s| <= m || Last(s, m)[p - (|s| - m)] == k;
      }
    }
    assert k in Last(suffix, n) <==> |s| - p <= n by {
      if |s| - p <= n {
        assert |suffix| <= n || Last(suffix, n)[i - (|suffix| - n)] == k;
      }
    }
  }
}
