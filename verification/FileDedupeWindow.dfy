/** The deduplication window as the collector holds it: four mutable collections,
    every method proved equal to `DedupeModel`. */
module FileDedupeWindow {
  import opened Wrappers
  import opened SeqFacts
  import opened UsageTypes
  import M = DedupeModel
  import L = DedupeLaws
  import R = DedupeRuns

  class FileDedupeWindow {
    var order: seq<UsageDedupeKey>
    var seen: set<UsageDedupeKey>
    var recentOrder: seq<UsageDedupeKey>
    var pending: map<UsageDedupeKey, ClaudePendingUsage>

    function Value(): M.Window
      reads this
    {
      M.Window(order, seen, recentOrder, pending)
    }

    constructor Empty()
      ensures Value() == M.EMPTY
    {
      order, seen, recentOrder, pending := [], {}, [], map[];
    }

    /** Rebuilds a window from its saved lists; duplicates keep their first place. */
    constructor FromParts(keys: seq<UsageDedupeKey>, events: seq<ClaudePendingUsage>)
      ensures Value() == M.FromParts(keys, events)
      ensures L.Valid(Value()) && L.Keyed(Value())
    {
      order, seen, recentOrder, pending := [], {}, [], map[];
      new;
      var i := 0;
      assert keys[0..] == keys;
      while i < |keys|
        invariant 0 <= i <= |keys|
        invariant M.AddKeys(Value(), keys[i..]) == M.AddKeys(M.EMPTY, keys)
      {
        assert keys[i..][1..] == keys[i + 1..];
        if keys[i] !in seen {
          seen := seen + {keys[i]};
          order := order + [keys[i]];
        }
        i := i + 1;
      }
      var skip := if |order| <= PENDING_CAP_CLAUDE then 0 else |order| - PENDING_CAP_CLAUDE;
      recentOrder := recentOrder + order[skip..];
      assert recentOrder == Last(order, PENDING_CAP_CLAUDE) by {
        R.AddKeysValid(M.EMPTY, keys);
      }
      ghost var loaded := Value();
      var j := 0;
      assert events[0..] == events;
      while j < |events|
        invariant 0 <= j <= |events|
        invariant M.AddPending(Value(), events[j..]) == M.AddPending(loaded, events)
      {
        assert events[j..][1..] == events[j + 1..];
        var event := events[j];
        if event.key in recentOrder && event.key !in pending {
          pending := pending[event.key := event];
        }
        j := j + 1;
      }
      R.FromPartsValid(keys, events);
    }

    predicate Contains(key: UsageDedupeKey)
      reads this
    {
      key in seen
    }

    function Pending(key: UsageDedupeKey): Option<ClaudePendingUsage>
      reads this
    {
      if key in pending then Some(pending[key]) else None
    }

    /** Adds or supersedes a key and anchors it at the newest position. */
    method Remember(key: UsageDedupeKey, revision: Option<ClaudePendingUsage>, seenCap: nat)
      modifies this
      ensures Value() == M.Remember(old(Value()), key, revision, seenCap)
      ensures L.Valid(old(Value())) ==> L.Valid(Value())
    {
      ghost var w := Value();
      if key in seen {
        seen := seen - {key};
        order := M.Without(order, key);
        recentOrder := M.Without(recentOrder, key);
        pending := pending - {key};
      }
      order := order + [key];
      recentOrder := recentOrder + [key];
      seen := seen + {key};
      if revision.Some? {
        pending := pending[key := revision.value];
      }
      ghost var anchored := Value();
      while |recentOrder| > PENDING_CAP_CLAUDE
        invariant M.EvictRecent(Value()) == M.EvictRecent(anchored)
        decreases |recentOrder|
      {
        var oldest := recentOrder[0];
        recentOrder := recentOrder[1..];
        pending := pending - {oldest};
      }
      ghost var trimmed := Value();
      while |order| > seenCap
        invariant M.EvictOrder(Value(), seenCap) == M.EvictOrder(trimmed, seenCap)
        decreases |order|
      {
        var oldest := order[0];
        order := order[1..];
        seen := seen - {oldest};
        recentOrder := M.Without(recentOrder, oldest);
        pending := pending - {oldest};
      }
      if L.Valid(w) {
        L.RememberIs(w, key, revision, seenCap);
      }
    }

    method ClearPending() returns (changed: bool)
      modifies this`pending
      ensures Value() == M.ClearPending(old(Value()))
      ensures changed <==> old(pending) != map[]
    {
      changed := pending != map[];
      pending := map[];
    }

    method RetainMonth(monthStart: u32)
      modifies this
      ensures Value() == M.RetainMonth(old(Value()), monthStart)
      ensures L.Valid(old(Value())) ==> L.Valid(Value())
    {
      ghost var w := Value();
      order := Filter(M.NotBefore(monthStart), order);
      seen := set k | k in seen && k.month >= monthStart;
      recentOrder := Filter(M.KeptRecent(monthStart, seen), recentOrder);
      pending := map k | k in pending && k in recentOrder :: pending[k];
      if L.Valid(w) {
        R.RetainIs(w, monthStart);
      }
    }

    function SeenKeys(): seq<UsageDedupeKey>
      reads this
    {
      order
    }

    method PendingValues() returns (events: seq<ClaudePendingUsage>)
      ensures events == M.PendingValues(Value())
    {
      events := [];
      var i := 0;
      while i < |recentOrder|
        invariant 0 <= i <= |recentOrder|
        invariant events == M.ValuesAlong(recentOrder[..i], pending)
      {
        R.ValuesAppend(recentOrder[..i], [recentOrder[i]], pending);
        assert recentOrder[..i + 1] == recentOrder[..i] + [recentOrder[i]];
        assert [recentOrder[i]][1..] == [];
        if recentOrder[i] in pending {
          events := events + [pending[recentOrder[i]]];
        }
        i := i + 1;
      }
      assert recentOrder[..i] == recentOrder;
    }
  }
}
