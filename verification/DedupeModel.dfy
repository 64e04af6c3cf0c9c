/** The per-file deduplication window as a value. */
module DedupeModel {
  import opened Wrappers
  import opened SeqFacts
  import opened UsageTypes

  datatype Window = Window(
    order: seq<UsageDedupeKey>,
    seen: set<UsageDedupeKey>,
    recent: seq<UsageDedupeKey>,
    pending: map<UsageDedupeKey, ClaudePendingUsage>)

  const EMPTY := Window([], {}, [], map[])

  function ButKey(key: UsageDedupeKey): UsageDedupeKey -> bool {
    (k: UsageDedupeKey) => k != key
  }

  function NotBefore(month: u32): UsageDedupeKey -> bool {
    (k: UsageDedupeKey) => k.month >= month
  }

  function KeptRecent(month: u32, seen: set<UsageDedupeKey>): UsageDedupeKey -> bool {
    (k: UsageDedupeKey) => k.month >= month && k in seen
  }

  function Without(s: seq<UsageDedupeKey>, key: UsageDedupeKey): seq<UsageDedupeKey> {
    Filter(ButKey(key), s)
  }

  function Contains(w: Window, key: UsageDedupeKey): bool {
    key in w.seen
  }

  function Pending(w: Window, key: UsageDedupeKey): Option<ClaudePendingUsage> {
    if key in w.pending then Some(w.pending[key]) else None
  }

  function SeenKeys(w: Window): seq<UsageDedupeKey> {
    w.order
  }

  /** The pending events, in the order of the given keys. */
  function ValuesAlong(keys: seq<UsageDedupeKey>, pending: map<UsageDedupeKey, ClaudePendingUsage>)
    : seq<ClaudePendingUsage>
    decreases |keys|
  {
    if keys == [] then []
    else (if keys[0] in pending then [pending[keys[0]]] else []) + ValuesAlong(keys[1..], pending)
  }

  function PendingValues(w: Window): seq<ClaudePendingUsage> {
    ValuesAlong(w.recent, w.pending)
  }

  /** Drops the oldest recent keys beyond the revision window. */
  function EvictRecent(w: Window): Window
    decreases |w.recent|
  {
    if |w.recent| <= PENDING_CAP_CLAUDE then w
    else EvictRecent(w.(recent := w.recent[1..], pending := w.pending - {w.recent[0]}))
  }

  /** Drops the oldest keys beyond the cap, everywhere. */
  function EvictOrder(w: Window, cap: nat): Window
    decreases |w.order|
  {
    if |w.order| <= cap then w
    else
      var oldest := w.order[0];
      EvictOrder(Window(w.order[1..], w.seen - {oldest}, Without(w.recent, oldest), w.pending - {oldest}), cap)
  }

  function Forget(w: Window, key: UsageDedupeKey): Window {
    if key in w.seen then
      Window(Without(w.order, key), w.seen - {key}, Without(w.recent, key), w.pending - {key})
    else w
  }

  function Anchor(w: Window, key: UsageDedupeKey, revision: Option<ClaudePendingUsage>): Window {
    Window(w.order + [key], w.seen + {key}, w.recent + [key],
           if revision.Some? then w.pending[key := revision.value] else w.pending)
  }

  function Remember(w: Window, key: UsageDedupeKey, revision: Option<ClaudePendingUsage>, cap: nat): Window {
    EvictOrder(EvictRecent(Anchor(Forget(w, key), key, revision)), cap)
  }

  function ClearPending(w: Window): Window {
    w.(pending := map[])
  }

  function RetainMonth(w: Window, month: u32): Window {
    var order := Filter(NotBefore(month), w.order);
    var seen := set k | k in w.seen && k.month >= month;
    var recent := Filter(KeptRecent(month, seen), w.recent);
    Window(order, seen, recent, map k | k in w.pending && k in recent :: w.pending[k])
  }

  /** First occurrences, in order. */
  function AddKeys(w: Window, keys: seq<UsageDedupeKey>): Window
    decreases |keys|
  {
    if keys == [] then w
    else AddKeys(if keys[0] in w.seen then w
                 else w.(order := w.order + [keys[0]], seen := w.seen + {keys[0]}), keys[1..])
  }

  function AddPending(w: Window, events: seq<ClaudePendingUsage>): Window
    decreases |events|
  {
    if events == [] then w
    else
      var key := events[0].key;
      AddPending(if key in w.recent && key !in w.pending then w.(pending := w.pending[key := events[0]]) else w,
                 events[1..])
  }

  function FromParts(keys: seq<UsageDedupeKey>, events: seq<ClaudePendingUsage>): Window {
    var w := AddKeys(EMPTY, keys);
    AddPending(w.(recent := Last(w.order, PENDING_CAP_CLAUDE)), events)
  }
}
