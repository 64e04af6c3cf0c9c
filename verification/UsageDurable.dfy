/** The generation protocol of the usage store, together with its codec. */
module UsageDurable {
  import opened Wrappers
  import opened UsageStateModel
  import opened UsageCodec
  import opened UsageCollectLaws
  import opened UsageCodecLaws
  import UsageStateCodec

  const MAX_PRIOR_GENERATIONS: u64 := 8

  /** Stored bytes: text, or something that is not UTF-8. */
  datatype Blob = Utf8(text: string) | NotUtf8

  datatype BlobStore = BlobStore(current: Option<u64>, blobs: map<u64, Blob>)

  datatype PersistStatus = Applied(generation: u64) | PersistFailed

  datatype LoadStatus =
    | Loaded(state: UsageState)
    | RecoveredPrior(recovered: UsageState, requested: Option<u64>)
    | Missing

  // ---- the store -----------------------------------------------------------------

  lemma MaxExists(keys: set<u64>)
    requires keys != {}
    ensures exists m :: m in keys && forall k :: k in keys ==> k <= m
    decreases |keys|
  {
    var x :| x in keys;
    var rest := keys - {x};
    if rest == {} {
      forall k | k in keys ensures k <= x { assert k !in rest; }
    } else {
      MaxExists(rest);
      var m :| m in rest && forall k :: k in rest ==> k <= m;
      forall k | k in keys ensures k <= Max(m, x) {
        if k != x { assert k in rest; }
      }
      assert Max(m, x) in keys;
    }
  }

  /** The highest generation with a blob. */
  function Highest(keys: set<u64>): (m: Option<u64>)
    ensures m.None? <==> keys == {}
    ensures m.Some? ==> m.value in keys && forall k :: k in keys ==> k <= m.value
  {
    if keys == {} then None
    else
      MaxExists(keys);
      var m :| m in keys && forall k :: k in keys ==> k <= m;
      Some(m)
  }

  /** The greatest generation the store or the state knows of. */
  function Top(b: BlobStore, s: UsageState): u64 {
    Max(Max(b.current.GetOr(0), Highest(b.blobs.Keys).GetOr(0)), s.generation)
  }

  /** The state as the next generation stores it. */
  function Stamped(s: UsageState, generation: u64): UsageState {
    s.(generation := generation, schemaVersion := USAGE_STATE_SCHEMA_VERSION)
  }

  function Persist(b: BlobStore, s: UsageState, blobOk: bool, currentOk: bool): (BlobStore, PersistStatus) {
    if Top(b, s) == U64_MAX then (b, PersistFailed)
    else
      var generation := Top(b, s) + 1;
      if !blobOk then (b, PersistFailed)
      else
        var written := b.(blobs := b.blobs[generation := Utf8(Encode(Stamped(s, generation)))]);
        if !currentOk then (written, PersistFailed)
        else (written.(current := Some(generation)), Applied(generation))
  }

  /** A blob counts only if it decodes to a state of its own generation. */
  function DecodeBlob(b: BlobStore, generation: u64): Option<UsageState> {
    if generation !in b.blobs || b.blobs[generation].NotUtf8? then None
    else
      var s := Decode(b.blobs[generation].text);
      if s.Some? && s.value.generation == generation then s else None
  }

  /** The newest decodable generation between two bounds, looking down. */
  function NewestDecodable(b: BlobStore, low: u64, high: u64): Option<UsageState>
    decreases high
  {
    if DecodeBlob(b, high).Some? then DecodeBlob(b, high)
    else if high <= low then None
    else NewestDecodable(b, low, high - 1)
  }

  function RecoverPrior(b: BlobStore, requested: u64): Option<UsageState> {
    NewestDecodable(b, SatSub(requested, MAX_PRIOR_GENERATIONS), SatSub(requested, 1))
  }

  function Load(b: BlobStore): LoadStatus {
    if b.current.Some? then
      var requested := b.current.value;
      if DecodeBlob(b, requested).Some? then Loaded(DecodeBlob(b, requested).value)
      else
        var prior := RecoverPrior(b, requested);
        if prior.Some? then RecoveredPrior(prior.value, Some(requested)) else Missing
    else
      var highest := Highest(b.blobs.Keys);
      if highest.None? then Missing
      else
        var s := if DecodeBlob(b, highest.value).Some? then DecodeBlob(b, highest.value)
                 else RecoverPrior(b, highest.value);
        if s.Some? then RecoveredPrior(s.value, None) else Missing
  }

  class MemoryBlobs {
    var current: Option<u64>
    var blobs: map<u64, Blob>
    var failWriteBlob: bool
    var failWriteCurrent: bool

    constructor ()
      ensures Value() == BlobStore(None, map[]) && !failWriteBlob && !failWriteCurrent
    {
      current, blobs, failWriteBlob, failWriteCurrent := None, map[], false, false;
    }

    function Value(): BlobStore
      reads this
    {
      BlobStore(current, blobs)
    }

    method WriteBlob(generation: u64, text: string) returns (ok: bool)
      modifies this`blobs
      ensures ok == !failWriteBlob
      ensures blobs == if ok then old(blobs)[generation := Utf8(text)] else old(blobs)
    {
      if failWriteBlob {
        return false;
      }
      blobs := blobs[generation := Utf8(text)];
      ok := true;
    }

    method WriteCurrent(generation: u64) returns (ok: bool)
      modifies this`current
      ensures ok == !failWriteCurrent
      ensures current == if ok then Some(generation) else old(current)
    {
      if failWriteCurrent {
        return false;
      }
      current := Some(generation);
      ok := true;
    }
  }

  method PersistUsageState(store: MemoryBlobs, s: UsageState) returns (status: PersistStatus)
    modifies store`current, store`blobs
    ensures (store.Value(), status)
         == Persist(old(store.Value()), s, !store.failWriteBlob, !store.failWriteCurrent)
  {
    hide Encode;
    var highest := Max(Max(store.current.GetOr(0), Highest(store.blobs.Keys).GetOr(0)), s.generation);
    if highest == U64_MAX {
      return PersistFailed;
    }
    var generation := highest + 1;
    var next := s.(generation := generation, schemaVersion := USAGE_STATE_SCHEMA_VERSION);
    var payload := UsageStateCodec.EncodeState(next);
    var wrote := store.WriteBlob(generation, payload);
    if !wrote {
      return PersistFailed;
    }
    var published := store.WriteCurrent(generation);
    if !published {
      return PersistFailed;
    }
    status := Applied(generation);
  }

  method DecodeStored(store: MemoryBlobs, generation: u64) returns (s: Option<UsageState>)
    ensures s == DecodeBlob(store.Value(), generation)
  {
    hide Decode;
    if generation !in store.blobs || store.blobs[generation].NotUtf8? {
      return None;
    }
    s := UsageStateCodec.DecodeState(store.blobs[generation].text);
    if s.Some? && s.value.generation != generation {
      s := None;
    }
  }

  /** The backward search over the prior generations. */
  method RecoverPriorStored(store: MemoryBlobs, requested: u64) returns (s: Option<UsageState>)
    ensures s == RecoverPrior(store.Value(), requested)
  {
    hide DecodeBlob;
    var start := SatSub(requested, 1);
    var floor := SatSub(requested, MAX_PRIOR_GENERATIONS);
    var generation := start;
    while true
      invariant floor <= generation <= start
      invariant NewestDecodable(store.Value(), floor, generation) == NewestDecodable(store.Value(), floor, start)
      decreases generation
    {
      s := DecodeStored(store, generation);
      if generation == 0 {
        return s;
      }
      if s.Some? {
        return s;
      }
      if generation <= floor {
        return None;
      }
      generation := generation - 1;
    }
  }

  method LoadUsageState(store: MemoryBlobs) returns (status: LoadStatus)
    ensures status == Load(store.Value())
  {
    hide DecodeBlob, RecoverPrior;
    if store.current.Some? {
      var requested := store.current.value;
      var s := DecodeStored(store, requested);
      if s.Some? {
        return Loaded(s.value);
      }
      s := RecoverPriorStored(store, requested);
      if s.Some? {
        return RecoveredPrior(s.value, Some(requested));
      }
      return Missing;
    }
    var highest := Highest(store.blobs.Keys);
    if highest.Some? {
      var s := DecodeStored(store, highest.value);
      if s.None? {
        s := RecoverPriorStored(store, highest.value);
      }
      if s.Some? {
        return RecoveredPrior(s.value, None);
      }
    }
    status := Missing;
  }

  // ---- corruption ----------------------------------------------------------------

  lemma {:induction false} NewestDecodableIs(b: BlobStore, low: u64, high: u64)
    requires low <= high
    ensures var r := NewestDecodable(b, low, high);
      && (r.None? ==> forall g :: low <= g <= high ==> DecodeBlob(b, g).None?)
      && (r.Some? ==>
            var g := r.value.generation;
            low <= g <= high && DecodeBlob(b, g) == r && forall h :: g < h <= high ==> DecodeBlob(b, h).None?)
    decreases high
  {
    hide Decode;
    if DecodeBlob(b, high).None? && high > low {
      NewestDecodableIs(b, low, high - 1);
    }
  }

  /** When the requested blob is unusable, recovery returns the greatest usable one
      among its eight predecessors, and nothing only if none is usable. */
  lemma RecoveryIsMaximal(b: BlobStore, requested: u64)
    requires DecodeBlob(b, requested).None?
    ensures var r := RecoverPrior(b, requested);
      && (r.None? <==> forall g :: SatSub(requested, 8) <= g < requested ==> DecodeBlob(b, g).None?)
      && (r.Some? ==>
            var g := r.value.generation;
            && SatSub(requested, 8) <= g < requested
            && DecodeBlob(b, g) == r
            && forall h :: g < h < requested ==> DecodeBlob(b, h).None?)
  {
    hide DecodeBlob;
    NewestDecodableIs(b, SatSub(requested, 8), SatSub(requested, 1));
  }

  // ---- runs ------------------------------------------------------------------------

  /** One attempt to save, with the fate of its two writes. */
  datatype Attempt = Attempt(state: UsageState, blobOk: bool, currentOk: bool)

  function RunAttempts(b: BlobStore, attempts: seq<Attempt>): BlobStore
    decreases |attempts|
  {
    if attempts == [] then b
    else
      var a := attempts[0];
      RunAttempts(Persist(b, a.state, a.blobOk, a.currentOk).0, attempts[1..])
  }

  /** The canonical form under which the last acknowledged attempt is stored. */
  function LastApplied(b: BlobStore, attempts: seq<Attempt>, before: Option<UsageState>): Option<UsageState>
    decreases |attempts|
  {
    if attempts == [] then before
    else
      var a := attempts[0];
      var (c, status) := Persist(b, a.state, a.blobOk, a.currentOk);
      LastApplied(c, attempts[1..], if status.Applied? then Some(Canon(Stamped(a.state, status.generation))) else before)
  }

  /** States the collector may save: decodable under the current schema. */
  predicate Savable(s: UsageState) {
    WfState(s.(schemaVersion := USAGE_STATE_SCHEMA_VERSION))
  }

  lemma StampedWf(s: UsageState, generation: u64)
    requires Savable(s)
    ensures WfState(Stamped(s, generation))
  {
    hide WfCursor, WfProvider;
  }

  /** A new generation is above everything stored, and nothing stored changes. */
  lemma PersistAppends(b: BlobStore, s: UsageState, blobOk: bool, currentOk: bool)
    ensures var (c, status) := Persist(b, s, blobOk, currentOk);
      && (forall g :: g in b.blobs ==> g in c.blobs && c.blobs[g] == b.blobs[g])
      && (forall g :: g in c.blobs && g !in b.blobs ==> forall h :: h in b.blobs ==> h < g)
      && (status.Applied? ==> c.current == Some(status.generation) && status.generation !in b.blobs
                              && (b.current.Some? ==> b.current.value < status.generation)
                              && s.generation < status.generation)
      && (status.PersistFailed? ==> c.current == b.current)
  {
    hide Encode;
  }

  /** No attempt ever overwrites a blob. */
  lemma {:induction false} BlobsPersist(b: BlobStore, attempts: seq<Attempt>)
    ensures var c := RunAttempts(b, attempts);
      forall g :: g in b.blobs ==> g in c.blobs && c.blobs[g] == b.blobs[g]
    decreases |attempts|
  {
    hide Persist;
    if attempts != [] {
      var a := attempts[0];
      PersistAppends(b, a.state, a.blobOk, a.currentOk);
      BlobsPersist(Persist(b, a.state, a.blobOk, a.currentOk).0, attempts[1..]);
    }
  }

  /** An acknowledged save loads as the canonical form of what was saved. */
  lemma AppliedLoads(b: BlobStore, s: UsageState, blobOk: bool, currentOk: bool)
    requires Savable(s)
    ensures var (c, status) := Persist(b, s, blobOk, currentOk);
      status.Applied? ==> Load(c) == Loaded(Canon(Stamped(s, status.generation)))
  {
    hide Encode, Decode, Canon, WfState, RecoverPrior, Top;
    var (c, status) := Persist(b, s, blobOk, currentOk);
    if status.Applied? {
      StampedWf(s, status.generation);
      RoundTrip(Stamped(s, status.generation));
      CanonGeneration(Stamped(s, status.generation));
    }
  }

  lemma CanonGeneration(s: UsageState)
    ensures Canon(s).generation == s.generation
  {
    hide SortedCursors;
  }

  /** A failed save changes nothing that is loaded. */
  lemma FailedLoadsAsBefore(b: BlobStore, s: UsageState, blobOk: bool, currentOk: bool, was: UsageState)
    requires Load(b) == Loaded(was)
    ensures var (c, status) := Persist(b, s, blobOk, currentOk);
      status.PersistFailed? ==> Load(c) == Loaded(was)
  {
    hide Persist, RecoverPrior;
    PersistAppends(b, s, blobOk, currentOk);
  }

  /** From any store, however damaged: once a save has been acknowledged, loading
      returns exactly the canonical form of the last acknowledged state, whatever
      attempts failed since. */
  lemma {:induction false} LoadsLastApplied(b: BlobStore, attempts: seq<Attempt>, before: Option<UsageState>)
    requires forall i :: 0 <= i < |attempts| ==> Savable(attempts[i].state)
    requires before.Some? ==> Load(b) == Loaded(before.value)
    ensures var last := LastApplied(b, attempts, before);
      last.Some? ==> Load(RunAttempts(b, attempts)) == Loaded(last.value)
    decreases |attempts|
  {
    hide Persist, Load, Savable, Canon;
    if attempts != [] {
      var a := attempts[0];
      var (c, status) := Persist(b, a.state, a.blobOk, a.currentOk);
      AppliedLoads(b, a.state, a.blobOk, a.currentOk);
      if status.PersistFailed? && before.Some? {
        FailedLoadsAsBefore(b, a.state, a.blobOk, a.currentOk, before.value);
      }
      LoadsLastApplied(c, attempts[1..],
                       if status.Applied? then Some(Canon(Stamped(a.state, status.generation))) else before);
    }
  }

  /** Recovery promises the newest decodable generation, not the last acknowledged
      one: a state whose publication failed comes back when its acknowledged
      successor is damaged. */
  lemma RecoversUnpublished(b: BlobStore, unpublished: UsageState, published: UsageState)
    requires Savable(unpublished) && Top(b, unpublished) + 2 <= U64_MAX
    requires published.generation <= Top(b, unpublished) + 1
    ensures var g := Top(b, unpublished) + 1;
      var b1 := Persist(b, unpublished, true, false).0;
      var (b2, status) := Persist(b1, published, true, true);
      && Persist(b, unpublished, true, false).1 == PersistFailed
      && status == Applied(g + 1)
      && Load(b2.(blobs := b2.blobs[g + 1 := NotUtf8]))
         == RecoveredPrior(Canon(Stamped(unpublished, g)), Some(g + 1))
  {
    hide Encode, Decode, Canon, WfState;
    var g := Top(b, unpublished) + 1;
    var b1 := Persist(b, unpublished, true, false).0;
    StampedWf(unpublished, g);
    RoundTrip(Stamped(unpublished, g));
    CanonGeneration(Stamped(unpublished, g));
    assert g in b1.blobs.Keys;
    assert Top(b1, published) == g;
  }
}
