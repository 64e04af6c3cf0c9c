/** Nanodollars and the display cents rounded from them. */
module Money {
  import opened Wrappers

  const NANOS_PER_CENT: nat := 10_000_000

  /** Half-up cents, capped at the width of the display field. */
  function DisplayCents(nanos: nat): u32 {
    var rounded := (nanos + NANOS_PER_CENT / 2) / NANOS_PER_CENT;
    if rounded <= U32_MAX then rounded else U32_MAX
  }

  /** Cents without nanos come from before nanos were stored. */
  function PersistedNanos(cents: u32, nanos: u64): u64 {
    if nanos == 0 && cents > 0 then cents * NANOS_PER_CENT else nanos
  }

  /** The stored pair is accepted back exactly when the nanos are missing or
      round to the cents. */
  lemma PersistedNanosAccepted(cents: u32, nanos: u64)
    ensures DisplayCents(PersistedNanos(cents, nanos)) == cents <==> nanos == 0 || DisplayCents(nanos) == cents
    ensures PersistedNanos(cents, PersistedNanos(cents, nanos)) == PersistedNanos(cents, nanos)
  {
  }

  /** One rounding of an unrounded total is off by at most half a cent below the cap. */
  lemma RoundingError(nanos: nat)
    ensures DisplayCents(nanos) < U32_MAX ==>
      -(NANOS_PER_CENT / 2) <= DisplayCents(nanos) * NANOS_PER_CENT - nanos <= NANOS_PER_CENT / 2
    ensures DisplayCents(nanos) == U32_MAX <==> nanos >= U32_MAX * NANOS_PER_CENT - NANOS_PER_CENT / 2
  {
  }
}
