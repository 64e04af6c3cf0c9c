/** API prices: the table, which entry a model name gets, and the cost of usage.
    Dollar rates are exact reals rounded to nanodollars per token as the source rounds them. */
module Pricing {
  import opened Wrappers
  import opened UsageTypes
  import Sorting

  const U128_MAX: nat := 0xFFFF_FFFF_FFFF_FFFF_FFFF_FFFF_FFFF_FFFF

  datatype ModelPricing = ModelPricing(
    key: string,
    input: real,
    output: real,
    cachedInput: real,
    cacheRead: real,
    cacheWrite5m: real,
    cacheWrite1h: real,
    longContextThreshold: Option<u64>,
    longContextInputMultiplier: Option<real>,
    longContextOutputMultiplier: Option<real>)

  // ---- the table -----------------------------------------------------------------

  function Entry(key: string, input: real, output: real): ModelPricing {
    ModelPricing(key, input, output, input * 0.1, input * 0.1, input * 1.25, input * 2.0, None, None, None)
  }

  function EntryCached(key: string, input: real, cached: real, output: real): ModelPricing {
    Entry(key, input, output).(cachedInput := cached)
  }

  function EntryCacheRead(key: string, input: real, cacheRead: real, output: real): ModelPricing {
    Entry(key, input, output).(cachedInput := cacheRead, cacheRead := cacheRead)
  }

  function EntryLongContext(key: string, input: real, cached: real, output: real): ModelPricing {
    EntryCached(key, input, cached, output).(
      longContextThreshold := Some(272_000),
      longContextInputMultiplier := Some(2.0),
      longContextOutputMultiplier := Some(1.5))
  }

  /** One price per prompt length: over the threshold every class costs `multiplier` times as much. */
  function EntryPromptTier(key: string, input: real, output: real, threshold: u64, multiplier: real): ModelPricing {
    Entry(key, input, output).(
      longContextThreshold := Some(threshold),
      longContextInputMultiplier := Some(multiplier),
      longContextOutputMultiplier := Some(multiplier))
  }

  function ClaudeFrontier(): seq<ModelPricing> {
    [
      EntryCacheRead("claude-fable-5-1", 10.0, 0.25, 50.0),
      EntryCacheRead("claude-mythos-5-1", 10.0, 0.25, 50.0),
      EntryCacheRead("claude-opus-5-5-fast", 8.0, 0.4, 40.0),
      EntryCacheRead("claude-opus-5.5-fast", 8.0, 0.4, 40.0),
      EntryCacheRead("claude-opus-5-5", 4.0, 0.2, 20.0),
      EntryCacheRead("claude-opus-5.5", 4.0, 0.2, 20.0),
      Entry("claude-fable-5", 10.0, 50.0),
      Entry("claude-mythos-5", 10.0, 50.0),
      Entry("claude-opus-5", 5.0, 25.0),
      Entry("claude-opus-4-8", 5.0, 25.0),
      Entry("claude-opus-4-7", 5.0, 25.0),
      Entry("claude-opus-4-6", 5.0, 25.0),
      Entry("claude-opus-4-5", 5.0, 25.0),
      Entry("claude-opus-4-1", 15.0, 75.0),
      Entry("claude-opus-4", 15.0, 75.0),
      Entry("claude-opus-5-fast", 10.0, 50.0),
      Entry("claude-opus-4-8-fast", 10.0, 50.0),
      Entry("claude-opus-4-7-fast", 30.0, 150.0),
      Entry("claude-opus-4-6-fast", 30.0, 150.0)
    ]
  }

  function ClaudeOthers(): seq<ModelPricing> {
    [
      Entry("claude-sonnet-5-5", 2.0, 10.0),
      Entry("claude-sonnet-5", 2.0, 10.0),
      Entry("claude-sonnet-4-6", 3.0, 15.0),
      Entry("claude-sonnet-4-5", 3.0, 15.0),
      Entry("claude-sonnet-4", 3.0, 15.0),
      Entry("claude-haiku-5-5-long-context", 0.5, 2.5),
      EntryPromptTier("claude-haiku-5-5", 0.1, 0.5, 100_000, 5.0),
      Entry("claude-haiku-4-5", 1.0, 5.0),
      Entry("claude-3-7-sonnet", 3.0, 15.0),
      Entry("claude-3-5-sonnet", 3.0, 15.0),
      Entry("claude-3-5-haiku", 0.8, 4.0),
      Entry("claude-3-opus", 15.0, 75.0),
      Entry("claude-3-sonnet", 3.0, 15.0),
      Entry("claude-3-haiku", 0.25, 1.25)
    ]
  }

  function Gpt5Family(): seq<ModelPricing> {
    [
      EntryLongContext("gpt-6-astra", 10.0, 1.0, 50.0),
      EntryLongContext("gpt-6.1-sol", 2.0, 0.1, 10.0),
      EntryLongContext("gpt-6-sol", 2.0, 0.2, 10.0),
      EntryLongContext("gpt-6-luna", 0.1, 0.01, 0.5),
      EntryLongContext("gpt-5.6-sol", 5.0, 0.5, 30.0),
      EntryLongContext("gpt-5.6-terra", 2.5, 0.25, 15.0),
      EntryLongContext("gpt-5.6-luna", 1.0, 0.1, 6.0),
      EntryLongContext("gpt-5.6", 5.0, 0.5, 30.0),
      EntryLongContext("gpt-5.5-pro", 30.0, 3.0, 180.0),
      EntryLongContext("gpt-5.5", 5.0, 0.5, 30.0),
      EntryLongContext("gpt-5.4-pro", 30.0, 3.0, 180.0),
      EntryCached("gpt-5.4-mini", 0.75, 0.075, 4.5),
      EntryCached("gpt-5.4-nano", 0.2, 0.02, 1.25),
      EntryLongContext("gpt-5.4", 2.5, 0.25, 15.0),
      EntryCached("gpt-5.3-codex", 1.75, 0.175, 14.0),
      EntryCached("gpt-5.2-codex", 1.75, 0.175, 14.0),
      EntryCached("gpt-5.2", 1.75, 0.175, 14.0),
      EntryCached("gpt-5.1-codex-mini", 0.25, 0.025, 2.0),
      EntryCached("gpt-5.1-codex", 1.25, 0.125, 10.0),
      EntryCached("gpt-5.1", 1.25, 0.125, 10.0),
      EntryCached("gpt-5-codex", 1.25, 0.125, 10.0),
      EntryCached("gpt-5-mini", 0.25, 0.025, 2.0),
      EntryCached("gpt-5-nano", 0.05, 0.005, 0.4),
      EntryCached("gpt-5", 1.25, 0.125, 10.0)
    ]
  }

  function OlderOpenAi(): seq<ModelPricing> {
    [
      EntryCached("codex-mini-latest", 1.5, 0.375, 6.0),
      Entry("o3-pro", 20.0, 80.0),
      EntryCached("o3-mini", 1.1, 0.55, 4.4),
      EntryCached("o3", 2.0, 0.5, 8.0),
      EntryCached("o4-mini", 1.1, 0.275, 4.4),
      EntryCached("gpt-4.1-mini", 0.4, 0.1, 1.6),
      EntryCached("gpt-4.1-nano", 0.1, 0.025, 0.4),
      EntryCached("gpt-4.1", 2.0, 0.5, 8.0),
      EntryCached("gpt-4o-mini", 0.15, 0.075, 0.6),
      EntryCached("gpt-4o", 2.5, 1.25, 10.0)
    ]
  }

  function PricingTable(): seq<ModelPricing> {
    ClaudeFrontier() + ClaudeOthers() + Gpt5Family() + OlderOpenAi()
  }

  // ---- which entry ---------------------------------------------------------------

  const LONG_CONTEXT_SUFFIX := "-long-context"

  predicate EndsWith(s: string, suffix: string) {
    |suffix| <= |s| && s[|s| - |suffix|..] == suffix
  }

  predicate SuffixMatches(model: string, key: string, suffix: string) {
    && EndsWith(key, suffix) && EndsWith(model, suffix)
    && key[..|key| - |suffix|] <= model[..|model| - |suffix|]
  }

  /** A prefix match, or a SKU suffix on a dated model. */
  predicate ModelMatches(model: string, key: string) {
    key <= model || SuffixMatches(model, key, "-fast") || SuffixMatches(model, key, LONG_CONTEXT_SUFFIX)
  }

  function FindExact(table: seq<ModelPricing>, model: string): Option<ModelPricing>
    decreases |table|
  {
    if table == [] then None else if table[0].key == model then Some(table[0]) else FindExact(table[1..], model)
  }

  /** The longest matching key; the last of equals. */
  function LongestMatch(table: seq<ModelPricing>, model: string): Option<ModelPricing>
    decreases |table|
  {
    if table == [] then None
    else
      var last := table[|table| - 1];
      var best := LongestMatch(table[..|table| - 1], model);
      if ModelMatches(model, last.key) && (best.None? || |best.value.key| <= |last.key|) then Some(last) else best
  }

  function Listed(table: seq<ModelPricing>, model: string): Option<ModelPricing> {
    if FindExact(table, model).Some? then FindExact(table, model) else LongestMatch(table, model)
  }

  /** Price changes with a date; the day is compared as text. */
  function Revised(p: ModelPricing, day: Option<string>): ModelPricing {
    if day.None? then p
    else if p.key == "gpt-5.6-terra" && Sorting.StrLe("2026-07-30", day.value) then
      p.(input := 2.0, cachedInput := 0.2, output := 12.0)
    else if p.key == "gpt-5.6-luna" && Sorting.StrLe("2026-07-30", day.value) then
      p.(input := 0.2, cachedInput := 0.02, output := 1.2)
    else if p.key == "gpt-5.6-sol" && Sorting.StrLe("2026-08-21", day.value) then
      p.(input := 4.0, output := 20.0, cachedInput := 0.4, cacheRead := 0.4, cacheWrite5m := 5.0, cacheWrite1h := 8.0)
    else p
  }

  function ResolvePricing(table: seq<ModelPricing>, model: string, day: Option<string>): Option<ModelPricing> {
    match Listed(table, model)
    case None => None
    case Some(p) => Some(Revised(p, day))
  }

  predicate IsLongContextRequest(table: seq<ModelPricing>, model: string, inputTokens: u64) {
    match ResolvePricing(table, model, None)
    case None => false
    case Some(p) => p.longContextThreshold.Some? && inputTokens > p.longContextThreshold.value
  }

  function ClaudePricingModel(table: seq<ModelPricing>, model: string, promptTokens: u64): string {
    if IsLongContextRequest(table, model, promptTokens) then model + LONG_CONTEXT_SUFFIX else model
  }

  // ---- the cost ------------------------------------------------------------------

  /** A thousand nanodollars per token for a dollar per million, half away from zero. */
  function NanosPerToken(usdPerMtok: real): Option<u64> {
    if usdPerMtok < 0.0 then None
    else
      var nanos := (usdPerMtok * 1_000.0 + 0.5).Floor;
      if nanos > U64_MAX + 1 then None else Some(Min(nanos, U64_MAX))
  }

  datatype Charge = Charge(tokens: u64, usdPerMtok: real)

  function Premium(multiplier: Option<real>): real {
    multiplier.GetOr(1.0) - 1.0
  }

  /** Long-context tokens are charged again, at the premium over the base rate. */
  function Charges(p: ModelPricing, u: TokenUsage): (charges: seq<Charge>)
    ensures |charges| == 12
  {
    var inPremium, outPremium := Premium(p.longContextInputMultiplier), Premium(p.longContextOutputMultiplier);
    [
      Charge(u.input, p.input),
      Charge(u.cachedInput, p.cachedInput),
      Charge(u.cacheRead, p.cacheRead),
      Charge(u.cacheWrite5m, p.cacheWrite5m),
      Charge(u.cacheWrite1h, p.cacheWrite1h),
      Charge(u.output, p.output),
      Charge(u.longContextInput, p.input * inPremium),
      Charge(u.longContextCachedInput, p.cachedInput * inPremium),
      Charge(u.longContextCacheRead, p.cacheRead * inPremium),
      Charge(u.longContextCacheWrite5m, p.cacheWrite5m * inPremium),
      Charge(u.longContextCacheWrite1h, p.cacheWrite1h * inPremium),
      Charge(u.longContextOutput, p.output * outPremium)
    ]
  }

  predicate Chargeable(charges: seq<Charge>) {
    forall i :: 0 <= i < |charges| ==> NanosPerToken(charges[i].usdPerMtok).Some?
  }

  /** The exact sum, unbounded. */
  function Sum(charges: seq<Charge>): nat
    requires Chargeable(charges)
    decreases |charges|
  {
    if charges == [] then 0
    else
      var last := charges[|charges| - 1];
      Sum(charges[..|charges| - 1]) + last.tokens * NanosPerToken(last.usdPerMtok).value
  }

  /** The cost, if every rate is a price and the sum fits 64 bits. */
  function Cost(p: ModelPricing, u: TokenUsage): Option<u64> {
    var charges := Charges(p, u);
    if !Chargeable(charges) || Sum(charges) > U64_MAX then None else Some(Sum(charges))
  }

  function SaturatingAccumulate(total: nat, product: nat): nat {
    Min(total + Min(product, U128_MAX), U128_MAX)
  }

  /** The accumulator saturates at 128 bits; no sum that fits 64 is affected. */
  method CostNanos(table: seq<ModelPricing>, model: string, usage: TokenUsage, effectiveDay: Option<string>)
    returns (r: Option<u64>)
    ensures var p := ResolvePricing(table, model, effectiveDay);
      r == if p.None? then None else Cost(p.value, usage)
  {
    var pricing := ResolvePricing(table, model, effectiveDay);
    if pricing.None? {
      return None;
    }
    r := Accumulate(Charges(pricing.value, usage));
  }

  method Accumulate(charges: seq<Charge>) returns (r: Option<u64>)
    ensures r == if !Chargeable(charges) || Sum(charges) > U64_MAX then None else Some(Sum(charges))
  {
    var total: nat := 0;
    for i := 0 to |charges|
      invariant Chargeable(charges[..i]) && total == Min(Sum(charges[..i]), U128_MAX)
    {
      var nanosPerToken := NanosPerToken(charges[i].usdPerMtok);
      if nanosPerToken.None? {
        return None;
      }
      assert charges[..i + 1][..i] == charges[..i];
      total := SaturatingAccumulate(total, charges[i].tokens * nanosPerToken.value);
    }
    assert charges[..|charges|] == charges;
    return if total <= U64_MAX then Some(total) else None;
  }
}
