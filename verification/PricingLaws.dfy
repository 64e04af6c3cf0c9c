/** Laws of the prices: costs add up, the longest name wins, the two ways of
    charging a long prompt agree, and dated revisions start on their date. */
module PricingLaws {
  import opened Wrappers
  import opened UsageTypes
  import opened Pricing
  import opened Calendar
  import Text
  import Sorting

  // ---- costs add up --------------------------------------------------------------

  predicate AddsWithin64(u: TokenUsage, v: TokenUsage) {
    && u.input + v.input <= U64_MAX && u.cachedInput + v.cachedInput <= U64_MAX
    && u.cacheRead + v.cacheRead <= U64_MAX && u.cacheWrite5m + v.cacheWrite5m <= U64_MAX
    && u.cacheWrite1h + v.cacheWrite1h <= U64_MAX && u.output + v.output <= U64_MAX
    && u.longContextInput + v.longContextInput <= U64_MAX
    && u.longContextCachedInput + v.longContextCachedInput <= U64_MAX
    && u.longContextOutput + v.longContextOutput <= U64_MAX
    && u.longContextCacheRead + v.longContextCacheRead <= U64_MAX
    && u.longContextCacheWrite5m + v.longContextCacheWrite5m <= U64_MAX
    && u.longContextCacheWrite1h + v.longContextCacheWrite1h <= U64_MAX
  }

  function Add(u: TokenUsage, v: TokenUsage): TokenUsage
    requires AddsWithin64(u, v)
  {
    TokenUsage(
      u.input + v.input, u.cachedInput + v.cachedInput, u.cacheRead + v.cacheRead,
      u.cacheWrite5m + v.cacheWrite5m, u.cacheWrite1h + v.cacheWrite1h, u.output + v.output,
      u.longContextInput + v.longContextInput, u.longContextCachedInput + v.longContextCachedInput,
      u.longContextOutput + v.longContextOutput, u.longContextCacheRead + v.longContextCacheRead,
      u.longContextCacheWrite5m + v.longContextCacheWrite5m, u.longContextCacheWrite1h + v.longContextCacheWrite1h)
  }

  lemma Distribute(a: nat, b: nat, rate: nat)
    ensures (a + b) * rate == a * rate + b * rate
  {
  }

  lemma {:induction false} SumsAdd(a: seq<Charge>, b: seq<Charge>, c: seq<Charge>)
    requires |a| == |b| == |c| && Chargeable(a) && Chargeable(b) && Chargeable(c)
    requires forall i :: 0 <= i < |a| ==>
      c[i].tokens == a[i].tokens + b[i].tokens && a[i].usdPerMtok == b[i].usdPerMtok == c[i].usdPerMtok
    ensures Sum(c) == Sum(a) + Sum(b)
    decreases |a|
  {
    hide NanosPerToken;
    if a != [] {
      var n := |a| - 1;
      SumsAdd(a[..n], b[..n], c[..n]);
      Distribute(a[n].tokens, b[n].tokens, NanosPerToken(a[n].usdPerMtok).value);
    }
  }

  /** The cost of a sum is the sum of the costs; it exists exactly when both do
      and their sum fits 64 bits. */
  lemma CostAdditive(p: ModelPricing, u: TokenUsage, v: TokenUsage)
    requires AddsWithin64(u, v)
    ensures var (cu, cv) := (Cost(p, u), Cost(p, v));
      Cost(p, Add(u, v)) ==
      if cu.Some? && cv.Some? && cu.value + cv.value <= U64_MAX then Some(cu.value + cv.value) else None
  {
    hide NanosPerToken, Premium;
    var a, b, c := Charges(p, u), Charges(p, v), Charges(p, Add(u, v));
    assert |a| == |b| == |c| == 12;
    assert forall i :: 0 <= i < 12 ==>
        c[i].tokens == a[i].tokens + b[i].tokens && a[i].usdPerMtok == b[i].usdPerMtok == c[i].usdPerMtok;
    SameRates(a, b, c);
    hide Charges;
    if Chargeable(c) {
      SumsAdd(a, b, c);
    }
  }

  lemma SameRates(a: seq<Charge>, b: seq<Charge>, c: seq<Charge>)
    requires |a| == |b| == |c|
    requires forall i :: 0 <= i < |a| ==> a[i].usdPerMtok == b[i].usdPerMtok == c[i].usdPerMtok
    ensures Chargeable(a) == Chargeable(b) == Chargeable(c)
  {
    hide NanosPerToken;
    if Chargeable(a) {
      forall i | 0 <= i < |c| ensures NanosPerToken(b[i].usdPerMtok).Some? && NanosPerToken(c[i].usdPerMtok).Some? {
        assert NanosPerToken(a[i].usdPerMtok).Some?;
      }
    }
    if Chargeable(b) {
      forall i | 0 <= i < |c| ensures NanosPerToken(a[i].usdPerMtok).Some? {
        assert NanosPerToken(b[i].usdPerMtok).Some?;
      }
    }
    if Chargeable(c) {
      forall i | 0 <= i < |c| ensures NanosPerToken(b[i].usdPerMtok).Some? {
        assert NanosPerToken(c[i].usdPerMtok).Some?;
      }
    }
  }

  // ---- which entry ---------------------------------------------------------------

  /** The fallback finds a match if there is one, and no longer key matches. */
  lemma {:induction false} LongestMatchIs(table: seq<ModelPricing>, model: string)
    ensures LongestMatch(table, model).None? <==> forall e :: e in table ==> !ModelMatches(model, e.key)
    ensures LongestMatch(table, model).Some? ==>
      var best := LongestMatch(table, model).value;
      && best in table && ModelMatches(model, best.key)
      && forall e :: e in table && ModelMatches(model, e.key) ==> |e.key| <= |best.key|
    decreases |table|
  {
    hide ModelMatches;
    if table != [] {
      var rest := table[..|table| - 1];
      LongestMatchIs(rest, model);
      assert table == rest + [table[|table| - 1]];
    }
  }

  lemma {:induction false} FindExactIs(table: seq<ModelPricing>, model: string)
    ensures FindExact(table, model).None? <==> forall e :: e in table ==> e.key != model
    ensures FindExact(table, model).Some? ==>
      FindExact(table, model).value in table && FindExact(table, model).value.key == model
    decreases |table|
  {
    if table != [] {
      FindExactIs(table[1..], model);
      assert table == [table[0]] + table[1..];
    }
  }

  /** A listed name is priced by an entry of exactly that name if there is one,
      and otherwise by a matching entry that no matching key exceeds. */
  lemma ListedIs(table: seq<ModelPricing>, model: string)
    ensures Listed(table, model).None? <==> forall e :: e in table ==> !ModelMatches(model, e.key)
    ensures Listed(table, model).Some? ==>
      var p := Listed(table, model).value;
      && p in table && ModelMatches(model, p.key)
      && (p.key == model || forall e :: e in table ==> e.key != model)
      && forall e :: e in table && ModelMatches(model, e.key) ==> |e.key| <= |p.key|
  {
    hide SuffixMatches;
    FindExactIs(table, model);
    LongestMatchIs(table, model);
    hide FindExact, LongestMatch;
    forall e | e in table && ModelMatches(model, e.key) ensures |e.key| <= |model| {
      MatchIsNoLonger(model, e.key);
    }
  }

  lemma MatchIsNoLonger(model: string, key: string)
    requires ModelMatches(model, key)
    ensures |key| <= |model|
  {
  }

  // ---- two ways to charge a long prompt ------------------------------------------

  /** `long` is the long-context SKU of `tier`, and the longest name in the table. */
  ghost predicate TierPair(table: seq<ModelPricing>, tier: ModelPricing, long: ModelPricing) {
    && tier in table && long in table
    && long.key == tier.key + LONG_CONTEXT_SUFFIX
    && !EndsWith(tier.key, "-fast") && !EndsWith(tier.key, LONG_CONTEXT_SUFFIX)
    && (forall e :: e in table && |e.key| >= |long.key| ==> e == long)
  }

  /** A name priced by the tiered entry gets the long-context SKU once the suffix
      is appended, dated or not. */
  lemma SuffixedIsLong(table: seq<ModelPricing>, tier: ModelPricing, long: ModelPricing, model: string)
    requires TierPair(table, tier, long) && Listed(table, model) == Some(tier)
    ensures Listed(table, model + LONG_CONTEXT_SUFFIX) == Some(long)
  {
    var longModel := model + LONG_CONTEXT_SUFFIX;
    hide FindExact, LongestMatch;
    ListedIs(table, model);
    ListedIs(table, longModel);
    assert tier.key <= model;
    assert longModel[..|longModel| - |LONG_CONTEXT_SUFFIX|] == model;
    assert longModel[|longModel| - |LONG_CONTEXT_SUFFIX|..] == LONG_CONTEXT_SUFFIX;
    assert long.key[..|long.key| - |LONG_CONTEXT_SUFFIX|] == tier.key;
    assert long.key[|long.key| - |LONG_CONTEXT_SUFFIX|..] == LONG_CONTEXT_SUFFIX;
    assert SuffixMatches(longModel, long.key, LONG_CONTEXT_SUFFIX);
    assert ModelMatches(longModel, long.key);
    hide Listed;
  }

  /** Every token is also a long-context token. */
  function AllLong(u: TokenUsage): TokenUsage {
    u.(longContextInput := u.input, longContextCachedInput := u.cachedInput, longContextOutput := u.output,
       longContextCacheRead := u.cacheRead, longContextCacheWrite5m := u.cacheWrite5m,
       longContextCacheWrite1h := u.cacheWrite1h)
  }

  /** A rate of a whole number of nanodollars, not past 64 bits. */
  predicate WholeNanos(rate: real, nanos: u64) {
    rate * 1_000.0 == nanos as real
  }

  /** The six price classes, in charging order. */
  function Classes(p: ModelPricing): (c: seq<real>)
    ensures |c| == 6
  {
    [p.input, p.cachedInput, p.cacheRead, p.cacheWrite5m, p.cacheWrite1h, p.output]
  }

  predicate HasRates(p: ModelPricing, nanos: seq<u64>) {
    |nanos| == 6 && forall i :: 0 <= i < 6 ==> WholeNanos(Classes(p)[i], nanos[i])
  }

  /** Every rate stays within 64 bits when scaled. */
  predicate FitsTimes(nanos: seq<u64>, k: nat) {
    forall i :: 0 <= i < |nanos| ==> nanos[i] * k <= U64_MAX
  }

  /** `long` charges `k` times as much for everything, and no premium. */
  predicate Scaled(tier: ModelPricing, long: ModelPricing, k: nat) {
    && k >= 1
    && tier.longContextInputMultiplier == tier.longContextOutputMultiplier == Some(k as real)
    && long.longContextInputMultiplier == long.longContextOutputMultiplier == None
    && long.input == tier.input * k as real && long.cachedInput == tier.cachedInput * k as real
    && long.cacheRead == tier.cacheRead * k as real && long.cacheWrite5m == tier.cacheWrite5m * k as real
    && long.cacheWrite1h == tier.cacheWrite1h * k as real && long.output == tier.output * k as real
  }

  /** Base rate and premium add up to the scaled rate. */
  lemma RatesSplit(rate: real, nanos: u64, k: nat)
    requires k >= 1 && WholeNanos(rate, nanos) && nanos * k <= U64_MAX
    ensures NanosPerToken(rate) == Some(nanos)
    ensures NanosPerToken(rate * (k as real - 1.0)) == Some(nanos * (k - 1))
    ensures NanosPerToken(rate * k as real) == Some(nanos * k)
  {
    WholeProduct(rate, nanos, k);
    WholeProduct(rate, nanos, k - 1);
    assert (k - 1) as real == k as real - 1.0;
    WholeRate(rate, nanos);
    WholeRate(rate * k as real, nanos * k);
    WholeRate(rate * (k - 1) as real, nanos * (k - 1));
  }

  lemma WholeProduct(rate: real, nanos: u64, k: nat)
    requires WholeNanos(rate, nanos) && nanos * k <= U64_MAX
    ensures WholeNanos(rate * k as real, nanos * k)
  {
    assert rate * k as real * 1_000.0 == rate * 1_000.0 * k as real;
    assert nanos as real * k as real == (nanos * k) as real;
  }

  lemma WholeRate(rate: real, nanos: u64)
    requires WholeNanos(rate, nanos)
    ensures NanosPerToken(rate) == Some(nanos)
  {
  }

  lemma {:induction false} SumConcat(a: seq<Charge>, b: seq<Charge>)
    ensures Chargeable(a + b) <==> Chargeable(a) && Chargeable(b)
    ensures Chargeable(a + b) ==> Sum(a + b) == Sum(a) + Sum(b)
    decreases |b|
  {
    hide NanosPerToken;
    if b == [] {
      assert a + b == a;
    } else {
      var n := |b| - 1;
      SumConcat(a, b[..n]);
      assert (a + b)[..|a| + n] == a + b[..n];
      assert a + b == a + b[..n] + [b[n]] && b == b[..n] + [b[n]];
    }
  }

  predicate Priced(c: seq<Charge>, n: seq<nat>) {
    |c| == |n| && forall i :: 0 <= i < |c| ==> n[i] <= U64_MAX && NanosPerToken(c[i].usdPerMtok) == Some(n[i])
  }

  lemma {:induction false} RatesAdd(a: seq<Charge>, b: seq<Charge>, c: seq<Charge>, n: seq<nat>, extra: seq<nat>, both: seq<nat>)
    requires Priced(a, n) && Priced(b, extra) && Priced(c, both) && |a| == |b| == |c|
    requires forall i :: 0 <= i < |a| ==> a[i].tokens == b[i].tokens == c[i].tokens && both[i] == n[i] + extra[i]
    ensures Chargeable(a) && Chargeable(b) && Chargeable(c) && Sum(c) == Sum(a) + Sum(b)
    decreases |a|
  {
    hide NanosPerToken;
    if a != [] {
      var k := |a| - 1;
      RatesAdd(a[..k], b[..k], c[..k], n[..k], extra[..k], both[..k]);
      Distribute(n[k], extra[k], a[k].tokens);
    }
  }

  lemma {:induction false} FreeCharges(c: seq<Charge>)
    requires forall i :: 0 <= i < |c| ==> c[i].usdPerMtok == 0.0
    ensures Chargeable(c) && Sum(c) == 0
    decreases |c|
  {
    if c != [] {
      FreeCharges(c[..|c| - 1]);
    }
  }

  function Times(r: seq<nat>, k: nat): (t: seq<nat>)
    ensures |t| == |r| && forall i :: 0 <= i < |r| ==> t[i] == r[i] * k
  {
    seq(|r|, i requires 0 <= i < |r| => r[i] * k)
  }

  /** Each class at its base rate, then each again at the premium. */
  lemma ChargedClasses(p: ModelPricing, u: TokenUsage, premium: real)
    requires Premium(p.longContextInputMultiplier) == Premium(p.longContextOutputMultiplier) == premium
    ensures forall i :: 0 <= i < 6 ==> Charges(p, u)[..6][i].usdPerMtok == Classes(p)[i]
    ensures forall i :: 0 <= i < 6 ==> Charges(p, u)[6..][i].usdPerMtok == Classes(p)[i] * premium
  {
  }

  lemma ClassRate(rate: real, premium: real, scaled: real, nanos: seq<u64>, k: nat, i: nat)
    requires k >= 1 && FitsTimes(nanos, k) && i < |nanos| && WholeNanos(rate, nanos[i])
    requires premium == rate * (k as real - 1.0) && scaled == rate * k as real
    ensures NanosPerToken(rate) == Some(nanos[i])
    ensures Times(nanos, k - 1)[i] <= Times(nanos, k)[i] <= U64_MAX
    ensures NanosPerToken(premium) == Some(Times(nanos, k - 1)[i])
    ensures NanosPerToken(scaled) == Some(Times(nanos, k)[i])
  {
    hide NanosPerToken, WholeNanos;
    var n := nanos[i];
    assert n * k <= U64_MAX;
    Distribute(1, k - 1, n);
    RatesSplit(rate, n, k);
    assert Times(nanos, k)[i] == n * k && Times(nanos, k - 1)[i] == n * (k - 1);
  }

  lemma BaseRates(p: ModelPricing, nanos: seq<u64>, k: nat, u: TokenUsage)
    requires k >= 1 && HasRates(p, nanos) && FitsTimes(nanos, k)
    requires p.longContextInputMultiplier == p.longContextOutputMultiplier == Some(k as real)
    ensures Priced(Charges(p, u)[..6], nanos)
    ensures Priced(Charges(p, u)[6..], Times(nanos, k - 1))
  {
    hide NanosPerToken, FitsTimes, Charges, Classes, WholeNanos;
    ChargedClasses(p, u, k as real - 1.0);
    forall i | 0 <= i < 6
      ensures NanosPerToken(Charges(p, u)[..6][i].usdPerMtok) == Some(nanos[i])
      ensures NanosPerToken(Charges(p, u)[6..][i].usdPerMtok) == Some(Times(nanos, k - 1)[i])
      ensures Times(nanos, k - 1)[i] <= U64_MAX
    {
      ClassRate(Charges(p, u)[..6][i].usdPerMtok, Charges(p, u)[6..][i].usdPerMtok, Classes(p)[i] * k as real, nanos, k, i);
    }
  }

  lemma ScaledRates(tier: ModelPricing, long: ModelPricing, nanos: seq<u64>, k: nat, u: TokenUsage)
    requires Scaled(tier, long, k) && HasRates(tier, nanos) && FitsTimes(nanos, k)
    ensures Priced(Charges(long, u)[..6], Times(nanos, k))
  {
    hide NanosPerToken, FitsTimes, Charges, WholeNanos;
    ChargedClasses(long, u, 0.0);
    assert forall i :: 0 <= i < 6 ==> Classes(long)[i] == Classes(tier)[i] * k as real;
    hide Classes;
    forall i | 0 <= i < 6
      ensures NanosPerToken(Charges(long, u)[..6][i].usdPerMtok) == Some(Times(nanos, k)[i])
      ensures Times(nanos, k)[i] <= U64_MAX
    {
      ClassRate(Classes(tier)[i], Classes(tier)[i] * (k as real - 1.0), Charges(long, u)[..6][i].usdPerMtok, nanos, k, i);
    }
  }

  lemma TokensAgree(tier: ModelPricing, long: ModelPricing, u: TokenUsage)
    ensures forall i :: 0 <= i < 6 ==>
      Charges(tier, AllLong(u))[..6][i].tokens == Charges(tier, AllLong(u))[6..][i].tokens == Charges(long, u)[..6][i].tokens
  {
  }

  lemma NoPremium(long: ModelPricing, u: TokenUsage)
    requires long.longContextInputMultiplier == long.longContextOutputMultiplier == None
    ensures forall i :: 0 <= i < 6 ==> Charges(long, u)[6..][i].usdPerMtok == 0.0
  {
  }

  /** Marking every token long-context under the tiered entry costs what the
      long-context entry charges, for every usage; both fail to fit together. */
  lemma LongTierAgrees(tier: ModelPricing, long: ModelPricing, nanos: seq<u64>, k: nat, u: TokenUsage)
    requires Scaled(tier, long, k) && HasRates(tier, nanos) && FitsTimes(nanos, k)
    ensures Cost(tier, AllLong(u)) == Cost(long, u)
  {
    var inTier, inLong := Charges(tier, AllLong(u)), Charges(long, u);
    BaseRates(tier, nanos, k, AllLong(u));
    ScaledRates(tier, long, nanos, k, u);
    TokensAgree(tier, long, u);
    NoPremium(long, u);
    hide NanosPerToken, HasRates, Charges, AllLong, FitsTimes, Scaled;
    FreeCharges(inLong[6..]);
    SumConcat(inTier[..6], inTier[6..]);
    SumConcat(inLong[..6], inLong[6..]);
    assert inTier == inTier[..6] + inTier[6..] && inLong == inLong[..6] + inLong[6..];
    Spread(nanos, k);
    RatesAdd(inTier[..6], inTier[6..], inLong[..6], nanos, Times(nanos, k - 1), Times(nanos, k));
  }

  lemma Spread(n: seq<nat>, k: nat)
    requires k >= 1
    ensures forall i :: 0 <= i < |n| ==> Times(n, k)[i] == n[i] + Times(n, k - 1)[i]
  {
    forall i | 0 <= i < |n| ensures Times(n, k)[i] == n[i] + Times(n, k - 1)[i] {
      Distribute(1, k - 1, n[i]);
    }
  }

  // ---- the table's tiered model --------------------------------------------------

  function HaikuTier(): ModelPricing {
    EntryPromptTier("claude-haiku-5-5", 0.1, 0.5, 100_000, 5.0)
  }

  function HaikuLong(): ModelPricing {
    Entry("claude-haiku-5-5-long-context", 0.5, 2.5)
  }

  lemma HaikuPrices()
    ensures Scaled(HaikuTier(), HaikuLong(), 5)
    ensures HasRates(HaikuTier(), [100, 10, 10, 125, 200, 500]) && FitsTimes([100, 10, 10, 125, 200, 500], 5)
  {
    var nanos: seq<u64> := [100, 10, 10, 125, 200, 500];
    forall i | 0 <= i < 6 ensures WholeNanos(Classes(HaikuTier())[i], nanos[i]) {
      assert i in {0, 1, 2, 3, 4, 5};
    }
  }

  lemma FrontierShorter(e: ModelPricing)
    requires e in ClaudeFrontier()
    ensures |e.key| < 29
  {
  }

  lemma OthersShorter(e: ModelPricing)
    requires e in ClaudeOthers() && e != HaikuLong()
    ensures |e.key| < 29
  {
  }

  lemma Gpt5Shorter(e: ModelPricing)
    requires e in Gpt5Family()
    ensures |e.key| < 29
  {
  }

  lemma OpenAiShorter(e: ModelPricing)
    requires e in OlderOpenAi()
    ensures |e.key| < 29
  {
  }

  lemma HaikuListed()
    ensures HaikuLong() in ClaudeOthers() && HaikuTier() in ClaudeOthers()
    ensures |HaikuLong().key| == 29 && HaikuLong().key == HaikuTier().key + LONG_CONTEXT_SUFFIX
    ensures !EndsWith(HaikuTier().key, "-fast") && !EndsWith(HaikuTier().key, LONG_CONTEXT_SUFFIX)
  {
    assert ClaudeOthers()[5] == HaikuLong() && ClaudeOthers()[6] == HaikuTier();
    hide ClaudeOthers;
    HaikuNames();
  }

  lemma HaikuNames()
    ensures |HaikuLong().key| == 29 && HaikuLong().key == HaikuTier().key + LONG_CONTEXT_SUFFIX
    ensures !EndsWith(HaikuTier().key, "-fast") && !EndsWith(HaikuTier().key, LONG_CONTEXT_SUFFIX)
  {
    var k := HaikuTier().key;
    assert k[|k| - 1] == '5' && "-fast"[4] == 't' && LONG_CONTEXT_SUFFIX[12] == 't';
  }

  lemma HaikuPair()
    ensures TierPair(PricingTable(), HaikuTier(), HaikuLong())
  {
    HaikuListed();
    hide ClaudeFrontier, ClaudeOthers, Gpt5Family, OlderOpenAi, HaikuLong, HaikuTier, EndsWith;
    var t := PricingTable();
    forall e | e in t && |e.key| >= 29 ensures e == HaikuLong() {
      if e in ClaudeFrontier() {
        FrontierShorter(e);
      } else if e in ClaudeOthers() {
        if e != HaikuLong() {
          OthersShorter(e);
        }
      } else if e in Gpt5Family() {
        Gpt5Shorter(e);
      } else {
        OpenAiShorter(e);
      }
    }
  }

  /** A prompt over the threshold of any name priced as `claude-haiku-5-5`, dated or
      not: its long-context SKU costs what the base name charges with every token
      marked long-context, on every day; the SKU is not suffixed again. */
  lemma LongPromptCosts(model: string, promptTokens: u64, u: TokenUsage, day: Option<string>)
    requires Listed(PricingTable(), model) == Some(HaikuTier())
    ensures var priced := ClaudePricingModel(PricingTable(), model, promptTokens);
      && priced == (if promptTokens > 100_000 then model + LONG_CONTEXT_SUFFIX else model)
      && ClaudePricingModel(PricingTable(), priced, promptTokens) == priced
    ensures var base := ResolvePricing(PricingTable(), model, day);
      var long := ResolvePricing(PricingTable(), model + LONG_CONTEXT_SUFFIX, day);
      base.Some? && long.Some? && Cost(long.value, u) == Cost(base.value, AllLong(u))
  {
    var t := PricingTable();
    HaikuPair();
    hide PricingTable, Listed;
    SuffixedIsLong(t, HaikuTier(), HaikuLong(), model);
    HaikuPrices();
    NotRevised(HaikuTier(), day);
    NotRevised(HaikuLong(), day);
    hide Cost, AllLong, TierPair, Scaled, HasRates, FitsTimes;
    LongTierAgrees(HaikuTier(), HaikuLong(), [100, 10, 10, 125, 200, 500], 5, u);
    hide Revised;
  }

  lemma NotRevised(p: ModelPricing, day: Option<string>)
    requires p.key != [] && p.key[0] == 'c'
    ensures Revised(p, day) == p && Revised(p, None) == p
  {
  }

  // ---- dated revisions -----------------------------------------------------------

  /** `YYYY-MM-DD`, for the years of four digits. */
  function YmdIso(d: Date): string
    requires 0 <= d.year <= 9_999 && 0 <= d.month <= 99 && 0 <= d.day <= 99
  {
    Text.Fixed(d.year, 4, 10) + "-" + Text.Fixed(d.month, 2, 10) + "-" + Text.Fixed(d.day, 2, 10)
  }

  /** Text order of two numbers of the same width, followed by anything. */
  lemma {:induction false} FixedOrder(a: nat, b: nat, width: nat, x: string, y: string)
    requires a < Text.Power(10, width) && b < Text.Power(10, width)
    ensures Sorting.StrLe(Text.Fixed(a, width, 10) + x, Text.Fixed(b, width, 10) + y) <==>
            a < b || (a == b && Sorting.StrLe(x, y))
    decreases width
  {
    if width == 0 {
      assert Text.Fixed(a, 0, 10) + x == x && Text.Fixed(b, 0, 10) + y == y;
    } else {
      Text.DivBelow(a, 10, Text.Power(10, width - 1));
      Text.DivBelow(b, 10, Text.Power(10, width - 1));
      var ca, cb := Text.DigitChar(a % 10), Text.DigitChar(b % 10);
      FixedOrder(a / 10, b / 10, width - 1, [ca] + x, [cb] + y);
      assert Text.Fixed(a, width, 10) + x == Text.Fixed(a / 10, width - 1, 10) + ([ca] + x);
      assert Text.Fixed(b, width, 10) + y == Text.Fixed(b / 10, width - 1, 10) + ([cb] + y);
      assert ([ca] + x)[1..] == x && ([cb] + y)[1..] == y;
      DigitCharOrder(a % 10, b % 10);
    }
  }

  lemma DigitCharOrder(a: nat, b: nat)
    requires a < 10 && b < 10
    ensures Text.DigitChar(a) < Text.DigitChar(b) <==> a < b
    ensures Text.DigitChar(a) == Text.DigitChar(b) <==> a == b
  {
  }

  lemma IsoParts(d: Date)
    requires ValidDate(d) && 0 <= d.year <= 9_999
    ensures YmdIso(d) ==
            Text.Fixed(d.year, 4, 10) + ("-" + (Text.Fixed(d.month, 2, 10) + ("-" + (Text.Fixed(d.day, 2, 10) + ""))))
  {
    hide Text.Fixed, IsLeap;
  }

  /** Days compare as text exactly as they compare as dates. */
  lemma IsoOrder(a: Date, b: Date)
    requires ValidDate(a) && 0 <= a.year <= 9_999 && ValidDate(b) && 0 <= b.year <= 9_999
    ensures Sorting.StrLe(YmdIso(a), YmdIso(b)) <==> !Before(b, a)
  {
    assert Text.Power(10, 4) == 10_000 && Text.Power(10, 2) == 100;
    IsoParts(a);
    IsoParts(b);
    assert a.day <= 31 && b.day <= 31;
    assert Sorting.StrLe("", "");
    hide Text.Fixed, Sorting.StrLe, Text.Power, YmdIso, ValidDate;
    var ad, bd := Text.Fixed(a.day, 2, 10) + "", Text.Fixed(b.day, 2, 10) + "";
    var am, bm := Text.Fixed(a.month, 2, 10) + ("-" + ad), Text.Fixed(b.month, 2, 10) + ("-" + bd);
    FixedOrder(a.day, b.day, 2, "", "");
    FixedOrder(a.month, b.month, 2, "-" + ad, "-" + bd);
    FixedOrder(a.year, b.year, 4, "-" + am, "-" + bm);
    Dashed(ad, bd);
    Dashed(am, bm);
  }

  lemma Dashed(x: string, y: string)
    ensures Sorting.StrLe("-" + x, "-" + y) <==> Sorting.StrLe(x, y)
  {
    assert ("-" + x)[1..] == x && ("-" + y)[1..] == y;
  }

  /** The revised prices of `gpt-5.6-sol` hold from 21 August 2026 on, and those
      of the other two from 30 July, whatever the calendar says in between. */
  lemma RevisionsStartOnTheirDay(p: ModelPricing, d: Date)
    requires ValidDate(d) && 0 <= d.year <= 9_999
    ensures p.key == "gpt-5.6-sol" ==>
      Revised(p, Some(YmdIso(d))) == (if Before(d, Date(2026, 8, 21)) then p else
        p.(input := 4.0, output := 20.0, cachedInput := 4.0 * 0.1, cacheRead := 4.0 * 0.1,
           cacheWrite5m := 4.0 * 1.25, cacheWrite1h := 4.0 * 2.0))
    ensures p.key == "gpt-5.6-terra" ==>
      Revised(p, Some(YmdIso(d))) == (if Before(d, Date(2026, 7, 30)) then p else
        p.(input := 2.0, cachedInput := 0.2, output := 12.0))
    ensures p.key == "gpt-5.6-luna" ==>
      Revised(p, Some(YmdIso(d))) == (if Before(d, Date(2026, 7, 30)) then p else
        p.(input := 0.2, cachedInput := 0.02, output := 1.2))
  {
    IsoOrder(Date(2026, 8, 21), d);
    IsoOrder(Date(2026, 7, 30), d);
    RevisionDays();
    hide YmdIso, Before, Sorting.StrLe;
    assert "gpt-5.6-sol"[8] == 's' && "gpt-5.6-terra"[8] == 't' && "gpt-5.6-luna"[8] == 'l';
  }

  lemma FixedStep(n: nat, width: nat)
    requires width > 0
    ensures Text.Fixed(n, width, 10) == Text.Fixed(n / 10, width - 1, 10) + [Text.DigitChar(n % 10)]
  {
  }

  lemma TwoDigits(n: nat)
    requires n < 100
    ensures Text.Fixed(n, 2, 10) == [Text.DigitChar(n / 10), Text.DigitChar(n % 10)]
  {
    hide Text.Fixed, Text.DigitChar;
    FixedStep(n, 2);
    FixedStep(n / 10, 1);
    assert Text.Fixed(n / 10 / 10, 0, 10) == [];
  }

  lemma FourDigits(n: nat)
    ensures Text.Fixed(n, 4, 10) == Text.Fixed(n / 10 / 10, 2, 10) + [Text.DigitChar(n / 10 % 10), Text.DigitChar(n % 10)]
  {
    hide Text.Fixed, Text.DigitChar;
    FixedStep(n, 4);
    FixedStep(n / 10, 3);
  }

  lemma RevisionDays()
    ensures YmdIso(Date(2026, 8, 21)) == "2026-08-21" && YmdIso(Date(2026, 7, 30)) == "2026-07-30"
  {
    hide Text.Fixed;
    TwoDigits(8);
    TwoDigits(7);
    TwoDigits(21);
    TwoDigits(30);
    TwoDigits(20);
    TwoDigits(26);
    assert Text.Fixed(2026, 4, 10) == Text.Fixed(20, 2, 10) + Text.Fixed(26, 2, 10) by { FourDigits(2026); TwoDigits(20); TwoDigits(26); }
  }
}
