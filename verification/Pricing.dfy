/**
 Prices and the per-request ceiling: packages/ai/src/pricing.ts, `assertWithinLimits` of
 packages/ai/src/spend.ts and `accumulate` of packages/ai/src/agentLoop.ts.
 */
module Pricing {
  import opened Wrappers

  datatype LongPrompt = LongPrompt(aboveTokens: nat, input: real, output: real)

  /** USD per million tokens. */
  datatype ModelPrice = ModelPrice(input: real, output: real, cacheRead: Option<real>, longPrompt: Option<LongPrompt>)

  datatype Usage = Usage(
    inputTokens: nat,
    outputTokens: nat,
    cacheReadTokens: nat,
    cacheWriteTokens: nat,
    cacheWrite1hTokens: Option<nat>)
  {
    function OneHour(): nat {
      if cacheWrite1hTokens.Some? then cacheWrite1hTokens.value else 0
    }

    function Prompt(): nat {
      inputTokens + cacheReadTokens + cacheWriteTokens
    }
  }

  type Prices = map<string, ModelPrice>

  const MILLION: real := 1000000.0
  const CACHE_READ_MULTIPLIER: real := 0.1
  const CACHE_WRITE_MULTIPLIER: real := 1.25
  const CACHE_WRITE_1H_MULTIPLIER: real := 2.0

  predicate LongTier(price: ModelPrice, u: Usage) {
    price.longPrompt.Some? && u.Prompt() > price.longPrompt.value.aboveTokens
  }

  function InputRate(price: ModelPrice, u: Usage): real {
    if LongTier(price, u) then price.longPrompt.value.input else price.input
  }

  function OutputRate(price: ModelPrice, u: Usage): real {
    if LongTier(price, u) then price.longPrompt.value.output else price.output
  }

  function ReadMultiplier(price: ModelPrice): real {
    if price.cacheRead.Some? then price.cacheRead.value else CACHE_READ_MULTIPLIER
  }

  function ShortWrites(u: Usage): int {
    if u.cacheWriteTokens >= u.OneHour() then u.cacheWriteTokens - u.OneHour() else 0
  }

  function EstimateCost(prices: Prices, model: string, u: Usage): real {
    if model !in prices then 0.0
    else
      var price := prices[model];
      var perInput := InputRate(price, u) / MILLION;
      var perOutput := OutputRate(price, u) / MILLION;
      u.inputTokens as real * perInput
      + u.outputTokens as real * perOutput
      + u.cacheReadTokens as real * perInput * ReadMultiplier(price)
      + ShortWrites(u) as real * perInput * CACHE_WRITE_MULTIPLIER
      + u.OneHour() as real * perInput * CACHE_WRITE_1H_MULTIPLIER
  }

  // ---------------------------------------------------------------- what a row must look like

  /** Rates are not negative, the long-prompt tier is not cheaper, and a cache read costs at most an input token. */
  predicate Sound(price: ModelPrice) {
    && 0.0 <= price.input && 0.0 <= price.output
    && 0.0 <= ReadMultiplier(price) <= 1.0
    && (price.longPrompt.Some? ==> price.input <= price.longPrompt.value.input && price.output <= price.longPrompt.value.output)
  }

  predicate SoundTable(prices: Prices) {
    forall m :: m in prices ==> Sound(prices[m])
  }

  predicate AtMost(u: Usage, v: Usage) {
    && u.inputTokens <= v.inputTokens && u.outputTokens <= v.outputTokens
    && u.cacheReadTokens <= v.cacheReadTokens
    && u.cacheWriteTokens <= v.cacheWriteTokens && u.OneHour() <= v.OneHour()
  }

  /** The prompt of a request in input-token equivalents. */
  ghost function Weight(price: ModelPrice, u: Usage): real {
    u.inputTokens as real + u.cacheReadTokens as real * ReadMultiplier(price)
    + ShortWrites(u) as real * CACHE_WRITE_MULTIPLIER + u.OneHour() as real * CACHE_WRITE_1H_MULTIPLIER
  }

  /** The same price, factored by rate. */
  ghost function WeightedCost(price: ModelPrice, u: Usage): real {
    TwoRates(Weight(price, u), u.outputTokens as real, InputRate(price, u) / MILLION, OutputRate(price, u) / MILLION)
  }

  ghost function TwoRates(a: real, b: real, p: real, q: real): real {
    a * p + b * q
  }

  lemma CostIsWeighted(prices: Prices, model: string, u: Usage)
    requires model in prices
    ensures EstimateCost(prices, model, u) == WeightedCost(prices[model], u)
  {
    var p := InputRate(prices[model], u) / MILLION;
    var m := ReadMultiplier(prices[model]);
    Swap(u.cacheReadTokens as real, m, p);
    Swap(ShortWrites(u) as real, CACHE_WRITE_MULTIPLIER, p);
    Swap(u.OneHour() as real, CACHE_WRITE_1H_MULTIPLIER, p);
    Distribute(u.inputTokens as real, u.cacheReadTokens as real * m, ShortWrites(u) as real * CACHE_WRITE_MULTIPLIER,
               u.OneHour() as real * CACHE_WRITE_1H_MULTIPLIER, p);
  }

  lemma Swap(a: real, b: real, c: real)
    ensures a * b * c == a * c * b
  {
  }

  lemma Distribute(a: real, b: real, c: real, d: real, p: real)
    ensures (a + b + c + d) * p == a * p + b * p + c * p + d * p
  {
  }

  lemma MulMonotone(a: real, b: real, x: real, y: real)
    requires 0.0 <= a <= b && 0.0 <= x <= y
    ensures 0.0 <= a * x <= b * y
  {
    assert a * x <= b * x;
    assert b * x <= b * y;
  }

  lemma WeightMonotone(price: ModelPrice, u: Usage, v: Usage)
    requires Sound(price) && AtMost(u, v)
    ensures 0.0 <= Weight(price, u) <= Weight(price, v)
  {
    MulMonotone(u.cacheReadTokens as real, v.cacheReadTokens as real, ReadMultiplier(price), ReadMultiplier(price));
    WritesMonotone(u, v);
    var a, a' := u.inputTokens as real, v.inputTokens as real;
    var b, b' := u.cacheReadTokens as real * ReadMultiplier(price), v.cacheReadTokens as real * ReadMultiplier(price);
    var c, c' := ShortWrites(u) as real * CACHE_WRITE_MULTIPLIER, ShortWrites(v) as real * CACHE_WRITE_MULTIPLIER;
    var d, d' := u.OneHour() as real * CACHE_WRITE_1H_MULTIPLIER, v.OneHour() as real * CACHE_WRITE_1H_MULTIPLIER;
    assert 0.0 <= a <= a';
    assert 0.0 <= b <= b';
    assert 0.0 <= c + d <= c' + d';
    assert Weight(price, u) == a + b + c + d;
    assert Weight(price, v) == a' + b' + c' + d';
  }

  lemma WritesMonotone(u: Usage, v: Usage)
    requires u.cacheWriteTokens <= v.cacheWriteTokens && u.OneHour() <= v.OneHour()
    ensures 0.0 <= ShortWrites(u) as real * CACHE_WRITE_MULTIPLIER + u.OneHour() as real * CACHE_WRITE_1H_MULTIPLIER
                <= ShortWrites(v) as real * CACHE_WRITE_MULTIPLIER + v.OneHour() as real * CACHE_WRITE_1H_MULTIPLIER
  {
    var h, h' := u.OneHour() as real, v.OneHour() as real;
    assert h <= h';
    if u.cacheWriteTokens >= u.OneHour() && v.cacheWriteTokens >= v.OneHour() {
      assert ShortWrites(u) as real == u.cacheWriteTokens as real - h;
      assert ShortWrites(v) as real == v.cacheWriteTokens as real - h';
    } else if u.cacheWriteTokens >= u.OneHour() {
      assert ShortWrites(u) as real <= h' - h;
    }
  }

  lemma TwoRatesMonotone(a: real, b: real, p: real, q: real, a': real, b': real, p': real, q': real)
    requires 0.0 <= a <= a' && 0.0 <= b <= b' && 0.0 <= p <= p' && 0.0 <= q <= q'
    ensures 0.0 <= TwoRates(a, b, p, q) <= TwoRates(a', b', p', q')
  {
    MulMonotone(a, a', p, p');
    MulMonotone(b, b', q, q');
  }

  lemma WeightedCostMonotone(price: ModelPrice, u: Usage, v: Usage)
    requires Sound(price) && AtMost(u, v)
    ensures 0.0 <= WeightedCost(price, u) <= WeightedCost(price, v)
  {
    WeightMonotone(price, u, v);
    TwoRatesMonotone(
      Weight(price, u), u.outputTokens as real, InputRate(price, u) / MILLION, OutputRate(price, u) / MILLION,
      Weight(price, v), v.outputTokens as real, InputRate(price, v) / MILLION, OutputRate(price, v) / MILLION);
  }

  /** More tokens never cost less, also when they push the prompt into the long tier. */
  lemma CostMonotone(prices: Prices, model: string, u: Usage, v: Usage)
    requires SoundTable(prices) && AtMost(u, v)
    ensures 0.0 <= EstimateCost(prices, model, u) <= EstimateCost(prices, model, v)
  {
    if model in prices {
      CostIsWeighted(prices, model, u);
      CostIsWeighted(prices, model, v);
      WeightedCostMonotone(prices[model], u, v);
    }
  }

  // ---------------------------------------------------------------- the per-request ceiling

  datatype Limits = Limits(perRequestUsd: real, perDayUsd: real)

  datatype Verdict = Admitted | DayCeilingReached | RequestTooDear

  function AssertWithinLimits(
    prices: Prices, limits: Limits, spentToday: real, model: string, estimatedInput: nat, maxOutput: nat): Verdict
  {
    if limits.perDayUsd > 0.0 && spentToday >= limits.perDayUsd then DayCeilingReached
    else if limits.perRequestUsd <= 0.0 then Admitted
    else if model !in prices then Admitted
    else if EstimateCost(prices, model, Usage(estimatedInput, maxOutput, 0, 0, None)) > limits.perRequestUsd then RequestTooDear
    else Admitted
  }

  /** What an admitted request can cost when it stays within the tokens it was admitted for. */
  lemma AdmittedCost(prices: Prices, limits: Limits, spentToday: real, model: string, estimatedInput: nat, maxOutput: nat, u: Usage)
    requires SoundTable(prices) && limits.perRequestUsd > 0.0
    requires AssertWithinLimits(prices, limits, spentToday, model, estimatedInput, maxOutput) == Admitted
    requires u.Prompt() <= estimatedInput && u.outputTokens <= maxOutput && u.OneHour() <= u.cacheWriteTokens
    ensures u.cacheWriteTokens == 0 ==> EstimateCost(prices, model, u) <= limits.perRequestUsd
    ensures EstimateCost(prices, model, u) <= 2.0 * limits.perRequestUsd
  {
    if model in prices {
      var asked := Usage(estimatedInput, maxOutput, 0, 0, None);
      CostIsWeighted(prices, model, u);
      CostIsWeighted(prices, model, asked);
      WeightedWithinAsked(prices[model], u, asked);
    }
  }

  lemma WeightedWithinAsked(price: ModelPrice, u: Usage, asked: Usage)
    requires Sound(price) && u.Prompt() <= asked.Prompt() && u.outputTokens <= asked.outputTokens
    requires u.OneHour() <= u.cacheWriteTokens && asked.Prompt() == asked.inputTokens && asked.OneHour() == 0
    ensures u.cacheWriteTokens == 0 ==> WeightedCost(price, u) <= WeightedCost(price, asked)
    ensures WeightedCost(price, u) <= 2.0 * WeightedCost(price, asked)
  {
    WeightAgainstPrompt(price, u);
    AskedWeight(price, asked);
    RatesBelow(price, u, asked);
    hide Sound, Weight, InputRate, OutputRate, TwoRates;
    var w, n := asked.inputTokens as real, asked.outputTokens as real;
    var pi, po := InputRate(price, u) / MILLION, OutputRate(price, u) / MILLION;
    var qi, qo := InputRate(price, asked) / MILLION, OutputRate(price, asked) / MILLION;
    TwoRatesMonotone(Weight(price, u), u.outputTokens as real, pi, po, 2.0 * w, 2.0 * n, qi, qo);
    TwiceAsMany(w, n, qi, qo);
    if u.cacheWriteTokens == 0 {
      TwoRatesMonotone(Weight(price, u), u.outputTokens as real, pi, po, w, n, qi, qo);
    }
  }

  lemma AskedWeight(price: ModelPrice, asked: Usage)
    requires asked.Prompt() == asked.inputTokens && asked.OneHour() == 0
    ensures Weight(price, asked) == asked.inputTokens as real
  {
    assert asked.cacheReadTokens == 0 && asked.cacheWriteTokens == 0 && ShortWrites(asked) == 0;
    assert 0.0 * ReadMultiplier(price) == 0.0;
  }

  /** A longer prompt is never in a cheaper tier. */
  lemma RatesBelow(price: ModelPrice, u: Usage, asked: Usage)
    requires Sound(price) && u.Prompt() <= asked.Prompt()
    ensures 0.0 <= InputRate(price, u) / MILLION <= InputRate(price, asked) / MILLION
    ensures 0.0 <= OutputRate(price, u) / MILLION <= OutputRate(price, asked) / MILLION
  {
  }

  lemma TwiceAsMany(w: real, n: real, p: real, q: real)
    ensures TwoRates(2.0 * w, 2.0 * n, p, q) == 2.0 * TwoRates(w, n, p, q)
  {
  }

  lemma WeightAgainstPrompt(price: ModelPrice, u: Usage)
    requires Sound(price) && u.OneHour() <= u.cacheWriteTokens
    ensures 0.0 <= Weight(price, u) <= 2.0 * u.Prompt() as real
    ensures u.cacheWriteTokens == 0 ==> Weight(price, u) <= u.Prompt() as real
  {
    var a, b, w, h := u.inputTokens as real, u.cacheReadTokens as real, u.cacheWriteTokens as real, u.OneHour() as real;
    MulMonotone(b, b, ReadMultiplier(price), 1.0);
    var m := b * ReadMultiplier(price);
    assert 0.0 <= m <= b && h <= w;
    assert ShortWrites(u) as real == w - h;
    assert Weight(price, u) == a + m + (w - h) * CACHE_WRITE_MULTIPLIER + h * CACHE_WRITE_1H_MULTIPLIER;
    assert u.Prompt() as real == a + b + w;
  }

  // ---------------------------------------------------------------- accumulated usage

  function Accumulate(total: Usage, next: Usage): Usage {
    Usage(total.inputTokens + next.inputTokens,
          total.outputTokens + next.outputTokens,
          total.cacheReadTokens + next.cacheReadTokens,
          total.cacheWriteTokens + next.cacheWriteTokens,
          Some(total.OneHour() + next.OneHour()))
  }

  const NO_USAGE := Usage(0, 0, 0, 0, None)

  function TotalUsage(steps: seq<Usage>): Usage {
    if steps == [] then NO_USAGE else Accumulate(TotalUsage(steps[..|steps| - 1]), steps[|steps| - 1])
  }

  function SumOfPrices(prices: Prices, model: string, steps: seq<Usage>): real {
    if steps == [] then 0.0
    else SumOfPrices(prices, model, steps[..|steps| - 1]) + EstimateCost(prices, model, steps[|steps| - 1])
  }

  predicate OneHourInside(u: Usage) {
    u.OneHour() <= u.cacheWriteTokens
  }

  /** No more writes than 1-hour writes. */
  predicate OneHourOutside(u: Usage) {
    u.cacheWriteTokens <= u.OneHour()
  }

  /** The clamp treats both alike. */
  predicate Agree(u: Usage, v: Usage) {
    (OneHourInside(u) && OneHourInside(v)) || (OneHourOutside(u) && OneHourOutside(v))
  }

  lemma AccumulatedPairCost(prices: Prices, model: string, u: Usage, v: Usage)
    requires SoundTable(prices) && Agree(u, v)
    ensures EstimateCost(prices, model, u) + EstimateCost(prices, model, v) <= EstimateCost(prices, model, Accumulate(u, v))
  {
    if model in prices {
      CostIsWeighted(prices, model, u);
      CostIsWeighted(prices, model, v);
      CostIsWeighted(prices, model, Accumulate(u, v));
      WeightedPairCost(prices[model], u, v);
    }
  }

  lemma WeightedPairCost(price: ModelPrice, u: Usage, v: Usage)
    requires Sound(price) && Agree(u, v)
    ensures WeightedCost(price, u) + WeightedCost(price, v) <= WeightedCost(price, Accumulate(u, v))
  {
    var w := Accumulate(u, v);
    WeightMonotone(price, u, u);
    WeightMonotone(price, v, v);
    WeightAdds(price, u, v);
    TwoRatesPair(
      Weight(price, u), u.outputTokens as real, InputRate(price, u) / MILLION, OutputRate(price, u) / MILLION,
      Weight(price, v), v.outputTokens as real, InputRate(price, v) / MILLION, OutputRate(price, v) / MILLION,
      InputRate(price, w) / MILLION, OutputRate(price, w) / MILLION);
  }

  lemma TwoRatesPair(a: real, m: real, p: real, q: real, b: real, n: real, p': real, q': real, r: real, t: real)
    requires 0.0 <= a && 0.0 <= m && 0.0 <= b && 0.0 <= n
    requires 0.0 <= p <= r && 0.0 <= p' <= r && 0.0 <= q <= t && 0.0 <= q' <= t
    ensures TwoRates(a, m, p, q) + TwoRates(b, n, p', q') <= TwoRates(a + b, m + n, r, t)
  {
    Raise(a, b, p, p', r);
    Raise(m, n, q, q', t);
  }

  lemma WeightAdds(price: ModelPrice, u: Usage, v: Usage)
    ensures var w := Accumulate(u, v);
            Weight(price, w) == Weight(price, u) + Weight(price, v)
                                + (ShortWrites(w) - ShortWrites(u) - ShortWrites(v)) as real * CACHE_WRITE_MULTIPLIER
  {
    var m := ReadMultiplier(price);
    assert Accumulate(u, v).cacheReadTokens as real * m == u.cacheReadTokens as real * m + v.cacheReadTokens as real * m;
  }

  lemma Raise(a: real, b: real, p: real, q: real, r: real)
    requires 0.0 <= a && 0.0 <= b && 0.0 <= p <= r && 0.0 <= q <= r
    ensures a * p + b * q <= (a + b) * r
  {
    MulMonotone(a, a, p, r);
    MulMonotone(b, b, q, r);
  }

  /** No two steps disagree about which of the two write counts is larger. */
  predicate AllAgree(steps: seq<Usage>) {
    (forall i :: 0 <= i < |steps| ==> OneHourInside(steps[i])) || (forall i :: 0 <= i < |steps| ==> OneHourOutside(steps[i]))
  }

  /** Pricing an agent's accumulated usage is never below the sum of its steps' prices, with or without a tier. */
  lemma {:induction false} AccumulatedCost(prices: Prices, model: string, steps: seq<Usage>)
    requires SoundTable(prices) && AllAgree(steps)
    ensures (forall i :: 0 <= i < |steps| ==> OneHourInside(steps[i])) ==> OneHourInside(TotalUsage(steps))
    ensures (forall i :: 0 <= i < |steps| ==> OneHourOutside(steps[i])) ==> OneHourOutside(TotalUsage(steps))
    ensures SumOfPrices(prices, model, steps) <= EstimateCost(prices, model, TotalUsage(steps))
  {
    if steps == [] {
      CostMonotone(prices, model, NO_USAGE, NO_USAGE);
    } else {
      var init, last := steps[..|steps| - 1], steps[|steps| - 1];
      assert forall i :: 0 <= i < |init| ==> init[i] == steps[i];
      AccumulatedCost(prices, model, init);
      AccumulatedPairCost(prices, model, TotalUsage(init), last);
    }
  }

  // The clamp at zero makes that bound fail when one step over-reports 1-hour writes and another does not.

  ghost function Excess(steps: seq<Usage>): nat {
    if steps == [] then 0
    else Excess(steps[..|steps| - 1]) + ShortWrites(steps[|steps| - 1])
  }

  ghost function Deficit(steps: seq<Usage>): nat {
    if steps == [] then 0
    else
      var u := steps[|steps| - 1];
      Deficit(steps[..|steps| - 1]) + if u.OneHour() > u.cacheWriteTokens then u.OneHour() - u.cacheWriteTokens else 0
  }

  lemma {:induction false} DeficitZeroIff(steps: seq<Usage>)
    ensures Deficit(steps) == 0 <==> forall i :: 0 <= i < |steps| ==> steps[i].OneHour() <= steps[i].cacheWriteTokens
    ensures Excess(steps) == 0 <==> forall i :: 0 <= i < |steps| ==> steps[i].cacheWriteTokens <= steps[i].OneHour()
    ensures TotalUsage(steps).cacheWriteTokens - TotalUsage(steps).OneHour() == Excess(steps) - Deficit(steps)
  {
    if steps != [] {
      var init := steps[..|steps| - 1];
      DeficitZeroIff(init);
      assert forall i :: 0 <= i < |init| ==> init[i] == steps[i];
    }
  }

  /** On a row without a tier, adding usages loses the price of the short writes the clamp swallowed. */
  lemma FlatPairCost(price: ModelPrice, u: Usage, v: Usage)
    requires price.longPrompt == None
    ensures var w := Accumulate(u, v);
            WeightedCost(price, u) + WeightedCost(price, v)
            == WeightedCost(price, w)
               + (ShortWrites(u) + ShortWrites(v) - ShortWrites(w)) as real * WriteRate(price)
  {
    var w := Accumulate(u, v);
    WeightAdds(price, u, v);
    FlatArithmetic(Weight(price, u), Weight(price, v), Weight(price, w), u.outputTokens as real, v.outputTokens as real,
                   (ShortWrites(u) + ShortWrites(v) - ShortWrites(w)) as real, price.input / MILLION, price.output / MILLION);
  }

  lemma FlatArithmetic(a: real, b: real, c: real, m: real, n: real, gap: real, p: real, q: real)
    requires c == a + b - gap * CACHE_WRITE_MULTIPLIER
    ensures TwoRates(a, m, p, q) + TwoRates(b, n, p, q) == TwoRates(c, m + n, p, q) + gap * (CACHE_WRITE_MULTIPLIER * p)
  {
    assert gap * (CACHE_WRITE_MULTIPLIER * p) == gap * CACHE_WRITE_MULTIPLIER * p;
    assert c * p == a * p + b * p - gap * CACHE_WRITE_MULTIPLIER * p;
    assert (m + n) * q == m * q + n * q;
  }

  lemma NoUsageIsFree(price: ModelPrice)
    ensures WeightedCost(price, NO_USAGE) == 0.0 == Swallowed(price, 0, NO_USAGE)
  {
    assert Weight(price, NO_USAGE) == 0.0;
  }

  /** USD per short cache write on a row without a tier. */
  ghost function WriteRate(price: ModelPrice): real {
    CACHE_WRITE_MULTIPLIER * (price.input / MILLION)
  }

  /** What the clamp swallowed over all steps, priced. */
  ghost function Swallowed(price: ModelPrice, excess: int, total: Usage): real {
    (excess - ShortWrites(total)) as real * WriteRate(price)
  }

  lemma {:induction false} FlatSumOfPrices(prices: Prices, model: string, steps: seq<Usage>)
    requires model in prices && prices[model].longPrompt == None
    ensures SumOfPrices(prices, model, steps)
            == WeightedCost(prices[model], TotalUsage(steps)) + Swallowed(prices[model], Excess(steps), TotalUsage(steps))
  {
    hide EstimateCost, WeightedCost, Swallowed;
    if steps == [] {
      NoUsageIsFree(prices[model]);
    } else {
      var init, last := steps[..|steps| - 1], steps[|steps| - 1];
      FlatSumOfPrices(prices, model, init);
      FlatAppend(prices, model, SumOfPrices(prices, model, init), TotalUsage(init), last, Excess(init));
    }
  }

  lemma FlatAppend(prices: Prices, model: string, sum: real, total: Usage, last: Usage, excess: int)
    requires model in prices && prices[model].longPrompt == None
    requires sum == WeightedCost(prices[model], total) + Swallowed(prices[model], excess, total)
    ensures var w := Accumulate(total, last);
            sum + EstimateCost(prices, model, last)
            == WeightedCost(prices[model], w) + Swallowed(prices[model], excess + ShortWrites(last), w)
  {
    var price, w := prices[model], Accumulate(total, last);
    CostIsWeighted(prices, model, last);
    FlatPairCost(price, total, last);
    hide EstimateCost, WeightedCost, WriteRate;
    var e, f := excess - ShortWrites(total), ShortWrites(total) + ShortWrites(last) - ShortWrites(w);
    assert (e + f) as real * WriteRate(price) == e as real * WriteRate(price) + f as real * WriteRate(price);
  }

  /**
   On a row without a long-prompt tier the bound holds exactly when no two steps disagree about the sign of
   `cacheWriteTokens - cacheWrite1hTokens`.
   */
  lemma AccumulatedCostIff(prices: Prices, model: string, steps: seq<Usage>)
    requires model in prices && prices[model].longPrompt == None && prices[model].input > 0.0
    ensures SumOfPrices(prices, model, steps) <= EstimateCost(prices, model, TotalUsage(steps))
            <==> AllAgree(steps)
  {
    hide EstimateCost, WeightedCost;
    FlatSumOfPrices(prices, model, steps);
    CostIsWeighted(prices, model, TotalUsage(steps));
    DeficitZeroIff(steps);
    NoGapIff(Excess(steps) - ShortWrites(TotalUsage(steps)), WriteRate(prices[model]));
  }

  lemma NoGapIff(gap: int, rate: real)
    requires gap >= 0 && rate > 0.0
    ensures gap as real * rate <= 0.0 <==> gap == 0
  {
    if gap > 0 {
      assert gap as real * rate > 0.0;
    }
  }

  /** Two steps for which it fails: ten 1-hour tokens reported outside the writes, then ten plain writes. */
  lemma AccumulatedCostCanBeBelow(prices: Prices, model: string)
    requires model in prices && prices[model].longPrompt == None && prices[model].input > 0.0
    ensures var steps := [Usage(0, 0, 0, 0, Some(10)), Usage(0, 0, 0, 10, None)];
            EstimateCost(prices, model, TotalUsage(steps)) < SumOfPrices(prices, model, steps)
  {
    var steps := [Usage(0, 0, 0, 0, Some(10)), Usage(0, 0, 0, 10, None)];
    DisagreeingStepsCostMore(prices, model, steps);
  }

  lemma DisagreeingStepsCostMore(prices: Prices, model: string, steps: seq<Usage>)
    requires model in prices && prices[model].longPrompt == None && prices[model].input > 0.0
    requires |steps| == 2
    requires steps[0].OneHour() > steps[0].cacheWriteTokens && steps[1].cacheWriteTokens > steps[1].OneHour()
    ensures EstimateCost(prices, model, TotalUsage(steps)) < SumOfPrices(prices, model, steps)
  {
    AccumulatedCostIff(prices, model, steps);
    assert steps[0].OneHour() > steps[0].cacheWriteTokens && steps[1].cacheWriteTokens > steps[1].OneHour();
  }
}
