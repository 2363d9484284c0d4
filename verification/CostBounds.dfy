/**
 What a call cost when the provider does not say how much of the prompt was
 cached or which tariff applied: an interval, and its sum over a run.
 */
module CostBounds {
  import opened Wrappers

  // Prices per `unit` tokens.
  datatype Rate = Rate(input: real, cacheHit: real, output: real)
  datatype Tier = Tier(inputMax: int, rate: Rate)
  datatype Tariff = Tariff(name: string, rate: Rate)

  // A price list is tiered by prompt size, or has named tariffs with distinct names.
  datatype Schedule = Tiered(tiers: seq<Tier>) | Named(tariffs: seq<Tariff>)
  datatype Price = Price(schedule: Schedule, unit: int)

  // What is recorded of a call. `cached` is None unless the provider reported it.
  datatype Usage = Usage(prompt: Option<int>, completion: Option<int>, cached: Option<int>)

  datatype Error = InvalidUsage | InvalidCached | UnknownTariff | NoRates | ZeroUnit
  datatype Estimate = Missing | Bounds(lower: real, upper: real, value: Option<real>)

  function FirstTier(tiers: seq<Tier>, prompt: int): Option<Rate> {
    if tiers == [] then None
    else if prompt <= tiers[0].inputMax then Some(tiers[0].rate)
    else FirstTier(tiers[1..], prompt)
  }

  function Lookup(tariffs: seq<Tariff>, name: string): Option<Rate> {
    if tariffs == [] then None
    else if tariffs[0].name == name then Some(tariffs[0].rate)
    else Lookup(tariffs[1..], name)
  }

  /** The rates that may have applied; None when the prompt is beyond every tier. */
  function Applicable(schedule: Schedule, prompt: int, tariff: Option<string>): Result<Option<seq<Rate>>, Error> {
    match schedule
    case Tiered(tiers) =>
      var rate := FirstTier(tiers, prompt);
      Success(if rate.None? then None else Some([rate.value]))
    case Named(tariffs) =>
      if tariff.Some? && Lookup(tariffs, tariff.value).None? then Failure(UnknownTariff)
      else if tariff.Some? && tariff.value != "" then Success(Some([Lookup(tariffs, tariff.value).value]))
      else Success(Some(seq(|tariffs|, i requires 0 <= i < |tariffs| => tariffs[i].rate)))
  }

  /** The bill for a call with `cached` of its prompt tokens served from the cache. */
  function Charge(r: Rate, prompt: int, cached: int, completion: int, unit: int): real
    requires unit != 0
  {
    ((prompt - cached) as real * r.input + cached as real * r.cacheHit + completion as real * r.output) / unit as real
  }

  function ChargesAt(r: Rate, prompt: int, cached: seq<int>, completion: int, unit: int): seq<real>
    requires unit != 0
  {
    if cached == [] then []
    else [Charge(r, prompt, cached[0], completion, unit)] + ChargesAt(r, prompt, cached[1..], completion, unit)
  }

  /** Every rate with every cached count. */
  function Charges(rates: seq<Rate>, prompt: int, cached: seq<int>, completion: int, unit: int): seq<real>
    requires unit != 0
  {
    if rates == [] then []
    else ChargesAt(rates[0], prompt, cached, completion, unit) + Charges(rates[1..], prompt, cached, completion, unit)
  }

  function MinOf(values: seq<real>): (m: real)
    requires values != []
    ensures m in values && forall v <- values :: m <= v
  {
    if |values| == 1 then values[0]
    else
      assert forall v <- values :: v == values[0] || v in values[1..];
      var rest := MinOf(values[1..]);
      if values[0] <= rest then values[0] else rest
  }

  function MaxOf(values: seq<real>): (m: real)
    requires values != []
    ensures m in values && forall v <- values :: v <= m
  {
    if |values| == 1 then values[0]
    else
      assert forall v <- values :: v == values[0] || v in values[1..];
      var rest := MaxOf(values[1..]);
      if values[0] >= rest then values[0] else rest
  }

  function CachedOptions(prompt: int, cached: Option<int>): seq<int> {
    if cached.Some? then [cached.value] else [0, prompt]
  }

  function CostForCall(u: Usage, price: Price, tariff: Option<string>, billable: bool): Result<Estimate, Error> {
    if !billable || u.prompt.None? || u.completion.None? then Success(Missing)
    else if u.prompt.value < 0 || u.completion.value < 0 then Failure(InvalidUsage)
    else if u.cached.Some? && !(0 <= u.cached.value <= u.prompt.value) then Failure(InvalidCached)
    else match Applicable(price.schedule, u.prompt.value, tariff)
      case Failure(e) => Failure(e)
      case Success(None) => Success(Missing)
      case Success(Some(rates)) =>
        if rates == [] then Failure(NoRates)
        else if price.unit == 0 then Failure(ZeroUnit)
        else
          var options := CachedOptions(u.prompt.value, u.cached);
          var values := Charges(rates, u.prompt.value, options, u.completion.value, price.unit);
          HasCharge(rates, rates[0], u.prompt.value, options, options[0], u.completion.value, price.unit);
          var low, high := MinOf(values), MaxOf(values);
          Success(Bounds(low, high, if u.cached.Some? && |rates| == 1 then Some(low) else None))
  }

  /** A bill the call may really have had: some applicable rate, some possible cached count. */
  ghost predicate Possible(u: Usage, price: Price, tariff: Option<string>, cost: real) {
    && u.prompt.Some? && u.completion.Some? && price.unit != 0
    && Applicable(price.schedule, u.prompt.value, tariff).Success?
    && Applicable(price.schedule, u.prompt.value, tariff).value.Some?
    && exists r <- Applicable(price.schedule, u.prompt.value, tariff).value.value, cached: int ::
         && 0 <= cached <= u.prompt.value && (u.cached.Some? ==> cached == u.cached.value)
         && cost == Charge(r, u.prompt.value, cached, u.completion.value, price.unit)
  }

  lemma {:induction false} HasCharge(
      rates: seq<Rate>, r: Rate, prompt: int, cached: seq<int>, c: int, completion: int, unit: int)
    requires unit != 0 && r in rates && c in cached
    ensures Charge(r, prompt, c, completion, unit) in Charges(rates, prompt, cached, completion, unit)
  {
    if r == rates[0] {
      HasChargeAt(r, prompt, cached, c, completion, unit);
    } else {
      HasCharge(rates[1..], r, prompt, cached, c, completion, unit);
    }
  }

  lemma {:induction false} HasChargeAt(r: Rate, prompt: int, cached: seq<int>, c: int, completion: int, unit: int)
    requires unit != 0 && c in cached
    ensures Charge(r, prompt, c, completion, unit) in ChargesAt(r, prompt, cached, completion, unit)
  {
    if c != cached[0] {
      HasChargeAt(r, prompt, cached[1..], c, completion, unit);
    }
  }

  /** Where a computed charge comes from. */
  lemma {:induction false} SourceOf(rates: seq<Rate>, prompt: int, cached: seq<int>, completion: int, unit: int, v: real)
    returns (r: Rate, c: int)
    requires unit != 0 && v in Charges(rates, prompt, cached, completion, unit)
    ensures r in rates && c in cached && v == Charge(r, prompt, c, completion, unit)
  {
    if v in ChargesAt(rates[0], prompt, cached, completion, unit) {
      r := rates[0];
      c := SourceAt(r, prompt, cached, completion, unit, v);
    } else {
      r, c := SourceOf(rates[1..], prompt, cached, completion, unit, v);
    }
  }

  lemma {:induction false} SourceAt(r: Rate, prompt: int, cached: seq<int>, completion: int, unit: int, v: real)
    returns (c: int)
    requires unit != 0 && v in ChargesAt(r, prompt, cached, completion, unit)
    ensures c in cached && v == Charge(r, prompt, c, completion, unit)
  {
    if v == Charge(r, prompt, cached[0], completion, unit) {
      c := cached[0];
    } else {
      c := SourceAt(r, prompt, cached[1..], completion, unit, v);
    }
  }

  /** Partial caching costs something between none and all of the prompt cached. */
  lemma ChargeBetween(r: Rate, prompt: int, cached: int, completion: int, unit: int)
    requires unit != 0 && 0 <= cached <= prompt
    ensures var none, some, all := Charge(r, prompt, 0, completion, unit), Charge(r, prompt, cached, completion, unit),
              Charge(r, prompt, prompt, completion, unit);
      none <= some <= all || all <= some <= none
  {
    var step := (r.cacheHit - r.input) / unit as real;
    ChargeIsLinear(r, prompt, cached, completion, unit, step);
    ChargeIsLinear(r, prompt, prompt, completion, unit, step);
    ScaledBetween(cached as real, prompt as real, step);
  }

  lemma ScaledBetween(a: real, b: real, step: real)
    requires 0.0 <= a <= b
    ensures 0.0 <= a * step <= b * step || b * step <= a * step <= 0.0
  {
    if step >= 0.0 {
      assert (b - a) * step >= 0.0;
    } else {
      assert (b - a) * step <= 0.0;
    }
  }

  lemma ChargeIsLinear(r: Rate, prompt: int, cached: int, completion: int, unit: int, step: real)
    requires unit != 0 && step == (r.cacheHit - r.input) / unit as real
    ensures Charge(r, prompt, cached, completion, unit)
      == Charge(r, prompt, 0, completion, unit) + cached as real * step
  {
    var c, p, o := cached as real, prompt as real, completion as real;
    assert (prompt - cached) as real == p - c;
    assert (p - c) * r.input + c * r.cacheHit + o * r.output == (p * r.input + o * r.output) + c * (r.cacheHit - r.input);
    SumOverUnit(p * r.input + o * r.output, c, r.cacheHit - r.input, unit as real);
  }

  lemma SumOverUnit(a: real, c: real, d: real, unit: real)
    requires unit != 0.0
    ensures (a + c * d) / unit == a / unit + c * (d / unit)
  {
  }

  /**
   The interval contains every bill the call may have had and nothing narrower does: both ends are
   such bills. A point is given only when the cached count and the rate are known, and is then the bill.
   */
  lemma BoundsAreSoundAndTight(u: Usage, price: Price, tariff: Option<string>)
    requires CostForCall(u, price, tariff, true).Success? && CostForCall(u, price, tariff, true).value.Bounds?
    ensures var b := CostForCall(u, price, tariff, true).value;
      && (forall cost :: Possible(u, price, tariff, cost) ==> b.lower <= cost <= b.upper)
      && Possible(u, price, tariff, b.lower) && Possible(u, price, tariff, b.upper)
      && (b.value.Some? ==> b.lower == b.upper == b.value.value)
      && (b.value.Some? <==> u.cached.Some? && |Applicable(price.schedule, u.prompt.value, tariff).value.value| == 1)
  {
    var b := CostForCall(u, price, tariff, true).value;
    var rates := Applicable(price.schedule, u.prompt.value, tariff).value.value;
    var options := CachedOptions(u.prompt.value, u.cached);
    assert forall c <- options :: 0 <= c <= u.prompt.value;
    forall cost | Possible(u, price, tariff, cost) ensures b.lower <= cost <= b.upper {
      var r, cached: int :| r in rates && 0 <= cached <= u.prompt.value && (u.cached.Some? ==> cached == u.cached.value)
        && cost == Charge(r, u.prompt.value, cached, u.completion.value, price.unit);
      WithinEnds(u, price.unit, rates, r, cached);
    }
    var r, c := SourceOf(rates, u.prompt.value, options, u.completion.value, price.unit, b.lower);
    r, c := SourceOf(rates, u.prompt.value, options, u.completion.value, price.unit, b.upper);
  }

  lemma WithinEnds(u: Usage, unit: int, rates: seq<Rate>, r: Rate, cached: int)
    requires u.prompt.Some? && u.completion.Some? && unit != 0 && r in rates
    requires 0 <= cached <= u.prompt.value && (u.cached.Some? ==> cached == u.cached.value)
    ensures var values := Charges(rates, u.prompt.value, CachedOptions(u.prompt.value, u.cached), u.completion.value, unit);
      && values != []
      && MinOf(values) <= Charge(r, u.prompt.value, cached, u.completion.value, unit) <= MaxOf(values)
  {
    var options := CachedOptions(u.prompt.value, u.cached);
    HasCharge(rates, r, u.prompt.value, options, options[0], u.completion.value, unit);
    if u.cached.None? {
      HasCharge(rates, r, u.prompt.value, options, options[1], u.completion.value, unit);
      ChargeBetween(r, u.prompt.value, cached, u.completion.value, unit);
    }
  }

  /** Bounds are given exactly when the call is billable and some bill for it is possible. */
  lemma BoundsGivenIff(u: Usage, price: Price, tariff: Option<string>, billable: bool)
    ensures CostForCall(u, price, tariff, billable).Success? && CostForCall(u, price, tariff, billable).value.Bounds?
      <==> && billable && (u.completion.Some? ==> u.completion.value >= 0)
           && exists cost :: Possible(u, price, tariff, cost)
  {
    var r := CostForCall(u, price, tariff, billable);
    if r.Success? && r.value.Bounds? {
      BoundsAreSoundAndTight(u, price, tariff);
      assert Possible(u, price, tariff, r.value.lower);
    }
  }

  // ------------------------------------------------------------ what is billed

  /** Every token is billed once, at its own rate, and a token from the cache in place of one that is not. */
  lemma ChargePerToken(r: Rate, prompt: int, cached: int, completion: int, unit: int)
    requires unit != 0
    ensures Charge(r, 0, 0, 0, unit) == 0.0
    ensures var bill := Charge(r, prompt, cached, completion, unit);
      && Charge(r, prompt, cached, completion + 1, unit) == bill + r.output / unit as real
      && Charge(r, prompt + 1, cached, completion, unit) == bill + r.input / unit as real
      && Charge(r, prompt, cached + 1, completion, unit) == bill + (r.cacheHit - r.input) / unit as real
  {
    var p, c, o, u := (prompt - cached) as real, cached as real, completion as real, unit as real;
    var sum := p * r.input + c * r.cacheHit + o * r.output;
    assert (completion + 1) as real == o + 1.0 && (prompt + 1 - cached) as real == p + 1.0;
    assert (cached + 1) as real == c + 1.0 && (prompt - (cached + 1)) as real == p - 1.0;
    assert p * r.input + c * r.cacheHit + (o + 1.0) * r.output == sum + 1.0 * r.output;
    assert (p + 1.0) * r.input + c * r.cacheHit + o * r.output == sum + 1.0 * r.input;
    assert (p - 1.0) * r.input + (c + 1.0) * r.cacheHit + o * r.output == sum + 1.0 * (r.cacheHit - r.input);
    SumOverUnit(sum, 1.0, r.output, u);
    SumOverUnit(sum, 1.0, r.input, u);
    SumOverUnit(sum, 1.0, r.cacheHit - r.input, u);
  }

  /** A call of which everything the bill depends on is known. */
  predicate Known(u: Usage, price: Price, tariff: Option<string>, r: Rate) {
    && u.prompt.Some? && u.completion.Some? && u.cached.Some? && price.unit != 0
    && u.completion.value >= 0 && 0 <= u.cached.value <= u.prompt.value
    && Applicable(price.schedule, u.prompt.value, tariff) == Success(Some([r]))
  }

  lemma KnownIsCharged(u: Usage, price: Price, tariff: Option<string>, r: Rate)
    requires Known(u, price, tariff, r)
    ensures var bill := Charge(r, u.prompt.value, u.cached.value, u.completion.value, price.unit);
      CostForCall(u, price, tariff, true) == Success(Bounds(bill, bill, Some(bill)))
  {
    var bill := Charge(r, u.prompt.value, u.cached.value, u.completion.value, price.unit);
    assert ChargesAt(r, u.prompt.value, [u.cached.value], u.completion.value, price.unit) == [bill] by {
      assert [u.cached.value][1..] == [];
    }
    assert Charges([r], u.prompt.value, [u.cached.value], u.completion.value, price.unit) == [bill] by {
      assert [r][1..] == [];
    }
  }

  /**
   The point a known call is given: nothing for no tokens; for one more completion token, one more prompt
   token at the same rate, or one prompt token more from the cache it moves by that token's price.
   */
  lemma PointPerToken(u: Usage, price: Price, tariff: Option<string>, r: Rate, more: Usage)
    requires Known(u, price, tariff, r) && Known(more, price, tariff, r)
    ensures var v, w := CostForCall(u, price, tariff, true).value.value, CostForCall(more, price, tariff, true).value.value;
      && v.Some? && w.Some?
      && (u.prompt == u.completion == Some(0) ==> v.value == 0.0)
      && (more == u.(completion := Some(u.completion.value + 1)) ==> w.value - v.value == r.output / price.unit as real)
      && (more == u.(prompt := Some(u.prompt.value + 1)) ==> w.value - v.value == r.input / price.unit as real)
      && (more == u.(cached := Some(u.cached.value + 1)) ==>
            w.value - v.value == (r.cacheHit - r.input) / price.unit as real)
  {
    KnownIsCharged(u, price, tariff, r);
    KnownIsCharged(more, price, tariff, r);
    ChargePerToken(r, u.prompt.value, u.cached.value, u.completion.value, price.unit);
  }

  /** The prompt fits in this tier and in none before it. */
  predicate FirstFits(tiers: seq<Tier>, prompt: int, k: nat) {
    k < |tiers| && prompt <= tiers[k].inputMax && forall i | 0 <= i < k :: tiers[i].inputMax < prompt
  }

  /** A tiered price is that of the first tier the prompt fits in. */
  lemma {:induction false} TierIs(tiers: seq<Tier>, prompt: int)
    ensures FirstTier(tiers, prompt).None? <==> forall t <- tiers :: t.inputMax < prompt
    ensures FirstTier(tiers, prompt).Some? ==>
      exists k: nat :: FirstFits(tiers, prompt, k) && FirstTier(tiers, prompt) == Some(tiers[k].rate)
  {
    if tiers != [] {
      if prompt <= tiers[0].inputMax {
        assert tiers[0] in tiers && FirstFits(tiers, prompt, 0);
      } else {
        TierIs(tiers[1..], prompt);
        assert forall t <- tiers :: t == tiers[0] || t in tiers[1..];
        if FirstTier(tiers, prompt).Some? {
          var k: nat :| FirstFits(tiers[1..], prompt, k) && FirstTier(tiers[1..], prompt) == Some(tiers[1..][k].rate);
          assert tiers[k + 1] == tiers[1..][k] && forall i | 0 < i < k + 1 :: tiers[i] == tiers[1..][i - 1];
          assert FirstFits(tiers, prompt, k + 1);
        }
      }
    }
  }

  lemma {:induction false} LookupFinds(tariffs: seq<Tariff>, name: string)
    requires forall i, k | 0 <= i < k < |tariffs| :: tariffs[i].name != tariffs[k].name
    ensures Lookup(tariffs, name).None? <==> forall t <- tariffs :: t.name != name
    ensures forall t <- tariffs :: t.name == name ==> Lookup(tariffs, name) == Some(t.rate)
  {
    if tariffs != [] {
      LookupFinds(tariffs[1..], name);
      assert forall t <- tariffs :: t == tariffs[0] || t in tariffs[1..];
      assert tariffs[0] in tariffs;
    }
  }

  /** The rates that may have applied: of the prompt's tier, of the tariff asked for, or of every tariff. */
  lemma RatesThatApply(schedule: Schedule, prompt: int, tariff: Option<string>)
    requires schedule.Named? ==>
      forall i, k | 0 <= i < k < |schedule.tariffs| :: schedule.tariffs[i].name != schedule.tariffs[k].name
    ensures var r := Applicable(schedule, prompt, tariff);
      && (r.Failure? <==> schedule.Named? && tariff.Some? && forall t <- schedule.tariffs :: t.name != tariff.value)
      && (r.Failure? ==> r.error == UnknownTariff)
      && (r.Success? && r.value.None? <==> schedule.Tiered? && forall t <- schedule.tiers :: t.inputMax < prompt)
      && (r.Success? && r.value.Some? ==>
            forall rate :: rate in r.value.value <==>
              if schedule.Tiered? then FirstTier(schedule.tiers, prompt) == Some(rate)
              else exists t <- schedule.tariffs ::
                t.rate == rate && (tariff.Some? && tariff.value != "" ==> t.name == tariff.value))
  {
    match schedule
    case Tiered(tiers) =>
      TierIs(tiers, prompt);
    case Named(tariffs) =>
      if tariff.Some? {
        LookupFinds(tariffs, tariff.value);
      }
      var r := Applicable(schedule, prompt, tariff);
      if r.Success? && (tariff.None? || tariff.value == "") {
        EveryRate(tariffs);
      }
  }

  lemma EveryRate(tariffs: seq<Tariff>)
    ensures var rates := seq(|tariffs|, i requires 0 <= i < |tariffs| => tariffs[i].rate);
      forall rate :: rate in rates <==> exists t <- tariffs :: t.rate == rate
  {
    var rates := seq(|tariffs|, i requires 0 <= i < |tariffs| => tariffs[i].rate);
    forall t <- tariffs ensures t.rate in rates {
      var i :| 0 <= i < |tariffs| && tariffs[i] == t;
      assert rates[i] == t.rate;
    }
  }

  /** A call is refused for impossible counts, an unknown tariff, or a price list that cannot bill it; without
      usage, or beyond every tier, its cost is missing instead. */
  lemma RefusedOrMissing(u: Usage, price: Price, tariff: Option<string>, billable: bool)
    ensures var r, asked := CostForCall(u, price, tariff, billable), billable && u.prompt.Some? && u.completion.Some?;
      && (!asked ==> r == Success(Missing))
      && (asked && (u.prompt.value < 0 || u.completion.value < 0) ==> r == Failure(InvalidUsage))
      && (asked && u.prompt.value >= 0 && u.completion.value >= 0 ==>
            && (r == Failure(InvalidCached) <==> u.cached.Some? && (u.cached.value < 0 || u.cached.value > u.prompt.value))
            && (r == Success(Missing) ==> Applicable(price.schedule, u.prompt.value, tariff) == Success(None))
            && (r == Failure(UnknownTariff) ==> Applicable(price.schedule, u.prompt.value, tariff).Failure?)
            && (r == Failure(NoRates) ==> Applicable(price.schedule, u.prompt.value, tariff) == Success(Some([])))
            && (r == Failure(ZeroUnit) ==> price.unit == 0)
            && r != Failure(InvalidUsage))
  {
  }

  // ------------------------------------------------------------------------ a run

  function Sum(values: seq<real>): real {
    if values == [] then 0.0 else values[0] + Sum(values[1..])
  }

  /** The run's estimates; Missing as soon as one call has none, or when there are no calls. */
  function RunEstimates(calls: seq<Usage>, price: Price, billable: bool): Result<seq<Estimate>, Error> {
    if calls == [] then Success([])
    else
      var first, rest := CostForCall(calls[0], price, None, billable), RunEstimates(calls[1..], price, billable);
      if first.Failure? then Failure(first.error)
      else if rest.Failure? then Failure(rest.error)
      else Success([first.value] + rest.value)
  }

  function Lowers(estimates: seq<Estimate>): seq<real>
    requires forall e <- estimates :: e.Bounds?
  {
    seq(|estimates|, i requires 0 <= i < |estimates| => estimates[i].lower)
  }

  function Uppers(estimates: seq<Estimate>): seq<real>
    requires forall e <- estimates :: e.Bounds?
  {
    seq(|estimates|, i requires 0 <= i < |estimates| => estimates[i].upper)
  }

  /** Lower and upper cost of a run, when every call has an interval. */
  function RunCost(estimates: seq<Estimate>): Option<(real, real)> {
    if estimates != [] && forall e <- estimates :: e.Bounds? then Some((Sum(Lowers(estimates)), Sum(Uppers(estimates))))
    else None
  }

  /** One possible bill for each call. */
  ghost predicate PossibleRun(calls: seq<Usage>, price: Price, bills: seq<real>) {
    |bills| == |calls| && forall i | 0 <= i < |calls| :: Possible(calls[i], price, None, bills[i])
  }

  lemma {:induction false} SumWithin(lowers: seq<real>, values: seq<real>, uppers: seq<real>)
    requires |lowers| == |values| == |uppers|
    requires forall i | 0 <= i < |values| :: lowers[i] <= values[i] <= uppers[i]
    ensures Sum(lowers) <= Sum(values) <= Sum(uppers)
  {
    if values != [] {
      SumWithin(lowers[1..], values[1..], uppers[1..]);
    }
  }

  lemma {:induction false} EstimatesAre(calls: seq<Usage>, price: Price, billable: bool)
    requires RunEstimates(calls, price, billable).Success?
    ensures var e := RunEstimates(calls, price, billable).value;
      |e| == |calls| && forall i | 0 <= i < |calls| :: CostForCall(calls[i], price, None, billable) == Success(e[i])
  {
    if calls != [] {
      EstimatesAre(calls[1..], price, billable);
    }
  }

  /** Adding the ends of the intervals bounds the whole bill of the run, again with both ends attained. */
  lemma RunBounds(calls: seq<Usage>, price: Price, billable: bool)
    requires RunEstimates(calls, price, billable).Success?
    requires RunCost(RunEstimates(calls, price, billable).value).Some?
    ensures var (lower, upper) := RunCost(RunEstimates(calls, price, billable).value).value;
      && (forall bills :: PossibleRun(calls, price, bills) ==> lower <= Sum(bills) <= upper)
      && (exists bills :: PossibleRun(calls, price, bills) && Sum(bills) == lower)
      && (exists bills :: PossibleRun(calls, price, bills) && Sum(bills) == upper)
  {
    var e := RunEstimates(calls, price, billable).value;
    EstimatesAre(calls, price, billable);
    forall i | 0 <= i < |calls|
      ensures forall cost :: Possible(calls[i], price, None, cost) ==> e[i].lower <= cost <= e[i].upper
      ensures Possible(calls[i], price, None, e[i].lower) && Possible(calls[i], price, None, e[i].upper)
    {
      assert e[i] in e;
      BoundsAreSoundAndTight(calls[i], price, None);
    }
    forall bills | PossibleRun(calls, price, bills) ensures Sum(Lowers(e)) <= Sum(bills) <= Sum(Uppers(e)) {
      SumWithin(Lowers(e), bills, Uppers(e));
    }
    assert PossibleRun(calls, price, Lowers(e)) && PossibleRun(calls, price, Uppers(e));
  }

  /** A run has bounds exactly when it made calls, none is refused and every one has bounds. */
  lemma {:induction false} RunBoundsGivenIff(calls: seq<Usage>, price: Price, billable: bool)
    ensures RunEstimates(calls, price, billable).Success?
      <==> forall u <- calls :: CostForCall(u, price, None, billable).Success?
    ensures RunEstimates(calls, price, billable).Success? ==>
      var cost := RunCost(RunEstimates(calls, price, billable).value);
      cost.Some? <==> calls != [] && forall u <- calls :: CostForCall(u, price, None, billable).value.Bounds?
  {
    if calls != [] {
      RunBoundsGivenIff(calls[1..], price, billable);
      assert forall u <- calls :: u == calls[0] || u in calls[1..];
      assert calls[0] in calls;
    }
    if RunEstimates(calls, price, billable).Success? {
      EstimatesAre(calls, price, billable);
      var e := RunEstimates(calls, price, billable).value;
      forall u <- calls ensures CostForCall(u, price, None, billable).value in e {
        var i :| 0 <= i < |calls| && calls[i] == u;
      }
      forall x <- e ensures exists u <- calls :: CostForCall(u, price, None, billable) == Success(x) {
        var i :| 0 <= i < |e| && e[i] == x;
        assert calls[i] in calls;
      }
    }
  }
}
