/** The "from" price shown on cards (frontend/lib/pricing-display.ts), over exact
    reals. */
module PricingDisplay {
  import opened Options
  import opened Stock

  /** A JSON value as the price code sees it. */
  datatype Json = Num(value: real) | Other

  /** Each field is `None` when the payload's value is not of the shape the code
      looks into; the sequences hold the values in payload order. */
  datatype Params = Params(
    planPrices: Option<seq<Json>>,
    basePrice: Json,
    typeMult: Option<seq<Json>>,
    networkMult: Option<seq<Json>>,
    durationDays: Option<seq<Json>>,
    creditPrice: Json,
    packageSizes: Option<seq<Json>>)

  datatype Strategy = Config | Credit | OtherStrategy

  /** `Math.round`: half up. */
  function Round(x: real): real { (x + 0.5).Floor as real }

  function Min(s: seq<real>): (m: real)
    requires s != []
    ensures m in s && forall x :: x in s ==> m <= x
  {
    if |s| == 1 then s[0]
    else
      var m := Min(s[1..]);
      assert s == [s[0]] + s[1..];
      if s[0] <= m then s[0] else m
  }

  function Positive(values: seq<Json>): (r: seq<real>)
    ensures forall x :: x in r <==> x > 0.0 && Num(x) in values
  {
    if values == [] then []
    else if values[0].Num? && values[0].value > 0.0 then [values[0].value] + Positive(values[1..])
    else Positive(values[1..])
  }

  function PositiveOf(values: Option<seq<Json>>): seq<real> {
    if values.Some? then Positive(values.value) else []
  }

  function MinOfMult(mult: Option<seq<Json>>): real {
    if PositiveOf(mult) != [] then Min(PositiveOf(mult)) else 1.0
  }

  function NumberOr0(j: Json): real { if j.Num? then j.value else 0.0 }

  function ConfigMinPrice(p: Params): real {
    var prices := PositiveOf(p.planPrices);
    if prices != [] then Min(prices)
    else if NumberOr0(p.basePrice) <= 0.0 then 0.0
    else
      var durations := PositiveOf(p.durationDays);
      var minDays := if durations != [] then Min(durations) else 30.0;
      FormulaPrice(NumberOr0(p.basePrice), MinOfMult(p.typeMult), MinOfMult(p.networkMult), minDays)
  }

  function FormulaPrice(base: real, typeMult: real, networkMult: real, days: real): real {
    Round(base * typeMult * networkMult * (days / 30.0))
  }

  function CreditMinPrice(p: Params): real {
    var unit := NumberOr0(p.creditPrice);
    var packages := PositiveOf(p.packageSizes);
    if unit > 0.0 && packages != [] then PackageTotal(unit, Min(packages)) else 0.0
  }

  function PackageTotal(unit: real, size: real): real { unit * size }

  function Priced(variants: seq<Variant>): (r: seq<Variant>)
    ensures forall v :: v in r <==> v in variants && v.active && v.price > 0.0
  {
    if variants == [] then []
    else if variants[0].active && variants[0].price > 0.0 then [variants[0]] + Priced(variants[1..])
    else Priced(variants[1..])
  }

  function Orderable(variants: seq<Variant>): (r: seq<Variant>)
    ensures forall v :: v in r <==> v in variants && VariantPurchasable(v)
  {
    if variants == [] then []
    else if VariantPurchasable(variants[0]) then [variants[0]] + Orderable(variants[1..])
    else Orderable(variants[1..])
  }

  function Prices(variants: seq<Variant>): (r: seq<real>)
    ensures |r| == |variants|
    ensures forall x :: x in r <==> exists v :: v in variants && v.price == x
  {
    if variants == [] then [] else [variants[0].price] + Prices(variants[1..])
  }

  function EffectiveMinPrice(variants: seq<Variant>, strategy: Strategy, params: Option<Params>): real {
    var priced := Priced(variants);
    var orderable := Orderable(priced);
    var pool := if orderable != [] then orderable else priced;
    if pool != [] then Min(Prices(pool))
    else if params.None? then 0.0
    else match strategy
      case Config => ConfigMinPrice(params.value)
      case Credit => CreditMinPrice(params.value)
      case OtherStrategy => NumberOr0(params.value.basePrice)
  }

  // -------------------------------------------------------- against brute force

  /** The values a combination may use: the positive ones, or the default. */
  predicate Choice(values: Option<seq<Json>>, default: real, x: real) {
    if PositiveOf(values) != [] then x in PositiveOf(values) else x == default
  }

  /** The price of one combination, as the editor lists it. */
  function ComboPrice(base: real, typeMult: real, networkMult: real, days: real): real {
    Round(base * typeMult * networkMult * days / 30.0)
  }

  lemma {:induction false} RoundMonotone(x: real, y: real)
    requires x <= y
    ensures Round(x) <= Round(y)
  {
    var a, b := (x + 0.5).Floor, (y + 0.5).Floor;
    assert a as real <= x + 0.5 && y + 0.5 < b as real + 1.0;
    assert a as real < (b + 1) as real;
    assert a <= b;
  }

  lemma {:induction false} ProductMonotone(a: real, b: real, c: real, d: real)
    requires 0.0 < a <= b && 0.0 < c <= d
    ensures 0.0 < a * c <= b * d
  {
    assert a * c <= b * c;
    assert b * c <= b * d;
  }

  lemma {:induction false} TotalMonotone(
      base: real, t0: real, n0: real, d0: real, t: real, n: real, d: real)
    requires base > 0.0 && 0.0 < t0 <= t && 0.0 < n0 <= n && 0.0 < d0 <= d
    ensures base * t0 * n0 * d0 <= base * t * n * d
  {
    ProductMonotone(base, base, t0, t);
    ProductMonotone(base * t0, base * t, n0, n);
    ProductMonotone(base * t0 * n0, base * t * n, d0, d);
  }

  lemma {:induction false} PriceOfTotal(base: real, t: real, n: real, d: real, total: real)
    requires total == base * t * n * d
    ensures ComboPrice(base, t, n, d) == Round(total / 30.0)
  {
  }

  lemma {:induction false} ShareMonotone(x: real, y: real)
    requires x <= y
    ensures Round(x / 30.0) <= Round(y / 30.0)
  {
    RoundMonotone(x / 30.0, y / 30.0);
  }

  lemma {:induction false} PricesAsTotals(p: real, q: real, x: real, y: real)
    requires x <= y && p == Round(x / 30.0) && q == Round(y / 30.0)
    ensures p <= q
  {
    ShareMonotone(x, y);
  }

  /** No combination is cheaper than that of the cheapest parts. */
  lemma {:induction false} CombosAbove(base: real, t0: real, n0: real, d0: real, t: real, n: real, d: real)
    requires base > 0.0 && 0.0 < t0 <= t && 0.0 < n0 <= n && 0.0 < d0 <= d
    ensures ComboPrice(base, t0, n0, d0) <= ComboPrice(base, t, n, d)
  {
    var x, y := base * t0 * n0 * d0, base * t * n * d;
    TotalMonotone(base, t0, n0, d0, t, n, d);
    PriceOfTotal(base, t0, n0, d0, x);
    PriceOfTotal(base, t, n, d, y);
    PricesAsTotals(ComboPrice(base, t0, n0, d0), ComboPrice(base, t, n, d), x, y);
  }

  ghost predicate IsCombo(p: Params, t: real, n: real, d: real) {
    Choice(p.typeMult, 1.0, t) && Choice(p.networkMult, 1.0, n) && Choice(p.durationDays, 30.0, d)
  }

  /** Without a plan table the one formula over the cheapest parts is the minimum,
      rounded price by rounded price, over every type, network and duration. */
  lemma {:induction false} FromPriceIsMinimum(p: Params)
    requires PositiveOf(p.planPrices) == [] && NumberOr0(p.basePrice) > 0.0
    ensures forall t, n, d :: IsCombo(p, t, n, d) ==> ConfigMinPrice(p) <= ComboPrice(NumberOr0(p.basePrice), t, n, d)
    ensures exists t, n, d :: IsCombo(p, t, n, d) && ConfigMinPrice(p) == ComboPrice(NumberOr0(p.basePrice), t, n, d)
  {
    var base := NumberOr0(p.basePrice);
    var t0, n0 := MinOfMult(p.typeMult), MinOfMult(p.networkMult);
    var d0 := if PositiveOf(p.durationDays) != [] then Min(PositiveOf(p.durationDays)) else 30.0;
    SameFormula(base, t0, n0, d0);
    var from := ComboPrice(base, t0, n0, d0);
    assert IsCombo(p, t0, n0, d0) && ConfigMinPrice(p) == from;
    forall t, n, d | IsCombo(p, t, n, d) ensures from <= ComboPrice(base, t, n, d) {
      assert t0 <= t && n0 <= n && d0 <= d;
      CombosAbove(base, t0, n0, d0, t, n, d);
    }
  }

  /** The card divides the days by 30 first, the editor last. */
  lemma {:induction false} SameFormula(base: real, t: real, n: real, d: real)
    ensures FormulaPrice(base, t, n, d) == ComboPrice(base, t, n, d)
  {
    var k := base * t * n;
    assert k * (d / 30.0) == k * d / 30.0;
  }

  /** A plan table with a positive price wins: the cheapest positive plan. */
  lemma {:induction false} FromPriceOfPlans(p: Params)
    requires PositiveOf(p.planPrices) != []
    ensures Num(ConfigMinPrice(p)) in p.planPrices.value && ConfigMinPrice(p) > 0.0
    ensures forall x :: Num(x) in p.planPrices.value && x > 0.0 ==> ConfigMinPrice(p) <= x
  {
  }

  /** The price shown can really be paid: it is that of a package a buyer can
      order now, and no such package is cheaper; when none can be ordered it is
      the cheapest price there is. */
  lemma {:induction false} ShownPriceCanBePaid(variants: seq<Variant>, strategy: Strategy, params: Option<Params>)
    requires Priced(variants) != []
    ensures var m := EffectiveMinPrice(variants, strategy, params);
      var any := exists v :: v in Priced(variants) && VariantPurchasable(v);
      && (exists v :: v in Priced(variants) && v.price == m && (any ==> VariantPurchasable(v)))
      && (forall v :: v in Priced(variants) && (any ==> VariantPurchasable(v)) ==> m <= v.price)
  {
    var priced := Priced(variants);
    var orderable := Orderable(priced);
    if orderable != [] { assert orderable[0] in orderable; }
    var pool := if orderable != [] then orderable else priced;
    assert EffectiveMinPrice(variants, strategy, params) == Min(Prices(pool));
    assert forall v :: v in pool ==> v.price in Prices(pool);
  }
}
