/** The offer in a product page's JSON-LD (frontend/lib/structured-data.ts),
    against the stock and price shown on the page. */
module StructuredData {
  import opened Options
  import opened PricingDisplay
  import opened Stock

  datatype Availability = SchemaInStock | SchemaLimited | SchemaBackOrder | SchemaOutOfStock

  predicate IsReady(v: Variant) {
    v.stockState != Some("out") && v.stockState != Some("paused") && v.stockState != Some("manual")
  }

  /** `availability`, which looks at the raw `stock_state` only. */
  function AvailabilityOf(variants: seq<Variant>): Availability {
    if exists v :: v in variants && IsReady(v) then
      (if forall v :: v in variants && IsReady(v) ==> v.stockState == Some("low") then SchemaLimited else SchemaInStock)
    else if exists v :: v in variants && v.stockState == Some("manual") then SchemaBackOrder
    else SchemaOutOfStock
  }

  function Max(s: seq<real>): (m: real)
    requires s != []
    ensures m in s && forall x :: x in s ==> x <= m
  {
    if |s| == 1 then s[0]
    else
      var m := Max(s[1..]);
      assert s == [s[0]] + s[1..];
      if s[0] >= m then s[0] else m
  }

  datatype Offer = Offer(lowPrice: real, highPrice: real, offerCount: nat, availability: Availability)

  function Fallbacks(prices: seq<real>): seq<Variant> {
    if prices == [] then []
    else if prices[0] > 0.0 then [Variant(prices[0], true, Some("in_stock"), None, None)] + Fallbacks(prices[1..])
    else Fallbacks(prices[1..])
  }

  function AggregateOffer(variants: seq<Variant>, fallbackPrices: seq<real>): Option<Offer> {
    var priced := if Priced(variants) != [] then Priced(variants) else Fallbacks(fallbackPrices);
    if priced == [] then None
    else Some(Offer(Min(Prices(priced)), Max(Prices(priced)), |priced|, AvailabilityOf(priced)))
  }

  /** The price of a request package, by its size. */
  function PackagePrice(unit: real): real -> real { size => Round(PackageTotal(unit, size)) }

  function Mapped(sizes: seq<real>, price: real -> real): (r: seq<real>)
    ensures |r| == |sizes| && forall i :: 0 <= i < |r| ==> r[i] == price(sizes[i])
  {
    seq(|sizes|, i requires 0 <= i < |sizes| => price(sizes[i]))
  }

  function FormulaPrices(strategy: Strategy, params: Option<Params>): seq<real> {
    if strategy.Credit? && params.Some? && NumberOr0(params.value.creditPrice) > 0.0
       && PositiveOf(params.value.packageSizes) != []
    then Mapped(PositiveOf(params.value.packageSizes), PackagePrice(NumberOr0(params.value.creditPrice)))
    else
      var min := EffectiveMinPrice([], strategy, params);
      if min > 0.0 then [min] else []
  }

  // -------------------------------------------------------------- the two classifiers

  function Image(s: ProductState): Availability {
    if s == State(InStock) then SchemaInStock
    else if s == State(Low) then SchemaLimited
    else if s == State(Manual) then SchemaBackOrder
    else SchemaOutOfStock
  }

  /** How well a state reads on the page; paused and out read alike. */
  function PageLevel(v: Variant): nat {
    match VariantStockState(v)
    case InStock => 3
    case Low => 2
    case Manual => 1
    case _ => 0
  }

  predicate IsExplicit(v: Variant) { ParseState(v.stockState).Some? }

  /** How well the markup takes it: it looks at the raw state only, and takes what
      it cannot read for in stock. */
  function MarkupLevel(v: Variant): nat { if IsExplicit(v) then PageLevel(v) else 3 }

  function LevelOf(a: Availability): nat {
    match a
    case SchemaInStock => 3
    case SchemaLimited => 2
    case SchemaBackOrder => 1
    case SchemaOutOfStock => 0
  }

  /** `n` is the best of the levels. */
  ghost predicate IsBest(variants: seq<Variant>, level: Variant -> nat, n: nat) {
    (forall v :: v in variants ==> level(v) <= n) && exists v :: v in variants && level(v) == n
  }

  /** Both classifiers report the best level there is, each by its own measure. */
  lemma {:induction false} MarkupReportsTheBest(variants: seq<Variant>)
    requires variants != []
    ensures IsBest(variants, MarkupLevel, LevelOf(AvailabilityOf(variants)))
  {
    assert variants[0] in variants;
    forall v | v in variants
      ensures (IsReady(v) <==> MarkupLevel(v) >= 2) && (v.stockState == Some("low") <==> MarkupLevel(v) == 2)
      ensures v.stockState == Some("manual") <==> MarkupLevel(v) == 1
    {
    }
  }

  lemma {:induction false} PageReportsTheBest(variants: seq<Variant>)
    requires Active(variants) != []
    ensures IsBest(Active(variants), PageLevel, LevelOf(Image(ProductStockState(variants))))
  {
    var active := Active(variants);
    assert active[0] in active;
    forall v, s: StockState | v in active && VariantStockState(v) == s ensures HasState(active, s) {}
  }

  lemma {:induction false} SameLevel(a: Availability, b: Availability)
    ensures a == b <==> LevelOf(a) == LevelOf(b)
  {
  }

  /** On one list of active packages the two agree if and only if every state is
      explicit or some package reads as in stock anyway. */
  lemma {:induction false} AgreementOnOneList(variants: seq<Variant>)
    requires variants != [] && forall v :: v in variants ==> v.active
    ensures AvailabilityOf(variants) == Image(ProductStockState(variants)) <==>
      || (forall v :: v in variants ==> IsExplicit(v))
      || (exists v :: v in variants && VariantStockState(v).InStock?)
  {
    var active := Active(variants);
    assert variants[0] in active;
    assert forall v :: v in active <==> v in variants;
    MarkupReportsTheBest(variants);
    PageReportsTheBest(variants);
    SameLevel(AvailabilityOf(variants), Image(ProductStockState(variants)));
  }

  /** Nothing in `whole` reads better than everything in `part`. */
  ghost predicate Covers(part: seq<Variant>, whole: seq<Variant>, level: Variant -> nat) {
    forall v {:trigger Reached(part, level, v)} :: v in whole ==> Reached(part, level, v)
  }

  ghost predicate Reached(part: seq<Variant>, level: Variant -> nat, v: Variant) {
    exists w :: w in part && level(v) <= level(w)
  }

  predicate AllExplicit(variants: seq<Variant>) { forall v :: v in variants ==> IsExplicit(v) }

  predicate SomeInStock(variants: seq<Variant>) { exists v :: v in Active(variants) && VariantStockState(v).InStock? }

  lemma {:induction false} PricedAreActive(variants: seq<Variant>)
    requires Priced(variants) != []
    ensures Active(variants) != [] && forall v :: v in Priced(variants) ==> v in Active(variants)
  {
    assert Priced(variants)[0] in Priced(variants);
    assert Priced(variants)[0] in Active(variants);
  }

  /** The markup is made of the priced packages only and the page of all active
      ones. They agree if and only if no active package reads better on the page
      than every priced one, when the priced ones carry their states; when one of
      those does not, or none is priced and formula prices stand in, exactly if
      some active package reads as in stock. */
  lemma {:induction false} OfferAgreesExactlyWhen(variants: seq<Variant>, fallbackPrices: seq<real>)
    requires AggregateOffer(variants, fallbackPrices).Some?
    ensures AggregateOffer(variants, fallbackPrices).value.availability == Image(ProductStockState(variants)) <==>
      if Priced(variants) != [] && AllExplicit(Priced(variants))
      then Covers(Priced(variants), Active(variants), PageLevel)
      else SomeInStock(variants)
  {
    if Priced(variants) == [] {
      FallbacksAreInStock(fallbackPrices);
      if Active(variants) != [] { PageReportsTheBest(variants); }
    } else {
      PricedAgreeExactlyWhen(variants);
    }
  }

  lemma {:induction false} PricedAgreeExactlyWhen(variants: seq<Variant>)
    requires Priced(variants) != []
    ensures AvailabilityOf(Priced(variants)) == Image(ProductStockState(variants)) <==>
      if AllExplicit(Priced(variants)) then Covers(Priced(variants), Active(variants), PageLevel)
      else SomeInStock(variants)
  {
    MarkupReportsTheBest(Priced(variants));
    PageReportsTheBestOfPriced(variants);
    SameLevel(AvailabilityOf(Priced(variants)), Image(ProductStockState(variants)));
    BestOfPriced(variants, LevelOf(AvailabilityOf(Priced(variants))), LevelOf(Image(ProductStockState(variants))));
  }

  lemma {:induction false} PageReportsTheBestOfPriced(variants: seq<Variant>)
    requires Priced(variants) != []
    ensures IsBest(Active(variants), PageLevel, LevelOf(Image(ProductStockState(variants))))
  {
    PricedAreActive(variants);
    PageReportsTheBest(variants);
  }

  lemma {:induction false} BestOfPriced(variants: seq<Variant>, m: nat, p: nat)
    requires Priced(variants) != []
    requires IsBest(Priced(variants), MarkupLevel, m) && IsBest(Active(variants), PageLevel, p)
    ensures m == p <==>
      if AllExplicit(Priced(variants)) then Covers(Priced(variants), Active(variants), PageLevel)
      else SomeInStock(variants)
  {
    PricedAreActive(variants);
    if AllExplicit(Priced(variants)) {
      BestIsCovering(Active(variants), Priced(variants), PageLevel, MarkupLevel, m, p);
    } else {
    }
  }

  lemma {:induction false} FallbacksAreInStock(prices: seq<real>)
    requires Fallbacks(prices) != []
    ensures AvailabilityOf(Fallbacks(prices)) == SchemaInStock
  {
    var f := Fallbacks(prices);
    FallbackStates(prices);
    assert f[0] in f && IsReady(f[0]);
  }

  lemma {:induction false} FallbackStates(prices: seq<real>)
    ensures forall v :: v in Fallbacks(prices) ==> v.stockState == Some("in_stock")
  {
    if prices != [] { FallbackStates(prices[1..]); }
  }

  /** The best of a part is the best of the whole exactly when the part covers it. */
  lemma {:induction false} BestIsCovering(
      whole: seq<Variant>, part: seq<Variant>, page: Variant -> nat, markup: Variant -> nat, m: nat, p: nat)
    requires IsBest(part, markup, m) && IsBest(whole, page, p)
    requires forall w :: w in part ==> w in whole && markup(w) == page(w)
    ensures m == p <==> Covers(part, whole, page)
  {
    var best :| best in whole && page(best) == p;
    var top :| top in part && markup(top) == m;
    assert page(top) == m && m <= p;
    assert Reached(part, page, best) <==> p <= m;
  }

  /** In particular they agree on the active, priced packages of a payload that
      carries its stock states. */
  lemma {:induction false} MarkupAgreesWithPage(variants: seq<Variant>, fallbackPrices: seq<real>)
    requires variants != [] && forall v :: v in variants ==> v.active && v.price > 0.0 && IsExplicit(v)
    ensures var offer := AggregateOffer(variants, fallbackPrices);
      offer.Some? && offer.value.availability == Image(ProductStockState(variants))
  {
    PricedCoverActive(variants);
    OfferAgreesExactlyWhen(variants, fallbackPrices);
  }

  lemma {:induction false} PricedCoverActive(variants: seq<Variant>)
    requires variants != [] && forall v :: v in variants ==> v.active && v.price > 0.0 && IsExplicit(v)
    ensures Priced(variants) != [] && AllExplicit(Priced(variants))
    ensures Covers(Priced(variants), Active(variants), PageLevel)
  {
    assert variants[0] in Priced(variants);
    forall v | v in Active(variants) ensures Reached(Priced(variants), PageLevel, v) {
      assert v in Priced(variants);
    }
  }

  /** They do differ: a sold-out package with a price beside a package in stock
      that costs nothing. */
  lemma {:induction false} FreePackageIsMissing(fallbackPrices: seq<real>)
    ensures var dear := Variant(1.0, true, Some("out"), None, None);
      var free := Variant(0.0, true, Some("in_stock"), None, None);
      && AggregateOffer([dear, free], fallbackPrices).Some?
      && AggregateOffer([dear, free], fallbackPrices).value.availability == SchemaOutOfStock
      && ProductStockState([dear, free]) == State(InStock)
  {
    var dear := Variant(1.0, true, Some("out"), None, None);
    var free := Variant(0.0, true, Some("in_stock"), None, None);
    var both := [dear, free];
    assert both[1..] == [free] && [free][1..] == [];
    assert Priced([free]) == [] && Priced(both) == [dear];
    assert free in Active(both) by { assert free in both; }
    assert HasState(Active(both), InStock);
    assert forall v :: v in [dear] ==> v == dear;
  }

  /** The advertised range contains the price shown, and starts at it exactly when
      a cheapest package can be ordered or none can. */
  lemma {:induction false} OfferContainsShownPrice(
      variants: seq<Variant>, strategy: Strategy, params: Option<Params>, fallbackPrices: seq<real>)
    requires Priced(variants) != []
    ensures var offer := AggregateOffer(variants, fallbackPrices);
      var shown := EffectiveMinPrice(variants, strategy, params);
      && offer.Some? && offer.value.lowPrice <= shown <= offer.value.highPrice
      && offer.value.offerCount == |Priced(variants)|
      && (offer.value.lowPrice == shown <==>
            || (exists v :: v in Priced(variants) && v.price == offer.value.lowPrice && VariantPurchasable(v))
            || (forall v :: v in Priced(variants) ==> !VariantPurchasable(v)))
  {
    var priced := Priced(variants);
    var orderable := Orderable(priced);
    if orderable != [] { assert orderable[0] in orderable; }
    ShownPriceCanBePaid(variants, strategy, params);
    var m := EffectiveMinPrice(variants, strategy, params);
    var v :| v in priced && v.price == m;
    assert m in Prices(priced);
  }

  /** Without packages the advertised low price is the rounded "from" price of a
      product sold by request packages, and the "from" price itself otherwise. */
  lemma {:induction false} FormulaLowPrice(strategy: Strategy, params: Option<Params>)
    requires FormulaPrices(strategy, params) != []
    ensures var from := EffectiveMinPrice([], strategy, params);
      Min(FormulaPrices(strategy, params)) == (if strategy.Credit? then Round(from) else from)
  {
    if strategy.Credit? {
      var unit, sizes := NumberOr0(params.value.creditPrice), PositiveOf(params.value.packageSizes);
      PackagePriceMonotone(unit, sizes);
      CheapestMapped(sizes, PackagePrice(unit));
      assert Priced([]) == [] && Orderable([]) == [];
    }
  }

  lemma {:induction false} PackagePriceMonotone(unit: real, sizes: seq<real>)
    requires unit > 0.0 && forall x :: x in sizes ==> x > 0.0
    ensures forall a, b :: a in sizes && b in sizes && a <= b ==> PackagePrice(unit)(a) <= PackagePrice(unit)(b)
  {
    forall a, b | a in sizes && b in sizes && a <= b ensures PackagePrice(unit)(a) <= PackagePrice(unit)(b) {
      OnePackageMonotone(unit, a, b);
    }
  }

  lemma {:induction false} OnePackageMonotone(unit: real, a: real, b: real)
    requires unit > 0.0 && 0.0 < a <= b
    ensures PackagePrice(unit)(a) <= PackagePrice(unit)(b)
  {
    ProductMonotone(unit, unit, a, b);
    RoundMonotone(PackageTotal(unit, a), PackageTotal(unit, b));
  }

  lemma {:induction false} CheapestMapped(sizes: seq<real>, price: real -> real)
    requires sizes != [] && forall a, b :: a in sizes && b in sizes && a <= b ==> price(a) <= price(b)
    ensures Min(Mapped(sizes, price)) == price(Min(sizes))
  {
    var prices := Mapped(sizes, price);
    var i :| 0 <= i < |sizes| && sizes[i] == Min(sizes);
    var j :| 0 <= j < |prices| && prices[j] == Min(prices);
    assert sizes[j] in sizes && prices[i] in prices;
  }
}
