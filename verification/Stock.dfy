/** Stock states of variants and products (frontend/lib/stock.ts). */
module Stock {
  import opened Options

  datatype StockState = InStock | Low | Out | Manual | Paused

  /** Of the whole product: `Auto` is provider-fulfilled, `Unknown` has no variants. */
  datatype ProductState = State(state: StockState) | Auto | Unknown

  /** `active` stands for `is_active !== false`. */
  datatype Variant = Variant(
    price: real, active: bool, stockState: Option<string>, deliveryMode: Option<string>, stockCount: Option<int>)

  function ParseState(value: Option<string>): Option<StockState> {
    if value == Some("in_stock") then Some(InStock)
    else if value == Some("low") then Some(Low)
    else if value == Some("out") then Some(Out)
    else if value == Some("manual") then Some(Manual)
    else if value == Some("paused") then Some(Paused)
    else None
  }

  function VariantStockState(v: Variant): StockState {
    if ParseState(v.stockState).Some? then ParseState(v.stockState).value
    else if v.deliveryMode == Some("manual") then Manual
    else
      var count := if v.stockCount.Some? then v.stockCount.value else 0;
      if count <= 0 then Out else if count <= 10 then Low else InStock
  }

  predicate VariantPurchasable(v: Variant) {
    var state := VariantStockState(v);
    state.InStock? || state.Low? || state.Manual?
  }

  function Active(variants: seq<Variant>): (r: seq<Variant>)
    ensures forall v :: v in r <==> v in variants && v.active
  {
    if variants == [] then []
    else if variants[0].active then [variants[0]] + Active(variants[1..])
    else Active(variants[1..])
  }

  predicate HasState(variants: seq<Variant>, state: StockState) {
    exists v :: v in variants && VariantStockState(v) == state
  }

  function ProductStockState(variants: seq<Variant>): ProductState {
    var active := Active(variants);
    if active == [] then Unknown
    else if HasState(active, InStock) then State(InStock)
    else if HasState(active, Low) then State(Low)
    else if HasState(active, Manual) then State(Manual)
    else if HasState(active, Paused) then State(Paused)
    else State(Out)
  }

  predicate ProductPurchasable(state: ProductState) {
    state.Auto? || (state.State? && (state.state.InStock? || state.state.Low? || state.state.Manual?))
  }

  /** A product can be ordered exactly when one of its active packages can. */
  lemma {:induction false} RollUpIsPurchasable(variants: seq<Variant>)
    ensures ProductPurchasable(ProductStockState(variants)) <==>
      exists v :: v in variants && v.active && VariantPurchasable(v)
  {
    var active := Active(variants);
    if v :| v in variants && v.active && VariantPurchasable(v) {
      assert v in active;
      assert HasState(active, VariantStockState(v));
    }
    if ProductPurchasable(ProductStockState(variants)) {
      var state := ProductStockState(variants).state;
      assert HasState(active, state);
      var v :| v in active && VariantStockState(v) == state;
      assert VariantPurchasable(v);
    }
  }

  /** The order of the states: "low" means every stocked package is low, and
      "out" that every active package is. */
  lemma {:induction false} RollUpMeans(variants: seq<Variant>)
    requires Active(variants) != []
    ensures var s := ProductStockState(variants);
      && (s == State(Low) <==>
            HasState(Active(variants), Low) && forall v :: v in Active(variants) ==> !VariantStockState(v).InStock?)
      && (s == State(Out) <==> forall v :: v in Active(variants) ==> VariantStockState(v).Out?)
  {
    var active := Active(variants);
    assert active[0] in active;
    if s: StockState :| HasState(active, s) && s != Out {
      var v :| v in active && VariantStockState(v) == s;
    }
    if v :| v in active && !VariantStockState(v).Out? {
      assert HasState(active, VariantStockState(v));
    }
  }

  /** How good a state of counted stock is. */
  function Rank(s: StockState): nat { if s.Out? then 0 else if s.Low? then 1 else 2 }

  /** Where the payload carries a count only, more units never read as a worse
      state, ten units or fewer are low, and none or fewer are out. */
  lemma {:induction false} MoreStockIsNoWorse(v: Variant, more: int)
    requires ParseState(v.stockState).None? && v.deliveryMode != Some("manual")
    requires v.stockCount.Some? && more >= v.stockCount.value
    ensures var w := v.(stockCount := Some(more));
      && Rank(VariantStockState(v)) <= Rank(VariantStockState(w))
      && (Rank(VariantStockState(w)) == 2 <==> more > 10) && (VariantPurchasable(w) <==> more > 0)
  {
  }
}
