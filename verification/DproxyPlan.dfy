/** Sale packages of proxies, their plan keys and their pricing params
    (frontend/lib/dproxy-plan.ts). Prices are whole amounts. */
module DproxyPlan {
  import opened JsCollections
  import opened JsText
  import opened Options

  datatype Package = Package(kind: string, network: string, days: nat, price: int)

  /** What a plan key stands for. */
  datatype Code = Code(kind: string, network: string, days: nat)

  function CodeOf(p: Package): Code { Code(Trim(p.kind), Trim(p.network), p.days) }

  function KeyOf(c: Code): string { c.kind + "|" + c.network + "|" + Decimal(c.days) }

  function FormatDproxyPlanKey(kind: string, network: string, days: nat): string {
    KeyOf(Code(Trim(kind), Trim(network), days))
  }

  /** `Number(rawDays) || 0`; only runs of digits are read as numbers here. */
  function DaysOf(raw: string): nat { if AllDigits(raw) then NumberOf(raw) else 0 }

  function ParseDproxyPlanKey(key: string): Code {
    var parts := Split(key, '|');
    Code(parts[0], if |parts| > 1 then parts[1] else "", DaysOf(if |parts| > 2 then parts[2] else ""))
  }

  predicate PipeFree(c: Code) { '|' !in c.kind && '|' !in c.network }

  /** A key gives back the code it was written from exactly when that was free of `|`. */
  lemma {:induction false} CodeRoundTrip(c: Code)
    ensures ParseDproxyPlanKey(KeyOf(c)) == c <==> PipeFree(c)
  {
    if PipeFree(c) {
      NumberOfDecimal(c.days);
      var rest := c.network + "|" + Decimal(c.days);
      SplitPlain(Decimal(c.days), '|');
      SplitAt(c.network, '|', Decimal(c.days));
      SplitAt(c.kind, '|', rest);
      assert KeyOf(c) == c.kind + "|" + rest;
    }
  }

  /** Formatting and parsing give back what was put in if and only if type and
      network are trimmed and free of `|`. */
  lemma {:induction false} KeyRoundTrip(kind: string, network: string, days: nat)
    ensures ParseDproxyPlanKey(FormatDproxyPlanKey(kind, network, days)) == Code(kind, network, days) <==>
      IsTrimmed(kind) && IsTrimmed(network) && '|' !in kind && '|' !in network
  {
    var c := Code(Trim(kind), Trim(network), days);
    CodeRoundTrip(c);
    TrimProperties(kind);
    TrimProperties(network);
  }

  // ------------------------------------------------------------ params and back

  function EntriesOf(ps: seq<Package>): (r: Table)
    ensures |r| == |ps|
    ensures forall i :: 0 <= i < |r| ==> r[i] == (KeyOf(CodeOf(ps[i])), ps[i].price)
  {
    seq(|ps|, i requires 0 <= i < |ps| => (FormatDproxyPlanKey(ps[i].kind, ps[i].network, ps[i].days), ps[i].price))
  }

  predicate IsValid(p: Package) { Trim(p.kind) != "" && Trim(p.network) != "" && p.days > 0 && p.price > 0 }

  function Valid(ps: seq<Package>): (r: seq<Package>)
    ensures forall p :: p in r <==> p in ps && IsValid(p)
  {
    if ps == [] then []
    else if IsValid(ps[0]) then [ps[0]] + Valid(ps[1..])
    else Valid(ps[1..])
  }

  datatype Params = Params(
    planPrices: Table, basePrice: int, kinds: seq<string>, networks: seq<string>, durations: seq<nat>)

  /** `Math.round(a / b)`: half up. */
  function RoundDiv(a: int, b: int): int
    requires b > 0
  {
    (2 * a + b) / (2 * b)
  }

  function SalePriceFromBase(basePrice: int, days: nat): int {
    if basePrice == 0 || days == 0 then 0 else RoundDiv(basePrice * days, 30)
  }

  function BaseFromSalePrice(salePrice: int, days: nat): int {
    if salePrice == 0 || days == 0 then 0 else RoundDiv(salePrice * 30, days)
  }

  function Kinds(ps: seq<Package>): seq<string> { seq(|ps|, i requires 0 <= i < |ps| => ps[i].kind) }
  function Networks(ps: seq<Package>): seq<string> { seq(|ps|, i requires 0 <= i < |ps| => ps[i].network) }
  function Durations(ps: seq<Package>): seq<nat> { seq(|ps|, i requires 0 <= i < |ps| => ps[i].days) }

  function ParamsFromPackages(packages: seq<Package>): Params {
    var valid := Valid(packages);
    Params(
      FromEntries(EntriesOf(valid)),
      if valid != [] then BaseFromSalePrice(valid[0].price, valid[0].days) else 0,
      Unique(Kinds(valid)),
      Unique(Networks(valid)),
      Unique(Durations(valid)))
  }

  function ReadTable(t: Table): (r: seq<Package>)
    ensures forall p :: p in r ==> PipeFree(Code(p.kind, p.network, p.days))
  {
    if t == [] then []
    else
      var c := ParseDproxyPlanKey(t[0].0);
      if c.kind == "" || c.network == "" || c.days == 0 || t[0].1 == 0 then ReadTable(t[1..])
      else [Package(c.kind, c.network, c.days, t[0].1)] + ReadTable(t[1..])
  }

  function PositiveDays(durations: seq<nat>): seq<nat> {
    if durations == [] then []
    else if durations[0] > 0 then [durations[0]] + PositiveDays(durations[1..])
    else PositiveDays(durations[1..])
  }

  function PackagesFromParams(params: Option<Params>): seq<Package> {
    if params.None? then []
    else
      var p := params.value;
      if p.planPrices != [] then ReadTable(p.planPrices)
      else
        var durations := PositiveDays(p.durations);
        if |p.kinds| == 1 && |p.networks| == 1 && |durations| == 1
        then [Package(p.kinds[0], p.networks[0], durations[0], SalePriceFromBase(p.basePrice, durations[0]))]
        else []
  }

  // ----------------------------------------------------- what a table comes down to

  function Codes(ps: seq<Package>): (r: seq<Code>)
    ensures |r| == |ps| && forall i :: 0 <= i < |r| ==> r[i] == CodeOf(ps[i])
  {
    seq(|ps|, i requires 0 <= i < |ps| => CodeOf(ps[i]))
  }

  function KeysOf(cs: seq<Code>): (r: seq<string>)
    ensures |r| == |cs| && forall i :: 0 <= i < |r| ==> r[i] == KeyOf(cs[i])
  {
    seq(|cs|, i requires 0 <= i < |cs| => KeyOf(cs[i]))
  }

  lemma {:induction false} UniqueKeys(cs: seq<Code>)
    requires forall i :: 0 <= i < |cs| ==> PipeFree(cs[i])
    ensures Unique(KeysOf(cs)) == KeysOf(Unique(cs))
  {
    forall x, y | x in cs && y in cs && KeyOf(x) == KeyOf(y) ensures x == y {
      CodeRoundTrip(x);
      CodeRoundTrip(y);
    }
    MapUnique(KeyOf, cs);
    assert KeysOf(cs) == MapSeq(KeyOf, cs);
    assert KeysOf(Unique(cs)) == MapSeq(KeyOf, Unique(cs));
  }

  /** A table over good codes is read entry by entry. */
  lemma {:induction false} ReadGoodTable(t: Table, cs: seq<Code>)
    requires |t| == |cs| && forall i :: 0 <= i < |t| ==> GoodEntry(t[i], cs[i])
    ensures |ReadTable(t)| == |t|
    ensures forall i :: 0 <= i < |t| ==> ReadTable(t)[i] == Package(cs[i].kind, cs[i].network, cs[i].days, t[i].1)
  {
    if t != [] {
      ReadGoodTable(t[1..], cs[1..]);
      ReadGoodEntry(t, cs[0]);
    }
  }

  lemma {:induction false} ReadGoodEntry(t: Table, c: Code)
    requires t != [] && GoodEntry(t[0], c)
    ensures ReadTable(t) == [Package(c.kind, c.network, c.days, t[0].1)] + ReadTable(t[1..])
  {
    CodeRoundTrip(c);
  }

  // ---------------------------------------------------------------- main results

  /** One package for each code of `ps`, at the position where the code first
      came, with the price it came with last. */
  ghost predicate Merges(ps: seq<Package>, r: seq<Package>) {
    var u := Unique(Codes(ps));
    |r| == |u| && forall i :: 0 <= i < |r| ==>
      r[i] == Package(u[i].kind, u[i].network, u[i].days, LastValue(EntriesOf(ps), KeyOf(u[i])))
  }

  /** Writing packages to params and reading them back merges the valid ones. */
  lemma {:induction false} WriteThenRead(packages: seq<Package>)
    requires forall p :: p in Valid(packages) ==> PipeFree(CodeOf(p))
    ensures Merges(Valid(packages), PackagesFromParams(Some(ParamsFromPackages(packages))))
  {
    var ps := Valid(packages);
    FromEntriesKeeps(EntriesOf(ps));
    if ps == [] {
      assert Kinds(ps) == [];
    } else {
      assert TableKeys(EntriesOf(ps))[0] in Unique(TableKeys(EntriesOf(ps)));
      TableReadsMerged(ps);
    }
  }

  lemma {:induction false} TableReadsMerged(ps: seq<Package>)
    requires forall p :: p in ps ==> IsValid(p) && PipeFree(CodeOf(p))
    ensures Merges(ps, ReadTable(FromEntries(EntriesOf(ps))))
  {
    var cs := Codes(ps);
    var u, t := Unique(cs), FromEntries(EntriesOf(ps));
    FromEntriesKeeps(EntriesOf(ps));
    assert TableKeys(EntriesOf(ps)) == KeysOf(cs);
    forall i | 0 <= i < |cs| ensures PipeFree(cs[i]) { assert ps[i] in ps; }
    UniqueKeys(cs);
    forall i | 0 <= i < |u| ensures GoodEntry(t[i], u[i]) {
      assert u[i] in cs && TableKeys(t)[i] == KeysOf(u)[i];
      EntryIsGood(ps, t, u[i], i);
    }
    ReadGoodTable(t, u);
  }

  ghost predicate GoodEntry(e: (string, int), c: Code) {
    e.0 == KeyOf(c) && e.1 != 0 && PipeFree(c) && c.kind != "" && c.network != "" && c.days > 0
  }

  lemma {:induction false} EntryIsGood(ps: seq<Package>, t: Table, c: Code, i: nat)
    requires forall p :: p in ps ==> IsValid(p) && PipeFree(CodeOf(p))
    requires c in Codes(ps) && i < |t| && TableKeys(t)[i] == KeyOf(c) && t[i].1 == LastValue(EntriesOf(ps), t[i].0)
    ensures GoodEntry(t[i], c)
  {
    var j :| 0 <= j < |ps| && Codes(ps)[j] == c;
    var k := LastValueFrom(EntriesOf(ps), j);
    assert ps[j] in ps && ps[k] in ps;
  }

  /** The round trip returns exactly the valid packages, in order, if and only if
      their codes are trimmed and free of `|` and no code repeats. */
  lemma {:induction false} RoundTripExactlyWhen(packages: seq<Package>)
    ensures PackagesFromParams(Some(ParamsFromPackages(packages))) == Valid(packages) <==>
      (forall p :: p in Valid(packages) ==> Clean(p)) && Distinct(Codes(Valid(packages)))
  {
    var ps := Valid(packages);
    if PackagesFromParams(Some(ParamsFromPackages(packages))) == ps {
      ReadBackIsClean(packages);
    } else if (forall p :: p in ps ==> Clean(p)) && Distinct(Codes(ps)) {
      CleanReadsBack(packages);
    }
  }

  predicate Clean(p: Package) { PipeFree(CodeOf(p)) && IsTrimmed(p.kind) && IsTrimmed(p.network) }

  lemma {:induction false} CleanCode(p: Package)
    requires IsTrimmed(p.kind) && IsTrimmed(p.network)
    ensures CodeOf(p) == Code(p.kind, p.network, p.days)
  {
    TrimProperties(p.kind);
    TrimProperties(p.network);
  }

  lemma {:induction false} CleanReadsBack(packages: seq<Package>)
    requires (forall p :: p in Valid(packages) ==> Clean(p)) && Distinct(Codes(Valid(packages)))
    ensures PackagesFromParams(Some(ParamsFromPackages(packages))) == Valid(packages)
  {
    WriteThenRead(packages);
    MergeOfCleanIsItself(Valid(packages), PackagesFromParams(Some(ParamsFromPackages(packages))));
  }

  lemma {:induction false} MergeOfCleanIsItself(ps: seq<Package>, r: seq<Package>)
    requires Merges(ps, r) && Distinct(Codes(ps)) && forall p :: p in ps ==> Clean(p)
    ensures r == ps
  {
    UniqueOfDistinct(Codes(ps));
    KeysDistinct(ps);
    forall i | 0 <= i < |ps| ensures r[i] == ps[i] {
      assert ps[i] in ps;
      CleanCode(ps[i]);
      OnlyValue(EntriesOf(ps), i);
    }
  }

  lemma {:induction false} KeysDistinct(ps: seq<Package>)
    requires Distinct(Codes(ps)) && forall p :: p in ps ==> PipeFree(CodeOf(p))
    ensures Distinct(TableKeys(EntriesOf(ps)))
  {
    var keys := TableKeys(EntriesOf(ps));
    forall i, j | 0 <= i < j < |keys| ensures keys[i] != keys[j] {
      assert ps[i] in ps && ps[j] in ps && Codes(ps)[i] != Codes(ps)[j];
      if keys[i] == keys[j] { SameKeySameCode(CodeOf(ps[i]), CodeOf(ps[j])); }
    }
  }

  lemma {:induction false} SameKeySameCode(c: Code, d: Code)
    requires PipeFree(c) && PipeFree(d) && KeyOf(c) == KeyOf(d)
    ensures c == d
  {
    CodeRoundTrip(c);
    CodeRoundTrip(d);
  }

  lemma {:induction false} ReadBackIsClean(packages: seq<Package>)
    requires PackagesFromParams(Some(ParamsFromPackages(packages))) == Valid(packages)
    ensures forall p :: p in Valid(packages) ==> Clean(p)
    ensures Distinct(Codes(Valid(packages)))
  {
    var ps := Valid(packages);
    FromEntriesKeeps(EntriesOf(ps));
    if ps != [] {
      assert TableKeys(EntriesOf(ps))[0] in Unique(TableKeys(EntriesOf(ps)));
      forall p | p in ps ensures PipeFree(CodeOf(p)) {
        assert p in ReadTable(FromEntries(EntriesOf(ps)));
        TrimProperties(p.kind);
        TrimProperties(p.network);
      }
      WriteThenRead(packages);
      MergedCodesAreTrimmed(ps);
    }
  }

  lemma {:induction false} MergedCodesAreTrimmed(ps: seq<Package>)
    requires Merges(ps, ps)
    ensures forall p :: p in ps ==> IsTrimmed(p.kind) && IsTrimmed(p.network)
    ensures Distinct(Codes(ps))
  {
    var u := Unique(Codes(ps));
    forall i | 0 <= i < |ps| ensures IsTrimmed(ps[i].kind) && IsTrimmed(ps[i].network) && u[i] == Codes(ps)[i] {
      assert u[i] in Codes(ps);
      var j :| 0 <= j < |ps| && Codes(ps)[j] == u[i];
      TrimProperties(ps[j].kind);
      TrimProperties(ps[j].network);
      CleanCode(ps[i]);
    }
    assert Codes(ps) == u;
  }

  // ------------------------------------------------------------ sale and base price

  function Abs(x: int): nat { if x < 0 then -x else x }

  lemma {:induction false} RoundDivBounds(a: int, b: int)
    requires b > 0
    ensures 2 * a - b < 2 * (b * RoundDiv(a, b)) <= 2 * a + b
  {
    var q := RoundDiv(a, b);
    assert 2 * a + b == (2 * b) * q + (2 * a + b) % (2 * b);
    assert (2 * b) * q == 2 * (b * q);
  }

  /** Base price and back misses the sale price by at most days / 60 + 1/2, also
      when the base rounds to nothing; up to 30 days it does not miss it at all. */
  lemma {:induction false} SaleThroughBase(price: nat, days: nat)
    requires price > 0 && days > 0
    ensures var back := SalePriceFromBase(BaseFromSalePrice(price, days), days);
      60 * Abs(back - price) <= days + 30 && (days <= 30 ==> back == price)
  {
    var base := BaseFromSalePrice(price, days);
    RoundDivBounds(price * 30, days);
    var m := base * days;
    assert days * base == m;
    assert 60 * price - days < 2 * m <= 60 * price + days;
    RoundDivBounds(m, 30);
    if base == 0 { assert m == 0; }
  }

  lemma {:induction false} StrictGrowth(days: nat, n: nat)
    requires days > 0 && forall q: nat :: q < n ==> BaseFromSalePrice(q, days) < BaseFromSalePrice(q + 1, days)
    ensures BaseFromSalePrice(n, days) >= n
  {
    if n > 0 { StrictGrowth(days, n - 1); }
  }

  /** Thirty days is the exact limit: over any longer duration some price does not
      survive the round trip, because two prices get one base. */
  lemma {:induction false} ExactExactlyUpTo30Days(days: nat)
    requires days > 0
    ensures days <= 30 <==>
      forall price: nat :: price > 0 ==> SalePriceFromBase(BaseFromSalePrice(price, days), days) == price
  {
    if days <= 30 {
      forall price: nat | price > 0 ensures SalePriceFromBase(BaseFromSalePrice(price, days), days) == price {
        SaleThroughBase(price, days);
      }
    } else {
      var q := TwoPricesOneBase(days);
      var back := SalePriceFromBase(BaseFromSalePrice(q + 1, days), days);
      assert q > 0 || back == 0;
      assert back != q + 1 || (q > 0 && SalePriceFromBase(BaseFromSalePrice(q, days), days) != q);
    }
  }

  lemma {:induction false} TwoPricesOneBase(days: nat) returns (q: nat)
    requires days > 30
    ensures BaseFromSalePrice(q, days) == BaseFromSalePrice(q + 1, days)
  {
    ThirtyAtFullLength(days);
    if forall k: nat :: k < days ==> BaseFromSalePrice(k, days) < BaseFromSalePrice(k + 1, days) {
      StrictGrowth(days, days);
      assert false;
    }
    q :| q < days && BaseFromSalePrice(q, days) >= BaseFromSalePrice(q + 1, days);
    BaseMonotone(q, days);
  }

  /** A half-up quotient is the one whole number within the bounds. */
  lemma {:induction false} RoundDivIs(a: int, b: int, q: int)
    requires b > 0 && 2 * a - b < 2 * (b * q) <= 2 * a + b
    ensures RoundDiv(a, b) == q
  {
    RoundDivBounds(a, b);
    Squeeze(b, RoundDiv(a, b), q);
  }

  lemma {:induction false} Squeeze(b: int, r: int, q: int)
    requires b > 0 && -b < b * r - b * q < b
    ensures r == q
  {
    var d := r - q;
    assert b * d == b * r - b * q;
    assert d >= 1 ==> b * d >= b;
    assert d <= -1 ==> b * d <= -b;
  }

  lemma {:induction false} ThirtyAtFullLength(days: nat)
    requires days > 0
    ensures BaseFromSalePrice(days, days) == 30
  {
    RoundDivIs(days * 30, days, 30);
  }

  lemma {:induction false} BaseMonotone(q: nat, days: nat)
    requires days > 0
    ensures BaseFromSalePrice(q, days) <= BaseFromSalePrice(q + 1, days)
  {
    var a, b := 2 * (q * 30) + days, 2 * ((q + 1) * 30) + days;
    DivMonotone(a, b, 2 * days);
    assert a >= 0;
  }

  lemma {:induction false} DivMonotone(a: int, b: int, d: int)
    requires 0 <= a <= b && d > 0
    ensures 0 <= a / d <= b / d
  {
    var x, y := a / d, b / d;
    assert a == d * x + a % d && b == d * y + b % d;
    assert x >= y + 1 ==> d * x >= d * (y + 1) == d * y + d;
  }
}
