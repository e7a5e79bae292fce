/**
 * The dashboard's summary cards: how many fetched products are low, normal and out of stock,
 * the revenue over the fetched orders, and the product and order totals.
 */
module Stats {
  import opened Wrappers
  import JsText
  import opened StockStatus

  /** The three `filter` callbacks, each being one band. */
  datatype Band = LowBand | NormalBand | OutBand

  /** Whether a quantity passes a band's filter against reorder point `t`. */
  predicate InBand(b: Band, q: int, t: int) {
    match b
    case LowBand => q <= t && q > 0
    case NormalBand => q > t
    case OutBand => q <= 0
  }

  /** `data.filter(callback).length` for the band's callback over the fetched quantities. */
  function Count(qs: seq<int>, b: Band, t: int): (n: nat)
    ensures n <= |qs|
    ensures n == 0 <==> forall i :: 0 <= i < |qs| ==> !InBand(b, qs[i], t)
  {
    if qs == [] then 0
    else Count(qs[1..], b, t) + (if InBand(b, qs[0], t) then 1 else 0)
  }

  /** The quantities that both the normal and the out-of-stock filter pass. */
  function Overlap(qs: seq<int>, t: int): (n: nat)
    ensures n <= |qs|
  {
    if qs == [] then 0
    else Overlap(qs[1..], t) + (if t < qs[0] <= 0 then 1 else 0)
  }

  /**
   * The three cards together count every product once, plus once more for each quantity in
   * `(t, 0]`, which the normal and out-of-stock filters both take when `t` is negative.
   */
  lemma {:induction false} CountsCover(qs: seq<int>, t: int)
    ensures Count(qs, LowBand, t) + Count(qs, NormalBand, t) + Count(qs, OutBand, t) == |qs| + Overlap(qs, t)
  {
    if qs != [] {
      CountsCover(qs[1..], t);
    }
  }

  lemma {:induction false} NoOverlap(qs: seq<int>, t: int)
    requires t >= 0
    ensures Overlap(qs, t) == 0
  {
    if qs != [] {
      NoOverlap(qs[1..], t);
    }
  }

  /** For a reorder point of at least 0, each fetched product is counted in exactly one card. */
  lemma CountsPartition(qs: seq<int>, t: int)
    requires t >= 0
    ensures Count(qs, LowBand, t) + Count(qs, NormalBand, t) + Count(qs, OutBand, t) == |qs|
  {
    CountsCover(qs, t);
    NoOverlap(qs, t);
  }

  /** For a reorder point of at least 0 the bands are the levels of the shared classification. */
  lemma BandsAreLevels(q: int, t: int)
    requires t >= 0
    ensures InBand(LowBand, q, t) <==> Classify(q, t) == Low
    ensures InBand(NormalBand, q, t) <==> Classify(q, t) == Normal
    ensures InBand(OutBand, q, t) <==> Classify(q, t) == Out
  {
  }

  /** A negative reorder point makes a zero quantity count twice. */
  lemma NegativeThresholdCountsTwice()
    ensures Count([0], NormalBand, -5) + Count([0], OutBand, -5) == 2
  {
  }

  /** One page of `GET /api/v1/products` as the cards read it. */
  datatype ProductPage = ProductPage(totalElements: Option<int>, quantities: seq<int>)

  datatype StockCards = StockCards(totalProduct: int, lowStock: nat, normalStock: nat, outOfStock: nat)

  /**
   * The `useMemo` that computes the stock cards; `None` is a query that has no data yet. The
   * counts' `|| 0` changes nothing, since a length of 0 is already 0.
   */
  function StockCardsOf(page: Option<ProductPage>, env: Option<string>): (r: StockCards)
    ensures page.None? ==> r == StockCards(0, 0, 0, 0)
    ensures page.Some? ==>
      var t := ReorderPoint(env);
      r.totalProduct == TotalElements(page.value.totalElements)
      && r.lowStock == Count(page.value.quantities, LowBand, t)
      && r.normalStock == Count(page.value.quantities, NormalBand, t)
      && r.outOfStock == Count(page.value.quantities, OutBand, t)
  {
    if page.None? then StockCards(0, 0, 0, 0)
    else
      var t := ReorderPoint(env);
      var qs := page.value.quantities;
      StockCards(TotalElements(page.value.totalElements),
        Count(qs, LowBand, t), Count(qs, NormalBand, t), Count(qs, OutBand, t))
  }

  /** With the default reorder point, the three counts add up to the products fetched. */
  lemma DefaultCardsPartition(page: ProductPage)
    ensures var r := StockCardsOf(Some(page), None);
      r.lowStock + r.normalStock + r.outOfStock == |page.quantities|
  {
    CountsPartition(page.quantities, 10);
  }

  /** `parseInt(order.order_amount)`, without a radix, for each fetched order; `None` is `NaN`. */
  function ParseAmounts(amounts: seq<string>): (r: seq<Option<int>>)
    ensures |r| == |amounts|
    ensures forall i :: 0 <= i < |amounts| ==> r[i] == JsText.ParseIntAuto(amounts[i])
  {
    seq(|amounts|, i requires 0 <= i < |amounts| => JsText.ParseIntAuto(amounts[i]))
  }

  /**
   * The `reduce` of `acc + x` from 0, as JavaScript evaluates it: `None` is `NaN`, which every
   * later addition keeps.
   */
  function RevenueSum(xs: seq<Option<int>>): Option<int> {
    if xs == [] then Some(0)
    else
      var acc := RevenueSum(xs[..|xs| - 1]);
      var x := xs[|xs| - 1];
      if acc.None? || x.None? then None else Some(acc.value + x.value)
  }

  predicate AllNumbers(xs: seq<Option<int>>) {
    forall i :: 0 <= i < |xs| ==> xs[i].Some?
  }

  /** The numbers added up first to last, as a reference for the `reduce`. */
  function Total(xs: seq<Option<int>>): int
    requires AllNumbers(xs)
  {
    if xs == [] then 0 else xs[0].value + Total(xs[1..])
  }

  lemma {:induction false} TotalSnoc(xs: seq<Option<int>>)
    requires xs != [] && AllNumbers(xs)
    ensures Total(xs) == Total(xs[..|xs| - 1]) + xs[|xs| - 1].value
  {
    if |xs| > 1 {
      var rest := xs[1..];
      TotalSnoc(rest);
      assert rest[..|rest| - 1] == xs[..|xs| - 1][1..];
    }
  }

  /** When every value is a number, the `reduce` is their sum; when one is `NaN`, so is the sum. */
  lemma {:induction false} RevenueSumMeaning(xs: seq<Option<int>>)
    ensures AllNumbers(xs) ==> RevenueSum(xs) == Some(Total(xs))
    ensures !AllNumbers(xs) ==> RevenueSum(xs) == None
  {
    if xs != [] {
      var init := xs[..|xs| - 1];
      RevenueSumMeaning(init);
      assert forall i :: 0 <= i < |init| ==> init[i] == xs[i];
      if AllNumbers(xs) {
        TotalSnoc(xs);
      } else if AllNumbers(init) {
        assert xs[|xs| - 1].None?;
      }
    }
  }

  /** `totalRevenue`: the `reduce`, or 0 for no data, `NaN` or 0 (`|| 0`). */
  function TotalRevenue(amounts: Option<seq<string>>): (r: int)
    ensures amounts.None? ==> r == 0
  {
    JsText.NumberOr(if amounts.None? then None else RevenueSum(ParseAmounts(amounts.value)), 0)
  }

  /**
   * The revenue card shows the sum of the parsed order amounts when all of them parse, and 0
   * when there are no orders or one amount does not parse.
   */
  lemma TotalRevenueMeaning(amounts: seq<string>)
    ensures AllNumbers(ParseAmounts(amounts)) ==> TotalRevenue(Some(amounts)) == Total(ParseAmounts(amounts))
    ensures !AllNumbers(ParseAmounts(amounts)) ==> TotalRevenue(Some(amounts)) == 0
    ensures amounts == [] ==> TotalRevenue(Some(amounts)) == 0
  {
    RevenueSumMeaning(ParseAmounts(amounts));
  }

  /** `parseInt` keeps the integer part of an amount written with a fraction, such as "120.50". */
  lemma IntegerPartOfAmount(n: nat, fraction: string)
    requires fraction == [] || fraction[0] == '.'
    ensures JsText.ParseIntAuto(JsText.NatText(n) + fraction) == Some(n)
  {
    var d := JsText.NatText(n);
    var s := d + fraction;
    assert !JsText.IsSpace(s[0]);
    assert JsText.TrimStart(s) == s;
    assert !JsText.HexPrefixed(s) by {
      if |s| >= 2 { assert s[1] == if |d| >= 2 then d[1] else fraction[0]; }
    }
    JsText.LeadingDigitsOfDigits(d, fraction);
    JsText.NatTextValue(n);
  }

  /** Two orders whose amounts parse to `m` and `n` bring in `m + n`. */
  lemma RevenueOfTwoOrders(a: string, b: string, m: int, n: int)
    requires JsText.ParseIntAuto(a) == Some(m) && JsText.ParseIntAuto(b) == Some(n)
    ensures TotalRevenue(Some([a, b])) == m + n
  {
    var xs := ParseAmounts([a, b]);
    assert xs == [Some(m), Some(n)];
    assert xs[1..] == [Some(n)] && xs[1..][1..] == [];
    assert Total(xs[1..]) == n + Total(xs[1..][1..]);
    assert Total(xs) == m + n;
    TotalRevenueMeaning([a, b]);
  }

  /** `totalProduct` and `totalOrders`: `meta.totalElements || 0`, with `None` for no data. */
  function TotalElements(total: Option<int>): (r: int)
    ensures total.Some? && total.value != 0 ==> r == total.value
    ensures total.None? || total == Some(0) ==> r == 0
  {
    JsText.NumberOr(total, 0)
  }
}
