/**
 * The `OrderSchema` check the save-order handler runs on the request body, and the first issue
 * it reports. Values are taken to have the right JSON types (numbers are integers); a field is
 * either present or absent.
 */
module OrderSchema {
  import opened Wrappers
  import opened Zod
  import JsText

  /** The gift tiers of a line item, in the schema's order (which is also `Object.entries` order). */
  const GiftTiers: seq<string> :=
    ["normal_250ml_pack", "normal_600ml_pack", "normal_1500ml_pack", "premium_500ml_pack", "premium_500ml_carton"]

  /** A line item as it arrives; `gift` maps each tier given to its count. */
  datatype RawDetail = RawDetail(
    shopOrderId: Option<string>,
    shopProductId: Option<int>,
    quantity: Option<int>,
    price: Option<int>,
    kind: Option<string>,
    pack: Option<int>,
    gift: Option<map<string, int>>)

  /** The request body as it arrives. */
  datatype RawOrder = RawOrder(
    id: Option<string>,
    orderCode: Option<string>,
    orderAmount: Option<int>,
    paymentStatus: Option<string>,
    shippingPhone: Option<string>,
    shippingAmount: Option<int>,
    orderDetails: Option<seq<RawDetail>>)

  /** A validated line item; `gifts` holds the tier counts in `GiftTiers` order. */
  datatype Detail = Detail(
    shopOrderId: string,
    shopProductId: int,
    quantity: int,
    price: int,
    kind: Option<string>,
    pack: int,
    gifts: seq<int>)

  /** A validated order. */
  datatype OrderInput = OrderInput(
    id: string,
    orderCode: string,
    orderAmount: int,
    paymentStatus: string,
    shippingPhone: Option<string>,
    shippingAmount: Option<int>,
    details: seq<Detail>)

  /** The gift object satisfies its schema: every tier present with a count of at least 0. */
  predicate GiftHolds(g: map<string, int>) {
    forall t :: t in GiftTiers ==> t in g && g[t] >= 0
  }

  /** A line item satisfies its schema. */
  predicate DetailHolds(d: RawDetail) {
    && d.shopOrderId.Some?
    && d.shopProductId.Some? && d.shopProductId.value > 0
    && d.quantity.Some? && d.quantity.value > 0
    && d.price.Some?
    && d.pack.Some?
    && d.gift.Some? && GiftHolds(d.gift.value)
  }

  /** The body satisfies `OrderSchema`. */
  predicate SchemaHolds(b: RawOrder) {
    && b.id.Some? && b.orderCode.Some?
    && b.orderAmount.Some? && b.orderAmount.value > 0
    && b.paymentStatus.Some?
    && b.orderDetails.Some?
    && forall i :: 0 <= i < |b.orderDetails.value| ==> DetailHolds(b.orderDetails.value[i])
  }

  /** The counts of `g` for `tiers` from index `k` on, or the first tier that is missing or negative. */
  function ValidateTiers(tiers: seq<string>, g: map<string, int>, k: nat): (r: Result<seq<int>, Issue>)
    requires k <= |tiers|
    decreases |tiers| - k
    ensures r.Success? <==> forall t :: t in tiers[k..] ==> t in g && g[t] >= 0
    ensures r.Success? ==>
      (|r.value| == |tiers| - k && forall j :: 0 <= j < |r.value| ==> r.value[j] == g[tiers[k + j]])
    ensures r.Failure? ==>
      (|r.error.path| == 1 && r.error.path[0] in tiers[k..] &&
       r.error.message == (if r.error.path[0] in g then Negative else Required))
  {
    if k == |tiers| then Success([])
    else
      var t := tiers[k];
      assert tiers[k..] == [t] + tiers[k + 1..];
      if t !in g then Failure(Issue([t], Required))
      else if g[t] < 0 then Failure(Issue([t], Negative))
      else match ValidateTiers(tiers, g, k + 1)
        case Failure(e) => Failure(e)
        case Success(rest) => Success([g[t]] + rest)
  }

  /** The first issue of a line item, in the schema's field order, with its path inside the item. */
  function ValidateDetail(d: RawDetail): (r: Result<Detail, Issue>)
    ensures r.Success? <==> DetailHolds(d)
    ensures r.Success? ==>
      && r.value.shopOrderId == d.shopOrderId.value
      && r.value.shopProductId == d.shopProductId.value
      && r.value.quantity == d.quantity.value
      && r.value.price == d.price.value
      && r.value.kind == d.kind
      && r.value.pack == d.pack.value
      && |r.value.gifts| == |GiftTiers|
      && forall j :: 0 <= j < |GiftTiers| ==> r.value.gifts[j] == d.gift.value[GiftTiers[j]]
    ensures r.Failure? ==> r.error.message in {Required, NotPositive, Negative}
  {
    if d.shopOrderId.None? then Failure(Issue(["shop_order_id"], Required))
    else if d.shopProductId.None? then Failure(Issue(["shop_product_id"], Required))
    else if d.shopProductId.value <= 0 then Failure(Issue(["shop_product_id"], NotPositive))
    else if d.quantity.None? then Failure(Issue(["quantity"], Required))
    else if d.quantity.value <= 0 then Failure(Issue(["quantity"], NotPositive))
    else if d.price.None? then Failure(Issue(["price"], Required))
    else if d.pack.None? then Failure(Issue(["pack"], Required))
    else if d.gift.None? then Failure(Issue(["gift"], Required))
    else match ValidateTiers(GiftTiers, d.gift.value, 0)
      case Failure(e) => Failure(Issue(["gift"] + e.path, e.message))
      case Success(gs) =>
        Success(Detail(d.shopOrderId.value, d.shopProductId.value, d.quantity.value, d.price.value,
                       d.kind, d.pack.value, gs))
  }

  /** The line items from index `i` on, or the first issue among them, with its path from the body. */
  function ValidateDetails(ds: seq<RawDetail>, i: nat): (r: Result<seq<Detail>, Issue>)
    requires i <= |ds|
    decreases |ds| - i
    ensures r.Success? <==> forall k :: i <= k < |ds| ==> DetailHolds(ds[k])
    ensures r.Success? ==> |r.value| == |ds| - i
    ensures r.Failure? ==>
      (|r.error.path| >= 2 && r.error.path[0] == "orderDetails" && r.error.message in {Required, NotPositive, Negative})
  {
    if i == |ds| then Success([])
    else match ValidateDetail(ds[i])
      case Failure(e) => Failure(Issue(["orderDetails", JsText.NumberText(i)] + e.path, e.message))
      case Success(d) =>
        match ValidateDetails(ds, i + 1)
        case Failure(e) => Failure(e)
        case Success(rest) => Success([d] + rest)
  }

  /** Each validated line item is its raw item, validated. */
  lemma {:induction false} ValidateDetailsItems(ds: seq<RawDetail>, i: nat, k: nat)
    requires i <= k < |ds|
    requires ValidateDetails(ds, i).Success?
    decreases k - i
    ensures ValidateDetail(ds[k]) == Success(ValidateDetails(ds, i).value[k - i])
  {
    var r := ValidateDetails(ds, i);
    var first := ValidateDetail(ds[i]);
    var rest := ValidateDetails(ds, i + 1);
    assert first.Success? && rest.Success? && r.value == [first.value] + rest.value;
    if i < k {
      ValidateDetailsItems(ds, i + 1, k);
      assert r.value[k - i] == rest.value[k - (i + 1)];
    }
  }

  /**
   * `OrderSchema.safeParse(body)`: the validated order, or the first issue in the schema's field
   * order (its `errors[0]`). It succeeds exactly when the body satisfies the schema, and a
   * success carries the body's values.
   */
  function Validate(b: RawOrder): (r: Result<OrderInput, Issue>)
    ensures r.Success? <==> SchemaHolds(b)
    ensures r.Success? ==>
      && r.value.id == b.id.value && r.value.orderCode == b.orderCode.value
      && r.value.orderAmount == b.orderAmount.value && r.value.paymentStatus == b.paymentStatus.value
      && r.value.shippingPhone == b.shippingPhone && r.value.shippingAmount == b.shippingAmount
      && r.value.details == ValidateDetails(b.orderDetails.value, 0).value
    ensures r.Failure? ==> r.error.message in {Required, NotPositive, Negative} && |r.error.path| >= 1
  {
    if b.id.None? then Failure(Issue(["id"], Required))
    else if b.orderCode.None? then Failure(Issue(["order_code"], Required))
    else if b.orderAmount.None? then Failure(Issue(["order_amount"], Required))
    else if b.orderAmount.value <= 0 then Failure(Issue(["order_amount"], NotPositive))
    else if b.paymentStatus.None? then Failure(Issue(["payment_status"], Required))
    else if b.orderDetails.None? then Failure(Issue(["orderDetails"], Required))
    else match ValidateDetails(b.orderDetails.value, 0)
      case Failure(e) => Failure(e)
      case Success(ds) =>
        Success(OrderInput(b.id.value, b.orderCode.value, b.orderAmount.value, b.paymentStatus.value,
                           b.shippingPhone, b.shippingAmount, ds))
  }

  /** A line with a quantity of 0 is refused. */
  lemma ZeroQuantityRefused(b: RawOrder, i: nat)
    requires b.orderDetails.Some? && i < |b.orderDetails.value|
    requires b.orderDetails.value[i].quantity == Some(0)
    ensures Validate(b).Failure?
  {
    assert !DetailHolds(b.orderDetails.value[i]);
  }

  /** A body without an `id` is answered with the text `id: Required`. */
  lemma MissingIdMessage(b: RawOrder)
    requires b.id.None?
    ensures Validate(b) == Failure(Issue(["id"], Required))
    ensures IssueText(Validate(b).error) == "id: Required"
  {
  }
}
