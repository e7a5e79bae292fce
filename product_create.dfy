/**
 * `POST /api/v1/products`: validate the body against `ProductSchema`, then create the product,
 * with `quantity = stock_quantity ?? 0` and, when both the movement type and the quantity were
 * given, one IN ledger row recording that opening stock.
 */
module ProductCreate {
  import opened Wrappers
  import opened Zod
  import opened Store
  import JsText

  const PriceRequired: string := "Price is required"

  /** Zod's message for a string longer than `max`. */
  function TooLong(max: nat): string {
    "String must contain at most " + JsText.NumberText(max) + " character(s)"
  }

  /** Zod's message for a `stock_movement_type` other than "IN". */
  function NotIn(received: string): string {
    "Invalid enum value. Expected 'IN', received '" + received + "'"
  }

  /** The body as it arrives; a field that is absent or `null` is `None`. Dates are timestamps. */
  datatype RawProduct = RawProduct(
    productNumber: Option<int>,
    name: Option<string>,
    shortDescription: Option<string>,
    longDescription: Option<string>,
    price: Option<int>,
    sku: Option<string>,
    images: Option<string>,
    size: Option<string>,
    categoryId: Option<int>,
    supplierId: Option<int>,
    reorderLevel: Option<int>,
    pack: Option<int>,
    kind: Option<string>,
    stockMovementType: Option<string>,
    stockQuantity: Option<int>,
    stockCreatedAt: Option<int>,
    stockCreatedBy: Option<int>)

  /** A validated body: `reorder_level` has its default of 0 filled in. */
  datatype ProductInput = ProductInput(
    productNumber: int,
    name: string,
    price: int,
    sku: Option<string>,
    reorderLevel: int,
    pack: Option<int>,
    stockMovementType: Option<string>,
    stockQuantity: Option<int>,
    stockCreatedAt: Option<int>,
    stockCreatedBy: Option<int>)

  /** What `ProductSchema` demands, field by field. */
  predicate ProductSchemaHolds(b: RawProduct) {
    && b.productNumber.Some? && b.productNumber.value > 0
    && b.name.Some? && JsText.Utf16Length(b.name.value) <= 255
    && (b.shortDescription.None? || JsText.Utf16Length(b.shortDescription.value) <= 255)
    && b.price.Some?
    && (b.sku.None? || JsText.Utf16Length(b.sku.value) <= 50)
    && (b.size.None? || JsText.Utf16Length(b.size.value) <= 55)
    && (b.categoryId.None? || b.categoryId.value > 0)
    && (b.supplierId.None? || b.supplierId.value > 0)
    && (b.kind.None? || JsText.Utf16Length(b.kind.value) <= 55)
    && (b.stockMovementType.None? || b.stockMovementType.value == "IN")
    && (b.stockQuantity.None? || b.stockQuantity.value > 0)
    && (b.stockCreatedBy.None? || b.stockCreatedBy.value > 0)
  }

  function Check(key: string, ok: bool, message: string): (r: seq<Issue>)
    ensures ok <==> r == []
    ensures !ok ==> r == [Issue([key], message)]
  {
    if ok then [] else [Issue([key], message)]
  }

  function OptionalPositive(key: string, v: Option<int>): (r: seq<Issue>)
    ensures r == [] <==> v.None? || v.value > 0
    ensures r != [] ==> r == [Issue([key], NotPositive)]
  {
    Check(key, v.None? || v.value > 0, NotPositive)
  }

  function OptionalMax(key: string, v: Option<string>, max: nat): (r: seq<Issue>)
    ensures r == [] <==> v.None? || JsText.Utf16Length(v.value) <= max
    ensures r != [] ==> r == [Issue([key], TooLong(max))]
  {
    if v.Some? then Check(key, JsText.Utf16Length(v.value) <= max, TooLong(max)) else []
  }

  /**
   * Every issue of the body, in the schema's field order (Zod reports them in that order; the
   * handler answers with the first).
   */
  function ProductIssues(b: RawProduct): (r: seq<Issue>)
    ensures r == [] <==> ProductSchemaHolds(b)
  {
    (if b.productNumber.None? then [Issue(["product_number"], Required)]
     else OptionalPositive("product_number", b.productNumber))
    + (if b.name.None? then [Issue(["name"], Required)] else OptionalMax("name", b.name, 255))
    + OptionalMax("short_description", b.shortDescription, 255)
    + (if b.price.None? then [Issue(["price"], PriceRequired)] else [])
    + OptionalMax("sku", b.sku, 50)
    + OptionalMax("size", b.size, 55)
    + OptionalPositive("category_id", b.categoryId)
    + OptionalPositive("supplier_id", b.supplierId)
    + OptionalMax("type", b.kind, 55)
    + (if b.stockMovementType.Some? then Check("stock_movement_type", b.stockMovementType.value == "IN", NotIn(b.stockMovementType.value)) else [])
    + OptionalPositive("stock_quantity", b.stockQuantity)
    + OptionalPositive("stock_created_by", b.stockCreatedBy)
  }

  /** `ProductSchema.safeParse`: the validated body, or the first issue. */
  function ValidateProduct(b: RawProduct): (r: Result<ProductInput, Issue>)
    ensures r.Success? <==> ProductSchemaHolds(b)
    ensures r.Failure? ==> r.error == ProductIssues(b)[0]
    ensures r.Success? ==>
      && r.value.productNumber == b.productNumber.value && r.value.name == b.name.value
      && r.value.price == b.price.value && r.value.sku == b.sku && r.value.pack == b.pack
      && r.value.reorderLevel == b.reorderLevel.GetOr(0)
      && r.value.stockMovementType == b.stockMovementType && r.value.stockQuantity == b.stockQuantity
      && r.value.stockCreatedAt == b.stockCreatedAt && r.value.stockCreatedBy == b.stockCreatedBy
  {
    var issues := ProductIssues(b);
    if issues != [] then Failure(issues[0])
    else
      Success(ProductInput(b.productNumber.value, b.name.value, b.price.value, b.sku, b.reorderLevel.GetOr(0),
                           b.pack, b.stockMovementType, b.stockQuantity, b.stockCreatedAt, b.stockCreatedBy))
  }

  /** A body without a product number is refused with `product_number: Required`, whatever else is wrong. */
  lemma MissingNumberFirst(b: RawProduct)
    requires b.productNumber.None?
    ensures ValidateProduct(b) == Failure(Issue(["product_number"], Required))
    ensures IssueText(ValidateProduct(b).error) == "product_number: Required"
  {
    assert JsText.Join(["product_number"], ',') == "product_number";
  }

  /** A missing price is reported before an over-long SKU, because `price` comes first in the schema. */
  lemma PriceBeforeSku(b: RawProduct)
    requires b.productNumber.Some? && b.productNumber.value > 0
    requires b.name.Some? && JsText.Utf16Length(b.name.value) <= 255
    requires b.shortDescription.None? || JsText.Utf16Length(b.shortDescription.value) <= 255
    requires b.price.None? && b.sku.Some? && JsText.Utf16Length(b.sku.value) > 50
    ensures ValidateProduct(b) == Failure(Issue(["price"], PriceRequired))
  {
  }

  /**
   * `.max(255)` counts UTF-16 code units: a name of 200 characters beyond U+FFFF (emoji) is 400
   * units long and is refused.
   */
  lemma WideNameTooLong(name: string)
    requires |name| == 200 && forall i :: 0 <= i < |name| ==> name[i] as int >= 0x1_0000
    ensures OptionalMax("name", Some(name), 255) == [Issue(["name"], TooLong(255))]
  {
  }

  /** The product row that is stored; the opening quantity is `stock_quantity ?? 0`. */
  function NewProduct(input: ProductInput, now: int): (p: Product)
    ensures p.productNumber == input.productNumber && p.name == input.name && p.price == input.price
    ensures p.sku == input.sku && p.pack == input.pack && p.reorderLevel == input.reorderLevel
    ensures p.quantity == (if input.stockQuantity.Some? then input.stockQuantity.value else 0)
    ensures p.activeAt == Some(now) && p.createdAt == now
  {
    Product(input.productNumber, input.name, input.sku, input.price, input.pack,
            input.stockQuantity.GetOr(0), input.reorderLevel, Some(now), now)
  }

  /** The nested `productstocks.create`: present only when both the type and the quantity were given. */
  function OpeningRows(input: ProductInput, id: int, now: int): (r: seq<Movement>)
    ensures |r| == (if input.stockMovementType.Some? && input.stockQuantity.Some? then 1 else 0)
    ensures |r| == 1 ==>
      && r[0].productId == id && r[0].movementType == IN && r[0].quantity == input.stockQuantity.value
      && r[0].createdBy == input.stockCreatedBy && r[0].createdAt == input.stockCreatedAt.GetOr(now)
  {
    if input.stockMovementType.Some? && input.stockQuantity.Some? then
      [Movement(id, IN, input.stockQuantity.value, None, input.stockCreatedBy, input.stockCreatedAt.GetOr(now))]
    else []
  }

  /** Prisma's code for a unique-key clash (here: an existing `product_number`). */
  const UniqueViolation: string := "P2002"

  datatype Response =
    | Created(id: int, product: Product)
    | BadRequest(message: string)
    | DatabaseError(code: string)

  /** What a request leaves behind: the answer and the tables it may change. */
  datatype Outcome = Outcome(
    resp: Response,
    products: map<int, Product>,
    byNumber: map<int, int>,
    ledger: seq<Movement>,
    nextProductId: int)

  /** The whole request: 400 on the first issue, a clash on an existing number, or the new product. */
  function Create(b: RawProduct, now: int, products: map<int, Product>, byNumber: map<int, int>,
                  ledger: seq<Movement>, nextId: int): (r: Outcome)
    ensures r.resp.BadRequest? <==> !ProductSchemaHolds(b)
    ensures r.resp.BadRequest? ==> r.resp.message == IssueText(ProductIssues(b)[0])
    ensures r.resp.DatabaseError? <==> ProductSchemaHolds(b) && b.productNumber.value in byNumber
    ensures !r.resp.Created? ==>
      r.products == products && r.byNumber == byNumber && r.ledger == ledger && r.nextProductId == nextId
    ensures r.resp.Created? ==>
      var input := ValidateProduct(b).value;
      && r.resp.id == nextId && r.resp.product == NewProduct(input, now)
      && r.products == products[nextId := r.resp.product]
      && r.byNumber == byNumber[input.productNumber := nextId]
      && r.ledger == ledger + OpeningRows(input, nextId, now)
      && r.nextProductId == nextId + 1
  {
    match ValidateProduct(b)
    case Failure(e) => Outcome(BadRequest(IssueText(e)), products, byNumber, ledger, nextId)
    case Success(input) =>
      if input.productNumber in byNumber then
        Outcome(DatabaseError(UniqueViolation), products, byNumber, ledger, nextId)
      else
        var p := NewProduct(input, now);
        Outcome(Created(nextId, p), products[nextId := p], byNumber[input.productNumber := nextId],
                ledger + OpeningRows(input, nextId, now), nextId + 1)
  }

  /** A product with no ledger rows has a ledger sum of 0. */
  lemma {:induction false} LedgerSumAbsent(ledger: seq<Movement>, id: int)
    requires forall i :: 0 <= i < |ledger| ==> ledger[i].productId != id
    ensures LedgerSum(ledger, id) == 0
  {
    if ledger != [] {
      var prefix := ledger[..|ledger| - 1];
      assert forall i :: 0 <= i < |prefix| ==> prefix[i] == ledger[i];
      LedgerSumAbsent(prefix, id);
    }
  }

  lemma LedgerSumOfSnoc(ledger: seq<Movement>, m: Movement, id: int)
    ensures LedgerSum(ledger + [m], id) == LedgerSum(ledger, id) + (if m.productId == id then Signed(m) else 0)
  {
    assert (ledger + [m])[..|ledger|] == ledger;
  }

  lemma LedgerSumOfEmptyAppend(ledger: seq<Movement>, id: int)
    ensures LedgerSum(ledger + [], id) == LedgerSum(ledger, id)
  {
    assert ledger + [] == ledger;
  }

  /** Adding a product and its opening rows, in terms of the validated input. */
  lemma AddKeepsConsistent(input: ProductInput, now: int, products: map<int, Product>, ledger: seq<Movement>, nextId: int)
    requires Consistent(products, ledger) && LedgerOwned(products, ledger) && nextId !in products
    requires input.stockQuantity.None? || input.stockQuantity.value > 0
    ensures Consistent(products[nextId := NewProduct(input, now)], ledger + OpeningRows(input, nextId, now))
        <==> input.stockQuantity.None? || input.stockMovementType.Some?
  {
    var rows := OpeningRows(input, nextId, now);
    var p := NewProduct(input, now);
    LedgerSumAbsent(ledger, nextId);
    if rows == [] {
      forall id | id in products ensures LedgerSum(ledger + rows, id) == LedgerSum(ledger, id) {
        LedgerSumOfEmptyAppend(ledger, id);
      }
      LedgerSumOfEmptyAppend(ledger, nextId);
      if input.stockQuantity.Some? {
        assert p.quantity == input.stockQuantity.value;
        assert LedgerSum(ledger + rows, nextId) == 0;
      }
    } else {
      assert rows == [rows[0]];
      forall id | id in products ensures LedgerSum(ledger + rows, id) == LedgerSum(ledger, id) {
        LedgerSumOfSnoc(ledger, rows[0], id);
      }
      LedgerSumOfSnoc(ledger, rows[0], nextId);
    }
  }

  /**
   * Creating a product keeps every quantity equal to its ledger sum exactly when the opening
   * quantity comes with its movement type: a `stock_quantity` given without
   * `stock_movement_type` is stored as the quantity with no ledger row behind it.
   */
  lemma CreateKeepsConsistent(b: RawProduct, now: int, products: map<int, Product>, byNumber: map<int, int>,
                              ledger: seq<Movement>, nextId: int)
    requires Consistent(products, ledger) && LedgerOwned(products, ledger) && nextId !in products
    requires Create(b, now, products, byNumber, ledger, nextId).resp.Created?
    ensures var r := Create(b, now, products, byNumber, ledger, nextId);
      Consistent(r.products, r.ledger) <==> b.stockQuantity.None? || b.stockMovementType.Some?
  {
    AddKeepsConsistent(ValidateProduct(b).value, now, products, ledger, nextId);
  }

  /** Storing a product under a fresh id and a fresh number, with rows of its own, keeps the store's invariant. */
  lemma AddKeepsValid(products: map<int, Product>, byNumber: map<int, int>, ledger: seq<Movement>,
                      id: int, p: Product, rows: seq<Movement>)
    requires IndexValid(products, byNumber) && LedgerOwned(products, ledger)
    requires forall k :: k in products ==> k < id
    requires p.productNumber !in byNumber
    requires forall i :: 0 <= i < |rows| ==> rows[i].productId == id
    ensures IndexValid(products[id := p], byNumber[p.productNumber := id])
    ensures LedgerOwned(products[id := p], ledger + rows)
  {
    assert id !in products;
    var ps := products[id := p];
    forall i | 0 <= i < |ledger + rows| ensures (ledger + rows)[i].productId in ps {
      if i < |ledger| { assert (ledger + rows)[i] == ledger[i]; }
      else { assert (ledger + rows)[i] == rows[i - |ledger|]; }
    }
  }

  /**
   * `POST /api/v1/products`: the database ends up as `Create` says; bundles, orders and the
   * error log are untouched (this handler logs nothing).
   */
  method Post(db: Database, b: RawProduct, now: int) returns (resp: Response)
    requires db.Valid()
    modifies db
    ensures db.Valid()
    ensures db.bundles == old(db.bundles) && db.orders == old(db.orders) && db.errorLog == old(db.errorLog)
    ensures Outcome(resp, db.products, db.byNumber, db.ledger, db.nextProductId)
         == Create(b, now, old(db.products), old(db.byNumber), old(db.ledger), old(db.nextProductId))
  {
    var v := ValidateProduct(b);
    if v.Failure? {
      return BadRequest(IssueText(v.error));
    }
    var input := v.value;
    if input.productNumber in db.byNumber {
      return DatabaseError(UniqueViolation);
    }
    var id := db.nextProductId;
    var p := NewProduct(input, now);
    var rows := OpeningRows(input, id, now);
    AddKeepsValid(db.products, db.byNumber, db.ledger, id, p, rows);
    db.products := db.products[id := p];
    db.byNumber := db.byNumber[input.productNumber := id];
    db.ledger := db.ledger + rows;
    db.nextProductId := id + 1;
    resp := Created(id, p);
  }
}
