/**
 * The database the handlers read and write, held in memory: products (with the unique
 * `product_number` index), bundle products, the stock-movement ledger, orders with their
 * line items, and the error log.
 */
module Store {
  import opened Wrappers

  datatype MovementType = IN | OUT | TRANSFER

  /** The `movement_type` column's text. */
  function MovementTypeName(t: MovementType): string {
    match t
    case IN => "IN"
    case OUT => "OUT"
    case TRANSFER => "TRANSFER"
  }

  datatype Product = Product(
    productNumber: int,
    name: string,
    sku: Option<string>,
    price: int,
    pack: Option<int>,
    quantity: int,
    reorderLevel: int,
    activeAt: Option<int>,
    createdAt: int)

  /** A composite catalogue entry: `pack` units of the product `productId`. */
  datatype Bundle = Bundle(productId: int, pack: int)

  /** One ledger row (`productstocks`). */
  datatype Movement = Movement(
    productId: int,
    movementType: MovementType,
    quantity: int,
    remarks: Option<string>,
    createdBy: Option<int>,
    createdAt: int)

  /** One stored line item (`orderdetails`). */
  datatype OrderLine = OrderLine(productId: int, quantity: int, price: int, totalPrice: int, createdAt: int)

  datatype Order = Order(
    id: string,
    orderCode: string,
    orderAmount: int,
    paymentStatus: string,
    shippingPhone: Option<string>,
    shippingAmount: int,
    lines: seq<OrderLine>,
    createdAt: int)

  /** An `errorLog` row. */
  datatype ErrorLogEntry = ErrorLogEntry(
    timestamp: int,
    endpoint: string,
    requestBody: string,
    errorMessage: string,
    hasStackTrace: bool)

  /** A movement's signed contribution to its product's quantity. */
  function Signed(m: Movement): int {
    match m.movementType
    case IN => m.quantity
    case OUT => -m.quantity
    case TRANSFER => 0
  }

  /** The sum of the signed contributions of the ledger rows for product `id`. */
  function LedgerSum(ledger: seq<Movement>, id: int): int {
    if ledger == [] then 0
    else
      var last := ledger[|ledger| - 1];
      LedgerSum(ledger[..|ledger| - 1], id) + (if last.productId == id then Signed(last) else 0)
  }

  /** The intended invariant: every product's quantity is the signed sum of its ledger rows. */
  predicate Consistent(products: map<int, Product>, ledger: seq<Movement>) {
    forall id :: id in products ==> products[id].quantity == LedgerSum(ledger, id)
  }

  /** `byNumber` indexes `products` by the unique `product_number`. */
  predicate IndexValid(products: map<int, Product>, byNumber: map<int, int>) {
    && (forall n :: n in byNumber ==> byNumber[n] in products && products[byNumber[n]].productNumber == n)
    && (forall id :: id in products ==> products[id].productNumber in byNumber && byNumber[products[id].productNumber] == id)
  }

  /** Every ledger row belongs to a stored product. */
  predicate LedgerOwned(products: map<int, Product>, ledger: seq<Movement>) {
    forall i :: 0 <= i < |ledger| ==> ledger[i].productId in products
  }

  class Database {
    var products: map<int, Product>
    var byNumber: map<int, int>
    var bundles: map<int, Bundle>
    var ledger: seq<Movement>
    var orders: map<string, Order>
    var errorLog: seq<ErrorLogEntry>
    /** The next value of the products' autoincrement id. */
    var nextProductId: int

    ghost predicate Valid()
      reads this
    {
      && IndexValid(products, byNumber)
      && LedgerOwned(products, ledger)
      && (forall id :: id in products ==> id < nextProductId)
    }

    /** An empty database. */
    constructor ()
      ensures Valid()
      ensures products == map[] && byNumber == map[] && bundles == map[] && ledger == []
      ensures orders == map[] && errorLog == []
    {
      products, byNumber, bundles, ledger := map[], map[], map[], [];
      orders, errorLog, nextProductId := map[], [], 1;
    }
  }
}
