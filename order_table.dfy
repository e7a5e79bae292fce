/** The orders table: the payment badge, its columns and the order-detail view it opens. */
module OrderTable {
  import opened Wrappers
  import opened StockStatus
  import opened TableCommon

  const PaidText: string := "Paid"
  const PendingText: string := "Pending"

  /** The payment badge's colour: green only for "paid". */
  function PaymentStatus(paymentStatus: string): (b: Badge)
    ensures b == SuccessBadge <==> paymentStatus == "paid"
    ensures b != SuccessBadge ==> b == WarningBadge
  {
    if paymentStatus == "paid" then SuccessBadge else WarningBadge
  }

  /** The payment badge's caption: "Paid" only for "paid", "Pending" for anything else. */
  function PaymentText(paymentStatus: string): (s: string)
    ensures s == PaidText <==> paymentStatus == "paid"
    ensures s != PaidText ==> s == PendingText
  {
    if paymentStatus == "paid" then PaidText else PendingText
  }

  /** Colour and caption go together: green with "Paid", orange with "Pending". */
  lemma PaymentBadgeAgrees(paymentStatus: string)
    ensures PaymentStatus(paymentStatus) == SuccessBadge <==> PaymentText(paymentStatus) == PaidText
    ensures PaymentStatus(paymentStatus) == WarningBadge <==> PaymentText(paymentStatus) == PendingText
  {
  }

  /** The table's columns in order; none of them is hidden. */
  const Columns: seq<Column> := [
    Column("Order Code", "order_code", false),
    Column("Order Amount", "order_amount", false),
    Column("Payment Status", "payment_status", false),
    Column("Shipping Phone", "shipping_phone", false),
    Column("Shipping Amount", "shipping_amount", false),
    Column("Date", "created_at", false),
    Column("Action", "action", false)
  ]

  /** `filteredColumns` shows every column, in the declared order. */
  lemma ShownColumns()
    ensures Visible(Columns) == Columns
  {
    VisibleAll(Columns);
  }

  /** The filter bar's starting values. */
  const InitialFilters: Filters :=
    map["order_code" := TextValue(""), "payment_status" := TextValue(""), "date" := Null]

  /** The order-detail dialog: whether it is open and which order it shows. */
  datatype DetailView = DetailView(isOpen: bool, orderId: Option<string>)

  const ClosedView: DetailView := DetailView(false, None)

  /** `handleViewOrderDetail`: the dialog opens on the given order. */
  function ViewOrderDetail(v: DetailView, id: string): (r: DetailView)
    ensures r.isOpen && r.orderId == Some(id)
  {
    DetailView(true, Some(id))
  }

  /** `handleCloseModal`: the dialog closes and keeps the order it showed. */
  function CloseDetail(v: DetailView): (r: DetailView)
    ensures !r.isOpen && r.orderId == v.orderId
  {
    v.(isOpen := false)
  }

  /** Opening an order, closing the dialog and opening another shows only the last one. */
  lemma ViewThenClose(v: DetailView, a: string, b: string)
    ensures CloseDetail(ViewOrderDetail(v, a)).orderId == Some(a)
    ensures ViewOrderDetail(CloseDetail(ViewOrderDetail(v, a)), b) == ViewOrderDetail(v, b)
  {
  }

  /** `handleFilterChange` on the orders filter: the one key changes and the others stay. */
  lemma FilterChangeKeepsOthers(key: string, value: FilterValue)
    ensures var f := WithFilter(InitialFilters, key, value);
      f[key] == value
      && (key != "order_code" ==> f["order_code"] == TextValue(""))
      && (key != "payment_status" ==> f["payment_status"] == TextValue(""))
      && (key != "date" ==> f["date"] == Null)
  {
  }
}
