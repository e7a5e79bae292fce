/**
 * The stock table: its status badge, its columns, and the component state that the filter bar,
 * the pager and the restock button change.
 */
module StockTable {
  import opened Wrappers
  import opened StockStatus
  import opened TableCommon

  /** The badge colour as written: the first test is against 10, the second against `t`. */
  function BadgeStatus(q: int, t: int): (b: Badge)
    ensures b == SuccessBadge <==> q > 10
    ensures b == WarningBadge <==> q <= 10 && q <= t && q != 0
    ensures b == ErrorBadge <==> q <= 10 && (q > t || q == 0)
  {
    if q > 10 then SuccessBadge else if q <= t && q != 0 then WarningBadge else ErrorBadge
  }

  /** The badge caption as written: the first test is against `t`, the second against 10. */
  function BadgeText(q: int, t: int): (s: string)
    ensures s == NormalText <==> q > t
    ensures s == LowText <==> q <= t && q <= 10 && q != 0
    ensures s == OutText <==> q <= t && (q > 10 || q == 0)
  {
    if q > t then NormalText else if q <= 10 && q != 0 then LowText else OutText
  }

  /**
   * With the default reorder point of 10: above 10 is Normal, 1 to 10 is Low, 0 is Out of Stock,
   * and a negative quantity is Low, not Out of Stock; colour and caption always agree.
   */
  lemma DefaultThreshold(q: int)
    ensures q > 10 ==> BadgeStatus(q, 10) == SuccessBadge && BadgeText(q, 10) == NormalText
    ensures 0 < q <= 10 ==> BadgeStatus(q, 10) == WarningBadge && BadgeText(q, 10) == LowText
    ensures q == 0 ==> BadgeStatus(q, 10) == ErrorBadge && BadgeText(q, 10) == OutText
    ensures q < 0 ==> BadgeStatus(q, 10) == WarningBadge && BadgeText(q, 10) == LowText
    ensures Agree(BadgeStatus(q, 10), BadgeText(q, 10))
  {
  }

  /**
   * With a reorder point of 20 a quantity of 15 gets a green badge captioned "Out of Stock";
   * with a reorder point of 5 a quantity of 7 gets a red badge captioned "Normal".
   */
  lemma ThresholdMismatch()
    ensures BadgeStatus(15, 20) == SuccessBadge && BadgeText(15, 20) == OutText
    ensures BadgeStatus(7, 5) == ErrorBadge && BadgeText(7, 5) == NormalText
  {
  }

  /** Colour and caption disagree exactly when the quantity lies between 10 and `t`. */
  lemma MismatchBand(q: int, t: int)
    ensures !Agree(BadgeStatus(q, t), BadgeText(q, t)) <==> 10 < q <= t || t < q <= 10
  {
  }

  /** The badge colour with both tests against the reorder point. */
  function CorrectedStatus(q: int, t: int): (b: Badge)
    ensures b == SuccessBadge <==> q > t
  {
    if q > t then SuccessBadge else if q != 0 then WarningBadge else ErrorBadge
  }

  /** The badge caption with both tests against the reorder point. */
  function CorrectedText(q: int, t: int): (s: string)
    ensures s == NormalText <==> q > t
  {
    if q > t then NormalText else if q != 0 then LowText else OutText
  }

  /**
   * The corrected badge agrees with itself for every reorder point, is the written badge when
   * the point is 10, and for non-negative quantities and points follows the shared levels.
   */
  lemma CorrectedAgrees(q: int, t: int)
    ensures Agree(CorrectedStatus(q, t), CorrectedText(q, t))
    ensures CorrectedStatus(q, 10) == BadgeStatus(q, 10) && CorrectedText(q, 10) == BadgeText(q, 10)
    ensures q >= 0 && t >= 0 ==>
      CorrectedStatus(q, t) == LevelBadge(Classify(q, t)) && CorrectedText(q, t) == LevelText(Classify(q, t))
  {
  }

  /** The hidden internal `id` column that every row carries. */
  const IdColumn: Column := Column("ID", "id", true)

  /** The columns that are shown, in order. */
  const ShownColumnList: seq<Column> := [
    Column("ID", "product_number", false),
    Column("Name", "name", false),
    Column("Price", "price", false),
    Column("Quantity", "quantity", false),
    Column("Pack", "pack", false),
    Column("Type", "type", false),
    Column("Status", "stock_status", false),
    Column("Action", "action", false)
  ]

  /** The table's columns in order: the hidden `id` first. */
  const Columns: seq<Column> := [IdColumn] + ShownColumnList

  /** `filteredColumns` is every column but the hidden `id`, in the declared order. */
  lemma ShownColumns()
    ensures Visible(Columns) == ShownColumnList
  {
    assert forall i :: 0 <= i < |ShownColumnList| ==> !ShownColumnList[i].hidden;
    HiddenFirstDropped(IdColumn, ShownColumnList);
  }

  /** The filter bar's starting values. */
  const InitialFilters: Filters := map["name" := TextValue(""), "status" := TextValue(""), "date" := Null]

  /** The state the stock table keeps. */
  class State {
    var pagination: Pagination
    var filters: Filters
    var productId: Option<int>
    var isReStockModalOpen: bool
    /** The text `setSearch` last received from the filter bar. */
    var search: string

    constructor ()
      ensures pagination == FirstPage && filters == InitialFilters
      ensures productId.None? && !isReStockModalOpen && search == ""
    {
      pagination := FirstPage;
      filters := InitialFilters;
      productId := None;
      isReStockModalOpen := false;
      search := "";
    }

    /** `handleTableChange`: the pager's new configuration replaces the old one. */
    method HandleTableChange(p: Pagination)
      modifies this
      ensures pagination == p
      ensures filters == old(filters) && productId == old(productId)
      ensures isReStockModalOpen == old(isReStockModalOpen)
      ensures search == old(search)
    {
      pagination := p;
    }

    /** `handleFilterChange`: one filter key takes the new value, the rest are kept. */
    method HandleFilterChange(key: string, value: FilterValue)
      modifies this
      ensures filters == WithFilter(old(filters), key, value)
      ensures pagination == old(pagination) && productId == old(productId)
      ensures isReStockModalOpen == old(isReStockModalOpen)
      ensures search == old(search)
    {
      filters := filters[key := value];
    }

    /** `handleReStock`: opens the restock form for the product. */
    method HandleReStock(id: int)
      modifies this
      ensures isReStockModalOpen && productId == Some(id)
      ensures pagination == old(pagination) && filters == old(filters)
      ensures search == old(search)
    {
      isReStockModalOpen := true;
      productId := Some(id);
    }

    /** `handleCloseModal`: closes the form and keeps the chosen product. */
    method HandleCloseModal()
      modifies this
      ensures !isReStockModalOpen
      ensures pagination == old(pagination) && filters == old(filters) && productId == old(productId)
      ensures search == old(search)
    {
      isReStockModalOpen := false;
    }

    /** `setSearch`, passed to the filter bar: the search text is replaced, nothing else changes. */
    method SetSearch(text: string)
      modifies this
      ensures search == text
      ensures pagination == old(pagination) && filters == old(filters) && productId == old(productId)
      ensures isReStockModalOpen == old(isReStockModalOpen)
    {
      search := text;
    }
  }
}
