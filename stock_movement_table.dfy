/**
 * The stock-movement table: the page step after a delete, the movement colour, and the
 * component state that the pager, the filter bar and the delete button change.
 */
module StockMovementTable {
  import opened Wrappers
  import opened TableCommon

  const Green: string := "text-green-500"
  const Red: string := "text-red-500"
  const Blue: string := "text-blue-500"

  /** The movement cell's colour class: IN green, OUT red, anything else (TRANSFER) blue. */
  function MovementColour(movementType: string): (c: string)
    ensures c == Green <==> movementType == "IN"
    ensures c == Red <==> movementType == "OUT"
    ensures c == Blue <==> movementType != "IN" && movementType != "OUT"
  {
    if movementType == "IN" then Green else if movementType == "OUT" then Red else Blue
  }

  /**
   * The pager after a row is deleted: when the page held that one row and is not the first,
   * step back one page; every other field is kept. `rowsOnPage` is the length of the page's
   * data, 0 when there is none.
   */
  function AfterDelete(p: Pagination, rowsOnPage: nat): (r: Pagination)
    ensures r.pageSize == p.pageSize && r.total == p.total
    ensures r.current == p.current - 1 <==> rowsOnPage == 1 && p.current > 1
    ensures r.current == p.current || r.current == p.current - 1
    ensures p.current >= 1 ==> r.current >= 1
  {
    if rowsOnPage == 1 && p.current > 1 then p.(current := p.current - 1) else p
  }

  /** The rows the server returns for page `page` of `n` rows, `size` to a page. */
  function RowsOnPage(n: nat, size: nat, page: int): nat {
    var skipped := (page - 1) * size;
    if page < 1 || n <= skipped then 0
    else if n - skipped < size then n - skipped else size
  }

  /**
   * The page step keeps the table on a page that has rows: if the page shown held rows of a
   * table of `n` rows and one of them is deleted, the page chosen afterwards holds rows of the
   * remaining `n - 1`, unless none remain.
   */
  lemma AfterDeleteShowsRows(p: Pagination, n: nat)
    requires p.pageSize > 0 && p.current >= 1
    requires RowsOnPage(n, p.pageSize, p.current) >= 1
    ensures n - 1 > 0 ==> RowsOnPage(n - 1, p.pageSize, AfterDelete(p, RowsOnPage(n, p.pageSize, p.current)).current) >= 1
  {
    var size, cur := p.pageSize, p.current;
    var rows := RowsOnPage(n, size, cur);
    var skipped := (cur - 1) * size;
    assert skipped < n;
    if rows == 1 && cur > 1 {
      assert (cur - 2) * size == skipped - size;
    }
  }

  /** Deleting the last row of page 3 steps back to page 2; deleting one of several does not. */
  lemma AfterDeleteExamples()
    ensures AfterDelete(Pagination(3, 10, None), 1) == Pagination(2, 10, None)
    ensures AfterDelete(Pagination(3, 10, None), 4) == Pagination(3, 10, None)
    ensures AfterDelete(Pagination(1, 10, None), 1) == Pagination(1, 10, None)
  {
  }

  /** The filter bar's starting values. */
  const InitialFilters: Filters :=
    map["name" := TextValue(""), "status" := TextValue(""), "date" := Null, "search" := TextValue("")]

  /** The state the stock-movement table keeps. */
  class State {
    var pagination: Pagination
    var filters: Filters
    var stockMovementId: Option<int>
    var deleteModalOpen: bool
    /** The text `setSearch` last received from the filter bar. */
    var search: string

    constructor ()
      ensures pagination == FirstPage && filters == InitialFilters
      ensures stockMovementId.None? && !deleteModalOpen && search == ""
    {
      pagination := FirstPage;
      filters := InitialFilters;
      stockMovementId := None;
      deleteModalOpen := false;
      search := "";
    }

    /** `handleTableChange`: the pager's new configuration replaces the old one. */
    method HandleTableChange(p: Pagination)
      modifies this
      ensures pagination == p
      ensures filters == old(filters) && stockMovementId == old(stockMovementId)
      ensures deleteModalOpen == old(deleteModalOpen)
      ensures search == old(search)
    {
      pagination := p;
    }

    /**
     * `handleDelete` once the delete request has returned: the pager steps back when the page
     * held only the deleted row. The request itself and the refetch are not modelled.
     */
    method HandleDelete(rowsOnPage: nat)
      modifies this
      ensures pagination == AfterDelete(old(pagination), rowsOnPage)
      ensures filters == old(filters) && stockMovementId == old(stockMovementId)
      ensures deleteModalOpen == old(deleteModalOpen)
      ensures search == old(search)
    {
      if rowsOnPage == 1 && pagination.current > 1 {
        pagination := pagination.(current := pagination.current - 1);
      }
    }

    /** `handleFilterChange`: one filter key takes the new value, the rest are kept. */
    method HandleFilterChange(key: string, value: FilterValue)
      modifies this
      ensures filters == WithFilter(old(filters), key, value)
      ensures pagination == old(pagination) && stockMovementId == old(stockMovementId)
      ensures deleteModalOpen == old(deleteModalOpen)
      ensures search == old(search)
    {
      filters := filters[key := value];
    }

    /** `showDeleteConfirmModal`: opens the confirmation for the movement. */
    method ShowDeleteConfirmModal(id: int)
      modifies this
      ensures deleteModalOpen && stockMovementId == Some(id)
      ensures pagination == old(pagination) && filters == old(filters)
      ensures search == old(search)
    {
      deleteModalOpen := true;
      stockMovementId := Some(id);
    }

    /** `setSearch`, passed to the filter bar: the search text is replaced, nothing else changes. */
    method SetSearch(text: string)
      modifies this
      ensures search == text
      ensures pagination == old(pagination) && filters == old(filters)
      ensures stockMovementId == old(stockMovementId) && deleteModalOpen == old(deleteModalOpen)
    {
      search := text;
    }
  }

  /** The hidden internal `id` column that every row carries. */
  const IdColumn: Column := Column("ID", "id", true)

  /** The columns that are shown, in order. */
  const ShownColumnList: seq<Column> := [
    Column("ID", "product_id", false),
    Column("Product", "product", false),
    Column("Movement", "movement_type", false),
    Column("Quantity", "quantity", false),
    Column("Created by", "user", false),
    Column("Date", "created_at", false),
    Column("Remark", "remarks", false),
    Column("Action", "action", false)
  ]

  /** The table's columns in order: the hidden `id` first. */
  const Columns: seq<Column> := [IdColumn] + ShownColumnList

  /** `filteredColumns` is every column but the hidden `id`, in the declared order. */
  lemma ShownColumns()
    ensures Visible(Columns) == ShownColumnList
  {
    assert forall i :: 0 <= i < |ShownColumnList| ==> !ShownColumnList[i].hidden;
    HiddenFirstDropped(IdColumn, ShownColumnList);
  }
}
