/**
 * The four places that sort a quantity into low, normal and out of stock, side by side: the
 * product list's `status` filter, the summary cards, the stock table's badge caption and the
 * dashboard table's badge caption.
 */
module StatusCopies {
  import opened Wrappers
  import opened StockStatus
  import ProductList
  import Stats
  import StockTable
  import ProductTableDashboard

  /**
   * With the default reorder point of 10 all four agree on every quantity of 0 or more: the
   * filter's LOW, NORMAL and OUT_OF_STOCK take exactly the quantities the cards count as low,
   * normal and out, and both tables caption them "Low", "Normal" and "Out of Stock".
   */
  lemma AgreeOnNonNegative(q: int)
    requires q >= 0
    ensures ProductList.StatusAdmits(Some("LOW"), q) <==> Stats.InBand(Stats.LowBand, q, 10)
    ensures Stats.InBand(Stats.LowBand, q, 10) <==> StockTable.BadgeText(q, 10) == LowText
    ensures StockTable.BadgeText(q, 10) == LowText <==> ProductTableDashboard.BadgeText(q, 10) == LowText
    ensures ProductList.StatusAdmits(Some("NORMAL"), q) <==> Stats.InBand(Stats.NormalBand, q, 10)
    ensures Stats.InBand(Stats.NormalBand, q, 10) <==> StockTable.BadgeText(q, 10) == NormalText
    ensures StockTable.BadgeText(q, 10) == NormalText <==> ProductTableDashboard.BadgeText(q, 10) == NormalText
    ensures ProductList.StatusAdmits(Some("OUT_OF_STOCK"), q) <==> Stats.InBand(Stats.OutBand, q, 10)
    ensures Stats.InBand(Stats.OutBand, q, 10) <==> StockTable.BadgeText(q, 10) == OutText
    ensures StockTable.BadgeText(q, 10) == OutText <==> ProductTableDashboard.BadgeText(q, 10) == OutText
  {
    ProductList.StatusBands(q);
  }

  /**
   * A negative quantity splits them three ways: no status filter lists it, the cards and the
   * dashboard table call it out of stock, and the stock table calls it low.
   */
  lemma DisagreeOnNegative(q: int)
    requires q < 0
    ensures !ProductList.StatusAdmits(Some("LOW"), q) && !ProductList.StatusAdmits(Some("NORMAL"), q)
      && !ProductList.StatusAdmits(Some("OUT_OF_STOCK"), q)
    ensures Stats.InBand(Stats.OutBand, q, 10) && ProductTableDashboard.BadgeText(q, 10) == OutText
    ensures StockTable.BadgeText(q, 10) == LowText
  {
    ProductList.StatusBands(q);
  }

  /**
   * The list filter keeps 10 as its boundary whatever the reorder point: with a point of 20, a
   * quantity of 15 is counted low on the cards but listed under NORMAL.
   */
  lemma FilterIgnoresReorderPoint()
    ensures Stats.InBand(Stats.LowBand, 15, 20)
    ensures ProductList.StatusAdmits(Some("NORMAL"), 15) && !ProductList.StatusAdmits(Some("LOW"), 15)
  {
    ProductList.StatusBands(15);
  }
}
