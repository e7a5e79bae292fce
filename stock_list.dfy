/**
 * `GET /api/v1/stocks`: the stock-movement ledger, filtered by day, product id, movement type and
 * product name, newest first, with next/previous page links.
 */
module StockList {
  import opened Wrappers
  import JsText
  import opened WhereFilter
  import opened Paging
  import opened Store

  datatype Params = Params(
    page: Option<int>,
    limit: Option<int>,
    name: Option<string>,
    movementType: Option<string>,
    date: Option<string>,
    search: Option<string>)

  /** Reading the request's search parameters; every text parameter is `undefined` when empty. */
  function ReadParams(q: map<string, string>): (p: Params)
    ensures p.name.Some? <==> "name" in q && q["name"] != ""
    ensures p.movementType.Some? <==> "movementType" in q && q["movementType"] != ""
    ensures p.date.Some? <==> "date" in q && q["date"] != ""
    ensures p.search.Some? <==> "search" in q && q["search"] != ""
  {
    Params(
      NumberParam(q, "page", 1),
      NumberParam(q, "limit", 10),
      JsText.NonEmpty(SearchParam(q, "name")),
      JsText.NonEmpty(SearchParam(q, "movementType")),
      JsText.NonEmpty(SearchParam(q, "date")),
      JsText.NonEmpty(SearchParam(q, "search")))
  }

  /** `product: { name: { contains } }`. */
  function ProductNameHas(name: string): Cond {
    Related([Clause("name", Substring(name))])
  }

  /**
   * `parseInt(search.trim())`, without a radix, as a filter value: `NaN` when the text does not
   * start with a number.
   */
  function SearchId(search: string): Value {
    NumberValue(JsText.ParseIntAuto(JsText.Trim(search)))
  }

  lemma SearchIdMeaning(search: string, id: int)
    ensures SearchId(search) == IntV(id) <==> JsText.ParseIntAuto(search) == Some(id)
  {
    JsText.ParseIntAutoIgnoresTrim(search);
  }

  /** A hexadecimal search "0x1F" looks for product 31. */
  lemma SearchIdOfHex()
    ensures SearchId("0x1F") == IntV(31)
  {
    JsText.ParseIntAutoIgnoresTrim("0x1F");
    JsText.HexPrefixRead();
  }

  /** The where object, given the value `id` the search text reads as. */
  function FilterWith(p: Params, dayStart: string -> int, id: Value): Where {
    var w1 := Put(map[], JsText.Truthy(p.date), "created_at", DayRange(dayStart(p.date.GetOr(""))));
    var w2 := Put(w1, JsText.Truthy(p.search), "product_id", Equals(id));
    var w3 := Put(w2, JsText.Truthy(p.movementType), "movement_type", Equals(StrV(p.movementType.GetOr(""))));
    Put(w3, JsText.Truthy(p.name), "product", ProductNameHas(p.name.GetOr("")))
  }

  /** The where object: each parameter that is set adds its entry. */
  function FilterFor(p: Params, dayStart: string -> int): Where {
    FilterWith(p, dayStart, SearchId(p.search.GetOr("")))
  }

  /** `queryFilter`: builds the where object field by field. */
  method QueryFilter(p: Params, dayStart: string -> int) returns (where: Where)
    ensures where == FilterFor(p, dayStart)
  {
    where := map[];
    if JsText.Truthy(p.date) {
      var date := dayStart(p.date.value);
      where := where["created_at" := DayRange(date)];
    }
    ghost var w1 := where;
    assert w1 == Put(map[], JsText.Truthy(p.date), "created_at", DayRange(dayStart(p.date.GetOr(""))));
    if JsText.Truthy(p.search) {
      where := where["product_id" := Equals(SearchId(p.search.value))];
    }
    ghost var w2 := where;
    assert w2 == Put(w1, JsText.Truthy(p.search), "product_id", Equals(SearchId(p.search.GetOr(""))));
    if JsText.Truthy(p.movementType) {
      where := where["movement_type" := Equals(StrV(p.movementType.value))];
    }
    ghost var w3 := where;
    assert w3 == Put(w2, JsText.Truthy(p.movementType), "movement_type", Equals(StrV(p.movementType.GetOr(""))));
    if JsText.Truthy(p.name) {
      where := where["product" := ProductNameHas(p.name.value)];
    }
  }

  /** The fields of `row` the filter reads are those of `m`, whose product is called `productName`. */
  predicate Describes(row: Row, m: Movement, productName: string) {
    && "product_id" in row && row["product_id"] == IntV(m.productId)
    && "movement_type" in row && row["movement_type"] == StrV(MovementTypeName(m.movementType))
    && "created_at" in row && row["created_at"] == IntV(m.createdAt)
    && "product" in row && row["product"] == RecordV(map["name" := StrV(productName)])
  }

  /** A ledger row as the where object sees it. */
  function MovementRow(m: Movement, productName: string): (row: Row)
    ensures Describes(row, m, productName)
  {
    map[
      "product_id" := IntV(m.productId),
      "movement_type" := StrV(MovementTypeName(m.movementType)),
      "created_at" := IntV(m.createdAt),
      "product" := RecordV(map["name" := StrV(productName)])]
  }

  lemma ProductNameMeaning(name: string, row: Row, productName: string)
    requires "product" in row && row["product"] == RecordV(map["name" := StrV(productName)])
    ensures Holds("product", ProductNameHas(name), row) <==> JsText.Contains(productName, name)
  {
    var inner := map["name" := StrV(productName)];
    var cs := [Clause("name", Substring(name))];
    if JsText.Contains(productName, name) {
      assert Holds(cs[0].field, cs[0].cond, inner);
      assert AllHold(cs, inner);
    }
    assert ProductNameHas(name) == Related(cs);
    if Holds("product", ProductNameHas(name), row) {
      assert OnValue(Related(cs), row["product"]);
      assert AllHold(cs, inner);
      assert Holds(cs[0].field, cs[0].cond, inner);
    }
  }

  lemma FilterWithMeaning(p: Params, dayStart: string -> int, id: Value, row: Row, m: Movement, productName: string)
    requires Describes(row, m, productName)
    ensures Matches(FilterWith(p, dayStart, id), row) <==>
      && (JsText.Truthy(p.date) ==> dayStart(p.date.value) <= m.createdAt < dayStart(p.date.value) + MsPerDay)
      && (JsText.Truthy(p.search) ==> id == IntV(m.productId))
      && (JsText.Truthy(p.movementType) ==> p.movementType.value == MovementTypeName(m.movementType))
      && (JsText.Truthy(p.name) ==> JsText.Contains(productName, p.name.value))
  {
    var w0: Where := map[];
    var w1 := Put(w0, JsText.Truthy(p.date), "created_at", DayRange(dayStart(p.date.GetOr(""))));
    var w2 := Put(w1, JsText.Truthy(p.search), "product_id", Equals(id));
    var w3 := Put(w2, JsText.Truthy(p.movementType), "movement_type", Equals(StrV(p.movementType.GetOr(""))));
    assert Matches(w0, row);
    PutMatches(w0, JsText.Truthy(p.date), "created_at", DayRange(dayStart(p.date.GetOr(""))), row);
    PutMatches(w1, JsText.Truthy(p.search), "product_id", Equals(id), row);
    PutMatches(w2, JsText.Truthy(p.movementType), "movement_type", Equals(StrV(p.movementType.GetOr(""))), row);
    PutMatches(w3, JsText.Truthy(p.name), "product", ProductNameHas(p.name.GetOr("")), row);
    ProductNameMeaning(p.name.GetOr(""), row, productName);
  }

  /**
   * What the filter selects: a movement of the given day, of the product whose id the search text
   * starts with (after trimming; a search that is not a number selects nothing), of the movement
   * type asked for, and of a product whose name contains the name parameter.
   */
  lemma FilterMeaning(p: Params, dayStart: string -> int, row: Row, m: Movement, productName: string)
    requires Describes(row, m, productName)
    ensures Matches(FilterFor(p, dayStart), row) <==>
      && (JsText.Truthy(p.date) ==> dayStart(p.date.value) <= m.createdAt < dayStart(p.date.value) + MsPerDay)
      && (JsText.Truthy(p.search) ==> JsText.ParseIntAuto(p.search.value) == Some(m.productId))
      && (JsText.Truthy(p.movementType) ==> p.movementType.value == MovementTypeName(m.movementType))
      && (JsText.Truthy(p.name) ==> JsText.Contains(productName, p.name.value))
  {
    SearchIdMeaning(p.search.GetOr(""), m.productId);
    FilterWithMeaning(p, dayStart, SearchId(p.search.GetOr("")), row, m, productName);
  }

  /** The search text is trimmed before it is read as a product id, so padding changes nothing. */
  lemma SearchIgnoresPadding(s: string)
    ensures SearchId(JsText.Trim(s)) == SearchId(s)
    ensures JsText.ParseIntAuto(JsText.Trim(s)) == JsText.ParseIntAuto(s)
  {
    JsText.ParseIntAutoIgnoresTrim(s);
    JsText.ParseIntAutoIgnoresTrim(JsText.Trim(s));
  }

  /** `getPageUrl(pageNum, queryParams)`: the name, movement type and date are carried, the search is not. */
  function PageLink(base: string, p: Params, pageNum: int): (u: PageUrl)
    ensures u.base == base && u.resource == "stocks"
  {
    PageUrl(base, "stocks",
      PageAndLimit(pageNum, p.limit)
      + OptionalParam("name", p.name, true)
      + OptionalParam("movementType", p.movementType, true)
      + OptionalParam("date", p.date, true))
  }

  lemma LinkLookup(p: Params, pageNum: int, k: string)
    ensures ParamValue(PageLink("", p, pageNum).params, k) ==
      if k == "page" then Some(JsText.NumberText(pageNum))
      else if k == "limit" then Some(LimitText(p.limit))
      else if k == "name" && JsText.Truthy(p.name) then p.name
      else if k == "movementType" && JsText.Truthy(p.movementType) then p.movementType
      else if k == "date" && JsText.Truthy(p.date) then p.date
      else None
  {
    var a := PageAndLimit(pageNum, p.limit);
    var b := OptionalParam("name", p.name, true);
    var c := OptionalParam("movementType", p.movementType, true);
    var d := OptionalParam("date", p.date, true);
    ParamValueAppend(a + b + c, d, k);
    ParamValueAppend(a + b, c, k);
    ParamValueAppend(a, b, k);
    ParamValueParts(pageNum, p.limit, "name", p.name, true, k);
    ParamValueParts(pageNum, p.limit, "movementType", p.movementType, true, k);
    ParamValueParts(pageNum, p.limit, "date", p.date, true, k);
  }

  /**
   * Reading a page link back: it asks for page `pageNum` with the same limit, name, movement type
   * and date; the search (product id) filter is dropped, so the next page of a product's
   * movements lists every product's movements.
   */
  lemma PageLinkCarries(base: string, p: Params, pageNum: int)
    ensures var ps := PageLink(base, p, pageNum).params;
      && JsText.ParseInt(ParamValue(ps, "page").GetOr("")) == Some(pageNum)
      && ParamValue(ps, "limit") == Some(LimitText(p.limit))
      && ParamValue(ps, "name") == (if JsText.Truthy(p.name) then p.name else None)
      && ParamValue(ps, "movementType") == (if JsText.Truthy(p.movementType) then p.movementType else None)
      && ParamValue(ps, "date") == (if JsText.Truthy(p.date) then p.date else None)
      && ParamValue(ps, "search") == None
  {
    JsText.ParseIntNumberText(pageNum);
    assert PageLink(base, p, pageNum).params == PageLink("", p, pageNum).params;
    LinkLookup(p, pageNum, "page");
    LinkLookup(p, pageNum, "limit");
    LinkLookup(p, pageNum, "name");
    LinkLookup(p, pageNum, "movementType");
    LinkLookup(p, pageNum, "date");
    LinkLookup(p, pageNum, "search");
  }

  /** The response: the shared page answer, with this handler's links. */
  datatype Response = Response(page: Page)

  /**
   * The answer to parameters `p`, given the number of rows `prisma.productStock.count` reports for the
   * where object, newest first.
   */
  function Respond(p: Params, where: Where, total: nat, base: string): Response {
    Response(PageResponse(where, total, p.page, p.limit, true, n => PageLink(base, p, n)))
  }

  /** `GET`: reads the parameters, builds the where object, and answers with `Respond`. */
  method List(q: map<string, string>, total: nat, base: string, dayStart: string -> int) returns (r: Response)
    ensures r == Respond(ReadParams(q), FilterFor(ReadParams(q), dayStart), total, base)
  {
    var p := ReadParams(q);
    var where := QueryFilter(p, dayStart);
    r := Respond(p, where, total, base);
  }
}
