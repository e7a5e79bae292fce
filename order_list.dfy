/**
 * `GET /api/v1/orders`: orders filtered by day and by order code, with next/previous page links.
 * The handler's `queryFilter` and `getPageUrl` also know an order id and a phone filter, which
 * the request reading never fills in.
 */
module OrderList {
  import opened Wrappers
  import JsText
  import opened WhereFilter
  import opened Paging
  import opened Store

  datatype Params = Params(
    page: Option<int>,
    limit: Option<int>,
    date: Option<string>,
    orderId: Option<string>,
    phone: Option<string>,
    search: string)

  /** Reading the request's search parameters: `orderId` and `phone` are never read. */
  function ReadParams(q: map<string, string>): (p: Params)
    ensures p.orderId.None? && p.phone.None?
    ensures p.date.Some? <==> "date" in q && q["date"] != ""
    ensures p.search == (if "search" in q then q["search"] else "")
  {
    Params(
      NumberParam(q, "page", 1),
      NumberParam(q, "limit", 10),
      JsText.NonEmpty(SearchParam(q, "date")),
      None,
      None,
      JsText.TextOr(SearchParam(q, "search"), ""))
  }

  /** The where object: each parameter that is set adds its entry. */
  function FilterFor(p: Params, dayStart: string -> int): Where {
    var w1 := Put(map[], JsText.Truthy(p.date), "created_at", DayRange(dayStart(p.date.GetOr(""))));
    var w2 := Put(w1, JsText.Truthy(p.orderId), "order_id", Equals(StrV(p.orderId.GetOr(""))));
    var w3 := Put(w2, JsText.Truthy(p.phone), "shipping_phone", Substring(p.phone.GetOr("")));
    Put(w3, p.search != "", "order_code", Substring(p.search))
  }

  /** `queryFilter`: builds the where object field by field. */
  method QueryFilter(p: Params, dayStart: string -> int) returns (where: Where)
    ensures where == FilterFor(p, dayStart)
  {
    where := map[];
    if JsText.Truthy(p.date) {
      var date := dayStart(p.date.value);
      where := where["created_at" := DayRange(date)];
    }
    ghost var w1 := where;
    assert w1 == Put(map[], JsText.Truthy(p.date), "created_at", DayRange(dayStart(p.date.GetOr(""))));
    if JsText.Truthy(p.orderId) {
      where := where["order_id" := Equals(StrV(p.orderId.value))];
    }
    ghost var w2 := where;
    assert w2 == Put(w1, JsText.Truthy(p.orderId), "order_id", Equals(StrV(p.orderId.GetOr(""))));
    if JsText.Truthy(p.phone) {
      where := where["shipping_phone" := Substring(p.phone.value)];
    }
    ghost var w3 := where;
    assert w3 == Put(w2, JsText.Truthy(p.phone), "shipping_phone", Substring(p.phone.GetOr("")));
    if p.search != "" {
      where := where["order_code" := Substring(p.search)];
    }
  }

  /** The fields of `row` the reachable filter reads are those of `o`. */
  predicate Describes(row: Row, o: Order) {
    && "created_at" in row && row["created_at"] == IntV(o.createdAt)
    && "order_code" in row && row["order_code"] == StrV(o.orderCode)
  }

  /** For parameters read from a request, the where object filters on the day and the order code only. */
  lemma ReachableKeys(p: Params, dayStart: string -> int)
    requires p.orderId.None? && p.phone.None?
    ensures FilterFor(p, dayStart).Keys <= {"created_at", "order_code"}
    ensures "order_code" in FilterFor(p, dayStart) <==> p.search != ""
    ensures "created_at" in FilterFor(p, dayStart) <==> JsText.Truthy(p.date)
  {
  }

  /**
   * What a request selects: the orders of the given day whose order code contains the search
   * text; an absent or empty parameter imposes nothing. (Parameters read from a request never
   * carry an order id or a phone, as `ReadParams` states.)
   */
  lemma FilterMeaning(p: Params, dayStart: string -> int, row: Row, o: Order)
    requires p.orderId.None? && p.phone.None?
    requires Describes(row, o)
    ensures Matches(FilterFor(p, dayStart), row) <==>
      && (JsText.Truthy(p.date) ==> dayStart(p.date.value) <= o.createdAt < dayStart(p.date.value) + MsPerDay)
      && (p.search != "" ==> JsText.Contains(o.orderCode, p.search))
  {
    var w0: Where := map[];
    var w1 := Put(w0, JsText.Truthy(p.date), "created_at", DayRange(dayStart(p.date.GetOr(""))));
    assert Matches(w0, row);
    PutMatches(w0, JsText.Truthy(p.date), "created_at", DayRange(dayStart(p.date.GetOr(""))), row);
    assert FilterFor(p, dayStart) == Put(w1, p.search != "", "order_code", Substring(p.search));
    PutMatches(w1, p.search != "", "order_code", Substring(p.search), row);
  }

  /** `getPageUrl(pageNum, queryParams)`: only the search text is encoded. */
  function PageLink(base: string, p: Params, pageNum: int): (u: PageUrl)
    ensures u.base == base && u.resource == "orders"
  {
    PageUrl(base, "orders",
      PageAndLimit(pageNum, p.limit)
      + OptionalParam("date", p.date, false)
      + OptionalParam("search", Some(p.search), true)
      + OptionalParam("phone", p.phone, false)
      + OptionalParam("orderId", p.orderId, false))
  }

  lemma LinkLookup(p: Params, pageNum: int, k: string)
    ensures ParamValue(PageLink("", p, pageNum).params, k) ==
      if k == "page" then Some(JsText.NumberText(pageNum))
      else if k == "limit" then Some(LimitText(p.limit))
      else if k == "date" && JsText.Truthy(p.date) then p.date
      else if k == "search" && p.search != "" then Some(p.search)
      else if k == "phone" && JsText.Truthy(p.phone) then p.phone
      else if k == "orderId" && JsText.Truthy(p.orderId) then p.orderId
      else None
  {
    var a := PageAndLimit(pageNum, p.limit);
    var b := OptionalParam("date", p.date, false);
    var c := OptionalParam("search", Some(p.search), true);
    var d := OptionalParam("phone", p.phone, false);
    var e := OptionalParam("orderId", p.orderId, false);
    ParamValueAppend(a + b + c + d, e, k);
    ParamValueAppend(a + b + c, d, k);
    ParamValueAppend(a + b, c, k);
    ParamValueAppend(a, b, k);
    ParamValueParts(pageNum, p.limit, "date", p.date, false, k);
    ParamValueParts(pageNum, p.limit, "search", Some(p.search), true, k);
    ParamValueParts(pageNum, p.limit, "phone", p.phone, false, k);
    ParamValueParts(pageNum, p.limit, "orderId", p.orderId, false, k);
  }

  /**
   * The link's parameters come in the order page, limit, date, search, phone, orderId, each
   * optional one only when set.
   */
  lemma LinkOrder(base: string, p: Params, pageNum: int)
    ensures Keys(PageLink(base, p, pageNum).params) == ["page", "limit"]
      + (if JsText.Truthy(p.date) then ["date"] else [])
      + (if p.search != "" then ["search"] else [])
      + (if JsText.Truthy(p.phone) then ["phone"] else [])
      + (if JsText.Truthy(p.orderId) then ["orderId"] else [])
  {
    var a := PageAndLimit(pageNum, p.limit);
    var b := OptionalParam("date", p.date, false);
    var c := OptionalParam("search", Some(p.search), true);
    var d := OptionalParam("phone", p.phone, false);
    var e := OptionalParam("orderId", p.orderId, false);
    assert PageLink(base, p, pageNum).params == a + b + c + d + e;
    KeysAppend(a + b + c + d, e);
    KeysAppend(a + b + c, d);
    KeysAppend(a + b, c);
    KeysAppend(a, b);
    assert Keys(a) == ["page", "limit"];
    OptionalKeys("date", p.date, false);
    OptionalKeys("search", Some(p.search), true);
    OptionalKeys("phone", p.phone, false);
    OptionalKeys("orderId", p.orderId, false);
  }

  /** Only the search text is encoded: `encodeURIComponent` is applied to no other value. */
  lemma OnlySearchEncoded(base: string, p: Params, pageNum: int)
    ensures var ps := PageLink(base, p, pageNum).params;
      forall i :: 0 <= i < |ps| ==> (ps[i].encoded <==> ps[i].key == "search")
  {
  }

  /**
   * Reading a page link back: it asks for page `pageNum` with the same limit, date and search text,
   * and, for parameters read from a request, no phone or order id.
   */
  lemma PageLinkCarries(base: string, p: Params, pageNum: int)
    requires p.orderId.None? && p.phone.None?
    ensures var ps := PageLink(base, p, pageNum).params;
      && JsText.ParseInt(ParamValue(ps, "page").GetOr("")) == Some(pageNum)
      && ParamValue(ps, "limit") == Some(LimitText(p.limit))
      && ParamValue(ps, "date") == (if JsText.Truthy(p.date) then p.date else None)
      && ParamValue(ps, "search") == (if p.search != "" then Some(p.search) else None)
      && ParamValue(ps, "phone") == None && ParamValue(ps, "orderId") == None
  {
    JsText.ParseIntNumberText(pageNum);
    assert PageLink(base, p, pageNum).params == PageLink("", p, pageNum).params;
    LinkLookup(p, pageNum, "page");
    LinkLookup(p, pageNum, "limit");
    LinkLookup(p, pageNum, "date");
    LinkLookup(p, pageNum, "search");
    LinkLookup(p, pageNum, "phone");
    LinkLookup(p, pageNum, "orderId");
  }

  /** The response: the shared page answer, with this handler's links and the search text echoed. */
  datatype Response = Response(page: Page, search: string)

  /**
   * The answer to parameters `p`, given the number of rows `prisma.order.count` reports for the
   * where object. `findMany` gets no `orderBy`, so the rows come in the database's default order.
   */
  function Respond(p: Params, where: Where, total: nat, base: string): Response {
    Response(PageResponse(where, total, p.page, p.limit, false, n => PageLink(base, p, n)), p.search)
  }

  /** `GET`: reads the parameters, builds the where object, and answers with `Respond`. */
  method List(q: map<string, string>, total: nat, base: string, dayStart: string -> int) returns (r: Response)
    ensures r == Respond(ReadParams(q), FilterFor(ReadParams(q), dayStart), total, base)
  {
    var p := ReadParams(q);
    var where := QueryFilter(p, dayStart);
    r := Respond(p, where, total, base);
  }
}
