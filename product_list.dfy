/**
 * `GET /api/v1/products`: query parameters, the `queryFilter` where object, the page clamp, and
 * the next/previous page links.
 */
module ProductList {
  import opened Wrappers
  import JsText
  import opened WhereFilter
  import opened Paging
  import opened Store

  /** The parsed query parameters (`QueryParams`); `None` stands for `undefined` or `NaN`. */
  datatype Params = Params(
    page: Option<int>,
    limit: Option<int>,
    category: Option<string>,
    date: Option<string>,
    name: Option<string>,
    status: Option<string>,
    search: string)

  /** Reading the request's search parameters. */
  function ReadParams(q: map<string, string>): (p: Params)
    ensures p.search == (if "search" in q then q["search"] else "")
    ensures p.category.Some? <==> "category" in q && q["category"] != ""
    ensures p.date.Some? <==> "date" in q && q["date"] != ""
    ensures p.name.Some? <==> "name" in q && q["name"] != ""
    ensures p.status.Some? <==> "status" in q && q["status"] != ""
  {
    Params(
      NumberParam(q, "page", 1),
      NumberParam(q, "limit", 10),
      JsText.NonEmpty(SearchParam(q, "category")),
      JsText.NonEmpty(SearchParam(q, "date")),
      JsText.NonEmpty(SearchParam(q, "name")),
      JsText.NonEmpty(SearchParam(q, "status")),
      JsText.TextOr(SearchParam(q, "search"), ""))
  }

  /** `categories: { some: { category: { name } } }`. */
  function CategoryIs(name: string): Cond {
    SomeOf([Clause("category", Related([Clause("name", Equals(StrV(name)))]))])
  }

  /** `AND: [{ quantity: { lte: 10 } }, { quantity: { gt: 0 } }]`. */
  const LowStock: Cond := AllOf([Clause("quantity", Lte(10)), Clause("quantity", Gt(0))])

  /** `OR: [{ name: { contains } }, { sku: { contains } }]`. */
  function NameOrSku(s: string): Cond {
    AnyOf([Clause("name", Substring(s)), Clause("sku", Substring(s))])
  }

  /** The entry the status parameter contributes: under `AND` for `LOW`, under `quantity` otherwise. */
  function StatusPut(w: Where, status: Option<string>): Where {
    if !JsText.Truthy(status) then w
    else if status.value == "LOW" then w["AND" := LowStock]
    else if status.value == "NORMAL" then w["quantity" := Gt(10)]
    else if status.value == "OUT_OF_STOCK" then w["quantity" := Equals(IntV(0))]
    else w
  }

  /** The entries of the date, name and category parameters. */
  function FieldFilters(p: Params, dayStart: string -> int): Where {
    var w1 := Put(map[], JsText.Truthy(p.date), "created_at", DayRange(dayStart(p.date.GetOr(""))));
    var w2 := Put(w1, JsText.Truthy(p.name), "name", Substring(p.name.GetOr("")));
    Put(w2, JsText.Truthy(p.category), "categories", CategoryIs(p.category.GetOr("")))
  }

  /** The entries of all the parameters: the field entries, then the status band, then the search. */
  function ParamFilters(p: Params, dayStart: string -> int): Where {
    Put(StatusPut(FieldFilters(p, dayStart), p.status), p.search != "", "OR", NameOrSku(p.search))
  }

  /**
   * The where object: the parameters' entries, then `{ ...where, pack: 1, active_at: { not: null } }`,
   * so those two entries are always present, whatever else was set.
   */
  function FilterFor(p: Params, dayStart: string -> int): (w: Where)
    ensures "pack" in w && w["pack"] == Equals(IntV(1))
    ensures "active_at" in w && w["active_at"] == NotNull
  {
    ParamFilters(p, dayStart)["pack" := Equals(IntV(1))]["active_at" := NotNull]
  }

  /** `queryFilter`: builds the where object field by field. */
  method QueryFilter(p: Params, dayStart: string -> int) returns (where: Where)
    ensures where == FilterFor(p, dayStart)
  {
    where := map[];
    if JsText.Truthy(p.date) {
      var date := dayStart(p.date.value);
      where := where["created_at" := DayRange(date)];
    }
    ghost var w1 := where;
    assert w1 == Put(map[], JsText.Truthy(p.date), "created_at", DayRange(dayStart(p.date.GetOr(""))));
    if JsText.Truthy(p.name) {
      where := where["name" := Substring(p.name.value)];
    }
    ghost var w2 := where;
    assert w2 == Put(w1, JsText.Truthy(p.name), "name", Substring(p.name.GetOr("")));
    if JsText.Truthy(p.category) {
      where := where["categories" := CategoryIs(p.category.value)];
    }
    ghost var w3 := where;
    assert w3 == FieldFilters(p, dayStart);
    if JsText.Truthy(p.status) {
      if p.status.value == "LOW" {
        where := where["AND" := LowStock];
      } else if p.status.value == "NORMAL" {
        where := where["quantity" := Gt(10)];
      } else if p.status.value == "OUT_OF_STOCK" {
        where := where["quantity" := Equals(IntV(0))];
      }
    }
    ghost var w4 := where;
    assert w4 == StatusPut(w3, p.status);
    if p.search != "" {
      where := where["OR" := NameOrSku(p.search)];
    }
    assert where == ParamFilters(p, dayStart);
    where := where["pack" := Equals(IntV(1))]["active_at" := NotNull];
  }

  function OptionalText(s: Option<string>): Value {
    if s.None? then NullV else StrV(s.value)
  }

  function OptionalNumber(n: Option<int>): Value {
    if n.None? then NullV else IntV(n.value)
  }

  function CategoryRecords(cats: seq<string>): (rs: seq<Value>)
    ensures |rs| == |cats|
    ensures forall i :: 0 <= i < |cats| ==> rs[i] == RecordV(map["category" := RecordV(map["name" := StrV(cats[i])])])
  {
    if cats == [] then [] else [RecordV(map["category" := RecordV(map["name" := StrV(cats[0])])])] + CategoryRecords(cats[1..])
  }

  /** The fields of `row` the filter reads are those of `p`, with `cats` the names of its categories. */
  predicate Describes(row: Row, p: Product, cats: seq<string>) {
    && "name" in row && row["name"] == StrV(p.name)
    && "sku" in row && row["sku"] == OptionalText(p.sku)
    && "quantity" in row && row["quantity"] == IntV(p.quantity)
    && "pack" in row && row["pack"] == OptionalNumber(p.pack)
    && "active_at" in row && row["active_at"] == OptionalNumber(p.activeAt)
    && "created_at" in row && row["created_at"] == IntV(p.createdAt)
    && "categories" in row && row["categories"] == ListV(CategoryRecords(cats))
  }

  /** A product as the where object sees it, with the names of its categories. */
  function ProductRow(p: Product, cats: seq<string>): (row: Row)
    ensures Describes(row, p, cats)
  {
    map[
      "name" := StrV(p.name),
      "sku" := OptionalText(p.sku),
      "quantity" := IntV(p.quantity),
      "pack" := OptionalNumber(p.pack),
      "active_at" := OptionalNumber(p.activeAt),
      "created_at" := IntV(p.createdAt),
      "categories" := ListV(CategoryRecords(cats))]
  }

  /** The quantity band a `status` parameter selects. */
  predicate StatusAdmits(status: Option<string>, q: int) {
    if !JsText.Truthy(status) then true
    else if status.value == "LOW" then 0 < q <= 10
    else if status.value == "NORMAL" then q > 10
    else if status.value == "OUT_OF_STOCK" then q == 0
    else true
  }

  lemma CategoryMeaning(name: string, cats: seq<string>)
    ensures OnValue(CategoryIs(name), ListV(CategoryRecords(cats))) <==> name in cats
  {
    var items := CategoryRecords(cats);
    var cs := [Clause("category", Related([Clause("name", Equals(StrV(name)))]))];
    assert OnValue(CategoryIs(name), ListV(items))
      <==> exists j :: 0 <= j < |items| && items[j].RecordV? && AllHold(cs, items[j].fields);
    if name in cats {
      var j :| 0 <= j < |cats| && cats[j] == name;
      CategoryRecordMeaning(name, cats[j]);
      assert items[j].RecordV? && AllHold(cs, items[j].fields);
    }
    if OnValue(CategoryIs(name), ListV(items)) {
      var j :| 0 <= j < |items| && items[j].RecordV? && AllHold(cs, items[j].fields);
      CategoryRecordMeaning(name, cats[j]);
    }
  }

  /** One category record matches the `category: { name }` clause exactly when it has that name. */
  lemma CategoryRecordMeaning(name: string, c: string)
    ensures var cs := [Clause("category", Related([Clause("name", Equals(StrV(name)))]))];
      AllHold(cs, map["category" := RecordV(map["name" := StrV(c)])]) <==> c == name
  {
    var cl := Clause("name", Equals(StrV(name)));
    var cs := [Clause("category", Related([cl]))];
    var rec := map["category" := RecordV(map["name" := StrV(c)])];
    var inner := map["name" := StrV(c)];
    assert inner["name"] == StrV(c);
    assert Holds("name", Equals(StrV(name)), inner) <==> c == name;
    assert [cl][0] == cl;
    assert AllHold([cl], inner) <==> c == name;
    assert rec["category"] == RecordV(inner);
    assert Holds("category", Related([cl]), rec) <==> c == name;
    assert cs[0] == Clause("category", Related([cl]));
  }

  lemma StatusMeaning(w: Where, status: Option<string>, row: Row, q: int)
    requires "AND" !in w && "quantity" !in w
    requires "quantity" in row && row["quantity"] == IntV(q)
    ensures Matches(StatusPut(w, status), row) <==> Matches(w, row) && StatusAdmits(status, q)
  {
    if JsText.Truthy(status) && status.value == "LOW" {
      assert Holds("AND", LowStock, row) <==> 0 < q <= 10 by {
        var cs := LowStock.clauses;
        assert Holds(cs[0].field, cs[0].cond, row) <==> q <= 10;
        assert Holds(cs[1].field, cs[1].cond, row) <==> q > 0;
      }
      PutMatches(w, true, "AND", LowStock, row);
      assert StatusPut(w, status) == Put(w, true, "AND", LowStock);
    } else if JsText.Truthy(status) && status.value == "NORMAL" {
      PutMatches(w, true, "quantity", Gt(10), row);
      assert Holds("quantity", Gt(10), row) <==> q > 10;
      assert StatusPut(w, status) == Put(w, true, "quantity", Gt(10));
    } else if JsText.Truthy(status) && status.value == "OUT_OF_STOCK" {
      PutMatches(w, true, "quantity", Equals(IntV(0)), row);
      assert Holds("quantity", Equals(IntV(0)), row) <==> q == 0;
      assert StatusPut(w, status) == Put(w, true, "quantity", Equals(IntV(0)));
    }
  }

  lemma SearchMeaning(s: string, row: Row, name: string, sku: Option<string>)
    requires "name" in row && row["name"] == StrV(name)
    requires "sku" in row && row["sku"] == OptionalText(sku)
    ensures Holds("OR", NameOrSku(s), row) <==> JsText.Contains(name, s) || (sku.Some? && JsText.Contains(sku.value, s))
  {
    var cs := NameOrSku(s).clauses;
    if JsText.Contains(name, s) {
      assert Holds(cs[0].field, cs[0].cond, row);
    }
    if sku.Some? && JsText.Contains(sku.value, s) {
      assert Holds(cs[1].field, cs[1].cond, row);
    }
    if Holds("OR", NameOrSku(s), row) {
      var i :| 0 <= i < |cs| && Holds(cs[i].field, cs[i].cond, row);
      if i == 0 {
        assert Holds("name", Substring(s), row);
        assert OnValue(Substring(s), StrV(name));
      } else {
        assert Holds("sku", Substring(s), row);
        assert OnValue(Substring(s), OptionalText(sku));
      }
    }
  }

  /** The keys the date, name, category and status entries can use. */
  lemma FilterKeys(p: Params, dayStart: string -> int)
    ensures FieldFilters(p, dayStart).Keys <= {"created_at", "name", "categories"}
    ensures StatusPut(FieldFilters(p, dayStart), p.status).Keys <= {"created_at", "name", "categories", "AND", "quantity"}
  {
  }

  lemma FieldFiltersMeaning(p: Params, dayStart: string -> int, row: Row, prod: Product, cats: seq<string>)
    requires Describes(row, prod, cats)
    ensures Matches(FieldFilters(p, dayStart), row) <==>
      && (JsText.Truthy(p.date) ==> dayStart(p.date.value) <= prod.createdAt < dayStart(p.date.value) + MsPerDay)
      && (JsText.Truthy(p.name) ==> JsText.Contains(prod.name, p.name.value))
      && (JsText.Truthy(p.category) ==> p.category.value in cats)
  {
    var w0: Where := map[];
    var w1 := Put(w0, JsText.Truthy(p.date), "created_at", DayRange(dayStart(p.date.GetOr(""))));
    var w2 := Put(w1, JsText.Truthy(p.name), "name", Substring(p.name.GetOr("")));
    assert Matches(w0, row);
    PutMatches(w0, JsText.Truthy(p.date), "created_at", DayRange(dayStart(p.date.GetOr(""))), row);
    PutMatches(w1, JsText.Truthy(p.name), "name", Substring(p.name.GetOr("")), row);
    CategoryMeaning(p.category.GetOr(""), cats);
    PutMatches(w2, JsText.Truthy(p.category), "categories", CategoryIs(p.category.GetOr("")), row);
  }

  lemma ParamFiltersMeaning(p: Params, dayStart: string -> int, row: Row, prod: Product, cats: seq<string>)
    requires Describes(row, prod, cats)
    ensures Matches(ParamFilters(p, dayStart), row) <==>
      && Matches(FieldFilters(p, dayStart), row)
      && StatusAdmits(p.status, prod.quantity)
      && (p.search != "" ==> JsText.Contains(prod.name, p.search) || (prod.sku.Some? && JsText.Contains(prod.sku.value, p.search)))
  {
    var w3 := FieldFilters(p, dayStart);
    var w4 := StatusPut(w3, p.status);
    FilterKeys(p, dayStart);
    assert "AND" !in w3 && "quantity" !in w3 && "OR" !in w4;
    StatusMeaning(w3, p.status, row, prod.quantity);
    SearchMeaning(p.search, row, prod.name, prod.sku);
    PutMatches(w4, p.search != "", "OR", NameOrSku(p.search), row);
  }

  /**
   * What the filter selects: the product must be a published single pack, created on the given day,
   * have the name and category asked for, fall in the status band, and contain the search text in
   * its name or SKU; parameters that are absent or empty impose nothing. `row` is the product's
   * stored record, as `ProductRow` builds it.
   */
  lemma FilterMeaning(p: Params, dayStart: string -> int, row: Row, prod: Product, cats: seq<string>)
    requires Describes(row, prod, cats)
    ensures Matches(FilterFor(p, dayStart), row) <==>
      && prod.pack == Some(1)
      && prod.activeAt.Some?
      && (JsText.Truthy(p.date) ==> dayStart(p.date.value) <= prod.createdAt < dayStart(p.date.value) + MsPerDay)
      && (JsText.Truthy(p.name) ==> JsText.Contains(prod.name, p.name.value))
      && (JsText.Truthy(p.category) ==> p.category.value in cats)
      && StatusAdmits(p.status, prod.quantity)
      && (p.search != "" ==> JsText.Contains(prod.name, p.search) || (prod.sku.Some? && JsText.Contains(prod.sku.value, p.search)))
  {
    FixedEntriesMeaning(p, dayStart, row, prod, cats);
    ParamFiltersMeaning(p, dayStart, row, prod, cats);
    FieldFiltersMeaning(p, dayStart, row, prod, cats);
  }

  /** The two entries every product query carries: a single pack, and published. */
  lemma FixedEntriesMeaning(p: Params, dayStart: string -> int, row: Row, prod: Product, cats: seq<string>)
    requires Describes(row, prod, cats)
    ensures Matches(FilterFor(p, dayStart), row) <==>
      Matches(ParamFilters(p, dayStart), row) && prod.pack == Some(1) && prod.activeAt.Some?
  {
    FilterKeys(p, dayStart);
    FixedEntriesOver(ParamFilters(p, dayStart), row, prod, cats);
  }

  /** Adding the pack and published entries to any where object narrows it by those two tests. */
  lemma FixedEntriesOver(w: Where, row: Row, prod: Product, cats: seq<string>)
    requires Describes(row, prod, cats) && "pack" !in w && "active_at" !in w
    ensures Matches(w["pack" := Equals(IntV(1))]["active_at" := NotNull], row) <==>
      Matches(w, row) && prod.pack == Some(1) && prod.activeAt.Some?
  {
    PutMatches(w, true, "pack", Equals(IntV(1)), row);
    PutMatches(w["pack" := Equals(IntV(1))], true, "active_at", NotNull, row);
    assert Holds("pack", Equals(IntV(1)), row) <==> prod.pack == Some(1);
    assert Holds("active_at", NotNull, row) <==> prod.activeAt.Some?;
  }

  /** The status filter's boundaries: a negative quantity matches none of the three statuses. */
  lemma StatusBands(q: int)
    ensures StatusAdmits(Some("LOW"), q) <==> 0 < q <= 10
    ensures StatusAdmits(Some("NORMAL"), q) <==> q > 10
    ensures StatusAdmits(Some("OUT_OF_STOCK"), q) <==> q == 0
    ensures q < 0 ==> forall s :: s in ["LOW", "NORMAL", "OUT_OF_STOCK"] ==> !StatusAdmits(Some(s), q)
  {
  }

  /** `getPageUrl(pageNum, queryParams)`. */
  function PageLink(base: string, p: Params, pageNum: int): (u: PageUrl)
    ensures u.base == base && u.resource == "products"
  {
    PageUrl(base, "products",
      PageAndLimit(pageNum, p.limit)
      + OptionalParam("search", Some(p.search), true)
      + OptionalParam("category", p.category, true)
      + OptionalParam("date", p.date, true))
  }

  /**
   * Reading a page link back: it asks for page `pageNum` with the same limit, search text, category
   * and date as the request; the name and status filters are not carried, so following a link
   * drops them.
   */
  lemma PageLinkCarries(base: string, p: Params, pageNum: int, k: string)
    ensures var ps := PageLink(base, p, pageNum).params;
      && JsText.ParseInt(ParamValue(ps, "page").GetOr("")) == Some(pageNum)
      && ParamValue(ps, "limit") == Some(LimitText(p.limit))
      && ParamValue(ps, "search") == (if p.search != "" then Some(p.search) else None)
      && ParamValue(ps, "category") == (if JsText.Truthy(p.category) then p.category else None)
      && ParamValue(ps, "date") == (if JsText.Truthy(p.date) then p.date else None)
      && (k !in ["page", "limit", "search", "category", "date"] ==> ParamValue(ps, k) == None)
  {
    JsText.ParseIntNumberText(pageNum);
    assert PageLink(base, p, pageNum).params == PageLink("", p, pageNum).params;
    LinkLookup(p, pageNum, "page");
    LinkLookup(p, pageNum, "limit");
    LinkLookup(p, pageNum, "search");
    LinkLookup(p, pageNum, "category");
    LinkLookup(p, pageNum, "date");
    LinkLookup(p, pageNum, k);
  }

  lemma LinkLookup(p: Params, pageNum: int, k: string)
    ensures ParamValue(PageLink("", p, pageNum).params, k) ==
      if k == "page" then Some(JsText.NumberText(pageNum))
      else if k == "limit" then Some(LimitText(p.limit))
      else if k == "search" && p.search != "" then Some(p.search)
      else if k == "category" && JsText.Truthy(p.category) then p.category
      else if k == "date" && JsText.Truthy(p.date) then p.date
      else None
  {
    var a := PageAndLimit(pageNum, p.limit);
    var b := OptionalParam("search", Some(p.search), true);
    var c := OptionalParam("category", p.category, true);
    var d := OptionalParam("date", p.date, true);
    ParamValueAppend(a + b + c, d, k);
    ParamValueAppend(a + b, c, k);
    ParamValueAppend(a, b, k);
    ParamValueParts(pageNum, p.limit, "search", Some(p.search), true, k);
    ParamValueParts(pageNum, p.limit, "category", p.category, true, k);
    ParamValueParts(pageNum, p.limit, "date", p.date, true, k);
  }

  /** The response: the shared page answer, with this handler's links and the search text echoed. */
  datatype Response = Response(page: Page, search: string)

  /**
   * The answer to parameters `p`, given the number of rows `prisma.product.count` reports for the
   * where object. `findMany` gets no `orderBy`, so the rows come in the database's default order.
   */
  function Respond(p: Params, where: Where, total: nat, base: string): Response {
    Response(PageResponse(where, total, p.page, p.limit, false, n => PageLink(base, p, n)), p.search)
  }

  /** `GET`: reads the parameters, builds the where object, and answers with `Respond`. */
  method List(q: map<string, string>, total: nat, base: string, dayStart: string -> int) returns (r: Response)
    ensures r == Respond(ReadParams(q), FilterFor(ReadParams(q), dayStart), total, base)
  {
    var p := ReadParams(q);
    var where := QueryFilter(p, dayStart);
    r := Respond(p, where, total, base);
  }
}
