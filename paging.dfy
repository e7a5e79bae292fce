/**
 * The pagination arithmetic shared, expression for expression, by the product, stock and order
 * list handlers: `limit || 10`, `totalPages = Math.ceil(total / limit)`, the clamp
 * `adjustedPage = Math.max(1, Math.min(page || 1, totalPages))`, `skip = (adjustedPage - 1) * limit`,
 * and the next/previous links built only when such a page exists.
 */
module Paging {
  import opened Wrappers
  import JsText
  import opened WhereFilter

  const DefaultLimit: int := 10

  /** `searchParams.get(key)`: `null` (here `None`) when the request has no such parameter. */
  function SearchParam(q: map<string, string>, key: string): Option<string> {
    if key in q then Some(q[key]) else None
  }

  /** `parseInt(searchParams.get(key) || dflt, 10)`, as the handlers read `page` and `limit`. */
  function NumberParam(q: map<string, string>, key: string, dflt: nat): (n: Option<int>)
    requires dflt == 1 || dflt == 10
    ensures !JsText.Truthy(SearchParam(q, key)) ==> n == Some(dflt)
    ensures JsText.Truthy(SearchParam(q, key)) ==> n == JsText.ParseInt(q[key])
  {
    JsText.ParseIntDefaults();
    JsText.ParseInt(JsText.TextOr(SearchParam(q, key), if dflt == 1 then "1" else "10"))
  }

  /** `queryParams.limit || 10`: a missing, `NaN` or zero limit falls back to 10. */
  function EffectiveLimit(limit: Option<int>): (l: int)
    ensures l != 0
    ensures l == DefaultLimit || limit == Some(l)
    ensures limit.None? || limit == Some(0) ==> l == DefaultLimit
  {
    JsText.NumberOr(limit, DefaultLimit)
  }

  /** `Math.ceil(a / b)`: the least integer `r` with `a / b <= r`. */
  function CeilDiv(a: nat, b: int): (r: int)
    requires b != 0
    ensures b > 0 ==> (r - 1) * b < a <= r * b
    ensures b < 0 ==> r * b <= a < (r - 1) * b
  {
    if b > 0 then
      var r := (a + b - 1) / b;
      assert r * b <= a + b - 1 < r * b + b;
      r
    else
      var q := a / -b;
      assert q * -b <= a < q * -b + -b;
      -q
  }

  /** `Math.ceil(totalElements / (limit || 10))`. */
  function TotalPages(total: nat, limit: Option<int>): (r: int)
    ensures EffectiveLimit(limit) > 0 ==> r >= 0 && (r == 0 <==> total == 0)
    ensures EffectiveLimit(limit) < 0 ==> r <= 0
  {
    CeilDivSign(total, EffectiveLimit(limit));
    CeilDiv(total, EffectiveLimit(limit))
  }

  lemma CeilDivSign(a: nat, b: int)
    requires b != 0
    ensures b > 0 ==> CeilDiv(a, b) >= 0 && (CeilDiv(a, b) == 0 <==> a == 0)
    ensures b < 0 ==> CeilDiv(a, b) <= 0
  {
    var r := CeilDiv(a, b);
    if b > 0 {
      if a == 0 { assert (r - 1) * b < 0; }
    }
  }

  /** `Math.max(1, Math.min(page || 1, totalPages))`. */
  function AdjustedPage(page: Option<int>, totalPages: int): (r: int)
    ensures r >= 1
    ensures totalPages >= 1 ==> r <= totalPages
    ensures totalPages <= 1 ==> r == 1
    ensures 1 <= JsText.NumberOr(page, 1) <= totalPages ==> r == JsText.NumberOr(page, 1)
    ensures JsText.NumberOr(page, 1) >= totalPages >= 1 ==> r == totalPages
    ensures JsText.NumberOr(page, 1) < 1 ==> r == 1
  {
    var p := JsText.NumberOr(page, 1);
    var m := if p < totalPages then p else totalPages;
    if 1 < m then m else 1
  }

  /** `(adjustedPage - 1) * (limit || 10)`: the rows on the pages before this one. */
  function Skip(adjustedPage: int, limit: Option<int>): (r: int)
    ensures r == 0 <==> adjustedPage == 1
    ensures adjustedPage >= 1 && EffectiveLimit(limit) > 0 ==> r >= 0
  {
    (adjustedPage - 1) * EffectiveLimit(limit)
  }

  /**
   * With a positive limit the clamped page always starts inside the result set (when there is one),
   * a later page exists exactly when rows remain after this one, and an earlier page exactly when
   * rows were skipped.
   */
  lemma PageWindow(total: nat, page: Option<int>, limit: Option<int>)
    requires EffectiveLimit(limit) > 0
    ensures var l, tp := EffectiveLimit(limit), TotalPages(total, limit);
      var a := AdjustedPage(page, tp);
      && (total > 0 ==> 0 <= Skip(a, limit) < total)
      && (a < tp <==> Skip(a, limit) + l < total)
      && (a > 1 <==> Skip(a, limit) > 0)
  {
    var l, tp := EffectiveLimit(limit), TotalPages(total, limit);
    var a := AdjustedPage(page, tp);
    var s := Skip(a, limit);
    assert s + l == a * l;
    if total > 0 {
      assert 1 <= a <= tp;
      MulMonotone(a - 1, tp - 1, l);
      assert (tp - 1) * l < total;
    }
    if a < tp {
      MulMonotone(a, tp - 1, l);
    } else if total > 0 {
      assert a == tp;
    } else {
      assert a == 1;
    }
    if a > 1 { MulMonotone(1, a - 1, l); } else { assert s == 0; }
  }

  lemma MulMonotone(x: int, y: int, l: int)
    requires x <= y && l > 0
    ensures x * l <= y * l
  {
    assert y * l - x * l == (y - x) * l;
  }

  /** With a negative limit there is only page 1, nothing is skipped and no link is built. */
  lemma NegativeLimitSinglePage(total: nat, page: Option<int>, limit: Option<int>)
    requires EffectiveLimit(limit) < 0
    ensures var a := AdjustedPage(page, TotalPages(total, limit));
      a == 1 && Skip(a, limit) == 0 && !(a < TotalPages(total, limit))
  {
  }

  /** One `key=value` pair of a page link; `encoded` marks a value passed through `encodeURIComponent`. */
  datatype QueryParam = QueryParam(key: string, value: string, encoded: bool)

  /** A page link `${base}/${resource}?k1=v1&k2=v2...`. */
  datatype PageUrl = PageUrl(base: string, resource: string, params: seq<QueryParam>)

  /** `${queryParams.limit}`: the parsed limit as given, `NaN` included (not the fallback 10). */
  function LimitText(limit: Option<int>): string {
    if limit.None? then "NaN" else JsText.NumberText(limit.value)
  }

  /** The limit a link carries reads back, through `parseInt(…, 10)`, as the limit it was made from. */
  lemma LimitTextReadsBack(limit: Option<int>)
    ensures JsText.ParseInt(LimitText(limit)) == limit
  {
    if limit.Some? {
      JsText.ParseIntNumberText(limit.value);
    } else {
      assert !JsText.IsSpace('N') && !JsText.IsDigit('N');
    }
  }

  /** `?page=${pageNum}&limit=${queryParams.limit}`, which every page link starts with. */
  function PageAndLimit(pageNum: int, limit: Option<int>): seq<QueryParam> {
    [QueryParam("page", JsText.NumberText(pageNum), false), QueryParam("limit", LimitText(limit), false)]
  }

  /** `value ? `&key=${value}` : ''`. */
  function OptionalParam(key: string, value: Option<string>, encoded: bool): (ps: seq<QueryParam>)
    ensures |ps| <= 1
    ensures ps != [] <==> JsText.Truthy(value)
    ensures ps != [] ==> ps[0] == QueryParam(key, value.value, encoded)
  {
    if JsText.Truthy(value) then [QueryParam(key, value.value, encoded)] else []
  }

  function Keys(ps: seq<QueryParam>): (ks: seq<string>)
    ensures |ks| == |ps| && forall i :: 0 <= i < |ps| ==> ks[i] == ps[i].key
  {
    if ps == [] then [] else [ps[0].key] + Keys(ps[1..])
  }

  lemma KeysAppend(a: seq<QueryParam>, b: seq<QueryParam>)
    ensures Keys(a + b) == Keys(a) + Keys(b)
  {
  }

  lemma OptionalKeys(key: string, value: Option<string>, encoded: bool)
    ensures Keys(OptionalParam(key, value, encoded)) == if JsText.Truthy(value) then [key] else []
  {
  }

  /** The value of the first parameter named `key`, as `URLSearchParams.get` reads it. */
  function ParamValue(ps: seq<QueryParam>, key: string): (v: Option<string>)
    ensures v.Some? <==> key in Keys(ps)
  {
    if ps == [] then None
    else if ps[0].key == key then Some(ps[0].value)
    else ParamValue(ps[1..], key)
  }

  /** Reading a parameter of a concatenation: the first part that has it wins. */
  lemma {:induction false} ParamValueAppend(a: seq<QueryParam>, b: seq<QueryParam>, key: string)
    ensures ParamValue(a + b, key) == if ParamValue(a, key).Some? then ParamValue(a, key) else ParamValue(b, key)
  {
    if a == [] {
      assert a + b == b;
    } else if a[0].key != key {
      assert (a + b)[0] == a[0];
      assert (a + b)[1..] == a[1..] + b;
      ParamValueAppend(a[1..], b, key);
    } else {
      assert (a + b)[0] == a[0];
    }
  }

  /** What `page`, `limit` and an optional parameter contribute when read back. */
  lemma ParamValueParts(pageNum: int, limit: Option<int>, key: string, value: Option<string>, encoded: bool, k: string)
    ensures ParamValue(PageAndLimit(pageNum, limit), k) ==
      if k == "page" then Some(JsText.NumberText(pageNum))
      else if k == "limit" then Some(LimitText(limit))
      else None
    ensures ParamValue(OptionalParam(key, value, encoded), k) ==
      if k == key && JsText.Truthy(value) then value else None
  {
    var ps := PageAndLimit(pageNum, limit);
    assert ps[1..][1..] == [];
  }

  /** The link as text, given `encodeURIComponent`. */
  function Render(u: PageUrl, encode: string -> string): string {
    u.base + "/" + u.resource + "?" + RenderParams(u.params, encode)
  }

  function RenderParams(ps: seq<QueryParam>, encode: string -> string): string {
    if ps == [] then ""
    else
      var text := Piece(ps[0], encode);
      if |ps| == 1 then text else text + "&" + RenderParams(ps[1..], encode)
  }

  /** The value as written into the link: through `encodeURIComponent` or as it is. */
  function Written(p: QueryParam, encode: string -> string): string {
    if p.encoded then encode(p.value) else p.value
  }

  /** One `key=value` piece of the query string. */
  function Piece(p: QueryParam, encode: string -> string): string {
    p.key + "=" + Written(p, encode)
  }

  function Pieces(ps: seq<QueryParam>, encode: string -> string): (r: seq<string>)
    ensures |r| == |ps| && forall i :: 0 <= i < |ps| ==> r[i] == Piece(ps[i], encode)
  {
    if ps == [] then [] else [Piece(ps[0], encode)] + Pieces(ps[1..], encode)
  }

  /** The query string is the pieces joined by `&`. */
  lemma {:induction false} RenderParamsJoin(ps: seq<QueryParam>, encode: string -> string)
    requires ps != []
    ensures RenderParams(ps, encode) == JsText.Join(Pieces(ps, encode), '&')
  {
    if |ps| > 1 {
      RenderParamsJoin(ps[1..], encode);
      assert Pieces(ps, encode)[1..] == Pieces(ps[1..], encode);
    }
  }

  /** A piece whose key has no `=` splits at its first `=` into the key and the written value. */
  lemma PieceSplits(p: QueryParam, encode: string -> string)
    requires '=' !in p.key
    ensures JsText.Split(Piece(p, encode), '=')[0] == p.key
    ensures Piece(p, encode)[|p.key| + 1..] == Written(p, encode)
  {
    var w := Written(p, encode);
    assert Piece(p, encode) == p.key + (['='] + w);
    JsText.SplitPrefix(p.key, w, '=');
  }

  /**
   * Reading the query string of a link back: when no key holds `=` or `&` and no written value
   * holds `&`, splitting on `&` gives one piece per parameter, in order, and splitting a piece at
   * its first `=` gives that parameter's key and its written value.
   */
  lemma RenderReadsBack(ps: seq<QueryParam>, encode: string -> string)
    requires ps != []
    requires forall i :: 0 <= i < |ps| ==> '=' !in ps[i].key && '&' !in ps[i].key && '&' !in Written(ps[i], encode)
    ensures var pieces := JsText.Split(RenderParams(ps, encode), '&');
      && |pieces| == |ps|
      && (forall i :: 0 <= i < |ps| ==> JsText.Split(pieces[i], '=')[0] == ps[i].key)
      && (forall i :: 0 <= i < |ps| ==>
            |ps[i].key| < |pieces[i]| && pieces[i][|ps[i].key| + 1..] == Written(ps[i], encode))
  {
    var pieces := Pieces(ps, encode);
    forall i | 0 <= i < |ps|
      ensures '&' !in pieces[i]
    {
      assert pieces[i] == ps[i].key + "=" + Written(ps[i], encode);
    }
    RenderParamsJoin(ps, encode);
    JsText.SplitJoin(pieces, '&');
    forall i | 0 <= i < |ps|
      ensures JsText.Split(pieces[i], '=')[0] == ps[i].key
      ensures pieces[i][|ps[i].key| + 1..] == Written(ps[i], encode)
    {
      PieceSplits(ps[i], encode);
    }
  }

  /** The `meta` object a list handler returns. */
  datatype Meta = Meta(
    totalElements: nat,
    currentPage: int,
    limit: Option<int>,
    totalPages: int,
    nextPageUrl: Option<PageUrl>,
    prevPageUrl: Option<PageUrl>)

  /**
   * The arguments passed to `findMany`. `orderByCreatedDesc` is true when the handler passes
   * `orderBy: { created_at: 'desc' }` and false when it passes no `orderBy` at all, so that the
   * rows come in the database's default order (not oldest first).
   */
  datatype FindArgs = FindArgs(where: Where, skip: int, take: Option<int>, orderByCreatedDesc: bool)

  /**
   * The `meta` block for `total` matching rows, with `link(n)` the handler's `getPageUrl(n, queryParams)`:
   * current page clamped, and a next (previous) link, pointing at the following (preceding) page,
   * exactly when that page exists.
   */
  function PageMeta(total: nat, page: Option<int>, limit: Option<int>, link: int -> PageUrl): (m: Meta)
    ensures m.totalElements == total && m.limit == limit && m.totalPages == TotalPages(total, limit)
    ensures m.currentPage == AdjustedPage(page, m.totalPages)
    ensures m.nextPageUrl.Some? <==> m.currentPage < m.totalPages
    ensures m.nextPageUrl.Some? ==> m.nextPageUrl.value == link(m.currentPage + 1)
    ensures m.prevPageUrl.Some? <==> m.currentPage > 1
    ensures m.prevPageUrl.Some? ==> m.prevPageUrl.value == link(m.currentPage - 1)
  {
    var tp := TotalPages(total, limit);
    var a := AdjustedPage(page, tp);
    Meta(total, a, limit, tp,
         if a < tp then Some(link(a + 1)) else None,
         if a > 1 then Some(link(a - 1)) else None)
  }

  /** The arguments of the page query: rows `skip .. skip + take` of the filtered set. */
  function PageFind(where: Where, total: nat, page: Option<int>, limit: Option<int>, orderByCreatedDesc: bool): (f: FindArgs)
    ensures f.where == where && f.take == limit && f.orderByCreatedDesc == orderByCreatedDesc
    ensures f.skip == Skip(AdjustedPage(page, TotalPages(total, limit)), limit)
  {
    FindArgs(where, Skip(AdjustedPage(page, TotalPages(total, limit)), limit), limit, orderByCreatedDesc)
  }

  /** What every list handler answers with: the `findMany` arguments and the `meta` block. */
  datatype Page = Page(find: FindArgs, meta: Meta)

  /**
   * The answer of a list handler for `total` matching rows, with `link(n)` its `getPageUrl`: the
   * page is clamped, the skip starts inside the result set, and the links exist exactly when there
   * are rows after (before) the current page.
   */
  function PageResponse(where: Where, total: nat, page: Option<int>, limit: Option<int>, orderByCreatedDesc: bool,
                        link: int -> PageUrl): (r: Page)
    ensures r.find.where == where && r.find.take == limit && r.find.orderByCreatedDesc == orderByCreatedDesc
    ensures r.meta.totalElements == total && r.meta.limit == limit
    ensures r.meta.currentPage == AdjustedPage(page, TotalPages(total, limit))
    ensures r.meta.nextPageUrl.Some? <==> r.meta.currentPage < r.meta.totalPages
    ensures r.meta.nextPageUrl.Some? ==> r.meta.nextPageUrl.value == link(r.meta.currentPage + 1)
    ensures r.meta.prevPageUrl.Some? <==> r.meta.currentPage > 1
    ensures r.meta.prevPageUrl.Some? ==> r.meta.prevPageUrl.value == link(r.meta.currentPage - 1)
    ensures EffectiveLimit(limit) > 0 ==>
      && (total > 0 ==> 0 <= r.find.skip < total)
      && (r.meta.nextPageUrl.Some? <==> r.find.skip + EffectiveLimit(limit) < total)
      && (r.meta.prevPageUrl.Some? <==> r.find.skip > 0)
  {
    var r := Page(PageFind(where, total, page, limit, orderByCreatedDesc), PageMeta(total, page, limit, link));
    if EffectiveLimit(limit) > 0 then PageWindow(total, page, limit); r else r
  }
}
