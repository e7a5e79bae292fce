/**
 * The request middleware: the route-pattern matcher, the table of API routes that were meant to
 * need a verified token, the origin check, and the middleware as it now stands (it lets every
 * request through; its CORS and token checks are commented out).
 */
module Middleware {
  import opened Wrappers
  import JsText

  /** One entry of the token-protected table: a pattern and the methods it covers. */
  datatype Route = Route(path: string, methods: seq<string>)

  const AllMethods: seq<string> := ["GET", "POST", "DELETE", "PUT"]

  /**
   * `jwtVerifyApiRoutes`, in table order. Each path is written as its segments: `Path(["api",
   * "v1", "auth"])` is the string "/api/v1/auth".
   */
  const JwtRoutes: seq<Route> := [
    Route(Path(["api", "v1", "auth", "sign-out"]), ["POST"]),
    Route(Path(["api", "v1", "auth", "refresh-token"]), ["POST"]),
    Route(Path(["api", "v1", "auth"]), ["GET"]),
    Route(Path(["api", "v1", "stocks"]), AllMethods),
    Route(Path(["api", "v1", "stocks", "stockId"]), AllMethods),
    Route(Path(["api", "v1", "products", "product-stocks", ":productId"]), AllMethods),
    Route(Path(["api", "v1", "products", ":productId"]), AllMethods),
    Route(Path(["api", "v1", "products"]), AllMethods),
    Route(Path(["api", "v1", "products", "bulk-create"]), AllMethods),
    Route(Path(["api", "v1", "products", "product-stocks", ":productId"]), AllMethods),
    Route(Path(["api", "v1", "orders", "save-order"]), ["GET", "DELETE", "PUT"]),
    Route(Path(["api", "v1", "orders", "bulk-create"]), AllMethods),
    Route(Path(["api", "v1", "orders"]), AllMethods),
    Route(Path(["api", "v1", "orders", ":orderId"]), AllMethods)
  ]

  const AllowedOrigins: seq<string> := ["*"]

  /** `isOriginAllowed`: the list holds "*", so every origin is allowed. */
  function IsOriginAllowed(origin: string): (r: bool)
    ensures r
  {
    origin in AllowedOrigins || "*" in AllowedOrigins
  }

  /** `segment.startsWith(":")`. */
  predicate IsPlaceholder(segment: string) {
    |segment| > 0 && segment[0] == ':'
  }

  lemma IsPlaceholderStartsWith(segment: string)
    ensures IsPlaceholder(segment) <==> JsText.StartsWith(segment, ":")
  {
    if |segment| > 0 && segment[0] == ':' {
      assert segment[..1] == ":";
    }
  }

  /** A pattern segment admits a request segment: a `:` placeholder admits any, otherwise equal. */
  predicate SegmentMatches(pattern: string, segment: string) {
    IsPlaceholder(pattern) || pattern == segment
  }

  /** Two segment lists of the same length that agree position by position. */
  predicate SegmentsMatch(ps: seq<string>, ss: seq<string>) {
    |ps| == |ss| && forall i :: 0 <= i < |ps| ==> SegmentMatches(ps[i], ss[i])
  }

  /** `matchRoute`: split both on "/", and compare segment by segment. */
  predicate MatchRoute(routePath: string, requestPath: string) {
    SegmentsMatch(JsText.Split(routePath, '/'), JsText.Split(requestPath, '/'))
  }

  /** Different segment counts never match. */
  lemma CountMismatch(routePath: string, requestPath: string)
    requires |JsText.Split(routePath, '/')| != |JsText.Split(requestPath, '/')|
    ensures !MatchRoute(routePath, requestPath)
  {
  }

  /** Every path matches itself as a pattern. */
  lemma MatchReflexive(p: string)
    ensures MatchRoute(p, p)
  {
  }

  /** A pattern without placeholders matches a path exactly when the two strings are equal. */
  lemma LiteralPatternMatchesOnlyItself(routePath: string, requestPath: string)
    requires forall i :: 0 <= i < |JsText.Split(routePath, '/')| ==> !IsPlaceholder(JsText.Split(routePath, '/')[i])
    ensures MatchRoute(routePath, requestPath) <==> routePath == requestPath
  {
    var ps, ss := JsText.Split(routePath, '/'), JsText.Split(requestPath, '/');
    if MatchRoute(routePath, requestPath) {
      assert forall i :: 0 <= i < |ps| ==> ps[i] == ss[i];
      assert ps == ss;
      JsText.JoinSplit(routePath, '/');
      JsText.JoinSplit(requestPath, '/');
    }
  }

  /**
   * Whatever segment (the empty one included) a request has where the pattern has a `:`
   * placeholder, the match comes out the same.
   */
  lemma PlaceholderMatchesAnySegment(routePath: string, requestPath: string, i: nat, segment: string)
    requires i < |JsText.Split(routePath, '/')| && i < |JsText.Split(requestPath, '/')|
    requires IsPlaceholder(JsText.Split(routePath, '/')[i])
    requires '/' !in segment
    ensures MatchRoute(routePath, JsText.Join(JsText.Split(requestPath, '/')[i := segment], '/'))
        <==> MatchRoute(routePath, requestPath)
  {
    var ss := JsText.Split(requestPath, '/');
    var ss' := ss[i := segment];
    assert forall k :: 0 <= k < |ss'| ==> '/' !in ss'[k];
    JsText.SplitJoin(ss', '/');
  }

  /** The route applies to the request: its pattern matches and it lists the method. */
  predicate Applies(route: Route, path: string, verb: string) {
    MatchRoute(route.path, path) && verb in route.methods
  }

  /** `jwtVerifyApiRoutes.find(...)`, from index `from` on: the index of the first route that applies. */
  function FindRoute(routes: seq<Route>, path: string, verb: string, from: nat): (r: Option<nat>)
    requires from <= |routes|
    ensures r.Some? ==>
      from <= r.value < |routes| && Applies(routes[r.value], path, verb)
      && forall j :: from <= j < r.value ==> !Applies(routes[j], path, verb)
    ensures r.None? ==> forall j :: from <= j < |routes| ==> !Applies(routes[j], path, verb)
    decreases |routes| - from
  {
    if from == |routes| then None
    else if Applies(routes[from], path, verb) then Some(from)
    else FindRoute(routes, path, verb, from + 1)
  }

  /** The first applicable route is the one at `k` when `k` applies and none before it does. */
  lemma FirstMatchIs(routes: seq<Route>, path: string, verb: string, k: nat)
    requires k < |routes| && Applies(routes[k], path, verb)
    requires forall j :: 0 <= j < k ==> !Applies(routes[j], path, verb)
    ensures FindRoute(routes, path, verb, 0) == Some(k)
  {
  }

  /** An absolute path given by its segments: "/" followed by the segments joined with "/". */
  function Path(segments: seq<string>): string {
    JsText.Join([""] + segments, '/')
  }

  lemma SplitPath(segments: seq<string>)
    requires forall i :: 0 <= i < |segments| ==> '/' !in segments[i]
    ensures JsText.Split(Path(segments), '/') == [""] + segments
  {
    JsText.SplitJoin([""] + segments, '/');
  }

  /** A route at `k` whose path has the given segments is refused for the save-order path. */
  lemma RefusesSaveOrder(k: nat, segments: seq<string>, at: nat)
    requires k < |JwtRoutes| && JwtRoutes[k].path == Path(segments)
    requires forall i :: 0 <= i < |segments| ==> '/' !in segments[i]
    requires |segments| != |SaveOrderSegments| ||
      (at < |segments| && !IsPlaceholder(segments[at]) && segments[at] != SaveOrderSegments[at])
    ensures !MatchRoute(JwtRoutes[k].path, Path(SaveOrderSegments))
  {
    SplitPath(segments);
    SplitPath(SaveOrderSegments);
    if |segments| == |SaveOrderSegments| {
      assert ([""] + segments)[at + 1] == segments[at];
      assert ([""] + SaveOrderSegments)[at + 1] == SaveOrderSegments[at];
    }
  }

  const SaveOrderSegments: seq<string> := ["api", "v1", "orders", "save-order"]

  /** No route before the `:orderId` entry applies to `POST /api/v1/orders/save-order`. */
  lemma NoEarlierRouteForSaveOrder(j: nat)
    requires j < 13
    ensures !Applies(JwtRoutes[j], Path(SaveOrderSegments), "POST")
  {
    if j == 0 {
      RefusesSaveOrder(0, ["api", "v1", "auth", "sign-out"], 2);
    } else if j == 1 {
      RefusesSaveOrder(1, ["api", "v1", "auth", "refresh-token"], 2);
    } else if j == 2 {
      assert "POST" !in JwtRoutes[2].methods;
    } else if j == 3 {
      RefusesSaveOrder(3, ["api", "v1", "stocks"], 0);
    } else if j == 4 {
      RefusesSaveOrder(4, ["api", "v1", "stocks", "stockId"], 2);
    } else if j == 5 {
      RefusesSaveOrder(5, ["api", "v1", "products", "product-stocks", ":productId"], 0);
    } else if j == 6 {
      RefusesSaveOrder(6, ["api", "v1", "products", ":productId"], 2);
    } else if j == 7 {
      RefusesSaveOrder(7, ["api", "v1", "products"], 0);
    } else if j == 8 {
      RefusesSaveOrder(8, ["api", "v1", "products", "bulk-create"], 2);
    } else if j == 9 {
      RefusesSaveOrder(9, ["api", "v1", "products", "product-stocks", ":productId"], 0);
    } else if j == 10 {
      assert "POST" !in JwtRoutes[10].methods;
    } else if j == 11 {
      RefusesSaveOrder(11, ["api", "v1", "orders", "bulk-create"], 3);
    } else {
      RefusesSaveOrder(12, ["api", "v1", "orders"], 0);
    }
  }

  /**
   * Had the token lookup been enabled, `POST /api/v1/orders/save-order` would still be caught:
   * the save-order entry leaves out POST, but the later `/api/v1/orders/:orderId` entry matches.
   */
  lemma SaveOrderPostCaughtByOrderId()
    ensures FindRoute(JwtRoutes, Path(SaveOrderSegments), "POST", 0) == Some(13)
  {
    var p := Path(SaveOrderSegments);
    forall j | 0 <= j < 13 ensures !Applies(JwtRoutes[j], p, "POST") {
      NoEarlierRouteForSaveOrder(j);
    }
    OrderIdRouteApplies();
    FirstMatchIs(JwtRoutes, p, "POST", 13);
  }

  /** The `/api/v1/orders/:orderId` entry takes `POST /api/v1/orders/save-order`. */
  lemma OrderIdRouteApplies()
    ensures Applies(JwtRoutes[13], Path(SaveOrderSegments), "POST")
  {
    var segments := ["api", "v1", "orders", ":orderId"];
    assert JwtRoutes[13].path == Path(segments);
    SplitPath(segments);
    SplitPath(SaveOrderSegments);
    assert SegmentsMatch([""] + segments, [""] + SaveOrderSegments);
  }

  /**
   * The middleware's answer. As written it only passes the request on (`NextResponse.next()`);
   * the 401, 403 and redirect answers sit in commented-out code.
   */
  datatype Decision = PassThrough

  /** `middleware` as written: every request is passed on unchanged. */
  function Handle(pathname: string, verb: string, origin: string, hasToken: bool): (r: Decision)
    ensures r == PassThrough
  {
    PassThrough
  }
}
