/**
 * The pagination calculator: request page/limit sanitising, page metadata and
 * the first/last/next/prev links, for both path-based and query-based links.
 */
module Pagination {
  import opened Wrappers
  import opened JsText
  import opened SearchParams

  /**
   * The pagination options; a missing field is None. `isPathBased` is the
   * extra option `createPaginatedResponse` accepts.
   */
  datatype Options = Options(defaultLimit: Option<int>, maxLimit: Option<int>, isPathBased: Option<bool>)

  /**
   * The parts of an Express request the calculator reads. `pageNumber` and
   * `limitNumber` are `Number(req.query.page)` and `Number(req.query.limit)`,
   * None standing for NaN (a missing or non-numeric parameter). `host` is
   * what `req.get('host')` returns and `baseUrl` is `req.baseUrl || ''`.
   * `query` is the parsed query record `req.query` that `new URLSearchParams`
   * is built from: its entries in enumeration order, one per distinct name
   * (a repeated parameter arrives as one entry whose values are joined with
   * ','), not the raw query string's pairs.
   */
  datatype Request = Request(
    protocol: string,
    host: string,
    baseUrl: string,
    path: string,
    query: Pairs,
    pageNumber: Option<int>,
    limitNumber: Option<int>)

  datatype Params = Params(page: int, limit: int, skip: int)

  datatype Meta = Meta(
    currentPage: int,
    itemsPerPage: int,
    totalItems: int,
    totalPages: int,
    hasNextPage: bool,
    hasPrevPage: bool)

  /** A null link is None. */
  datatype Links = Links(first: string, last: string, next: Option<string>, prev: Option<string>)

  datatype PaginatedResult<T> = PaginatedResult(items: seq<T>, meta: Meta, links: Links)

  /** `x || fallback` for a number: NaN, a missing value and 0 are all falsy. */
  function OrElse(x: Option<int>, fallback: int): int {
    if x.None? || x.value == 0 then fallback else x.value
  }

  function Max(a: int, b: int): int { if a >= b then a else b }
  function Min(a: int, b: int): int { if a <= b then a else b }

  function DefaultLimit(opts: Options): (d: int)
    ensures d != 0
    ensures opts.defaultLimit.None? || opts.defaultLimit == Some(0) ==> d == 10
  {
    OrElse(opts.defaultLimit, 10)
  }

  function MaxLimit(opts: Options): (m: int)
    ensures m != 0
    ensures opts.maxLimit.None? || opts.maxLimit == Some(0) ==> m == 100
  {
    OrElse(opts.maxLimit, 100)
  }

  /**
   * `getPaginationParams`: page and limit are clamped, never rejected.
   */
  function GetPaginationParams(req: Request, opts: Options): (p: Params)
    // the page: a positive number is kept, anything else becomes 1
    ensures p.page >= 1
    ensures req.pageNumber.Some? && req.pageNumber.value >= 1 ==> p.page == req.pageNumber.value
    ensures req.pageNumber.None? || req.pageNumber.value < 1 ==> p.page == 1
    // the limit: never 0, and inside [1, maxLimit] whenever that range is not empty
    ensures p.limit != 0
    ensures MaxLimit(opts) >= 1 ==> 1 <= p.limit <= MaxLimit(opts)
    ensures MaxLimit(opts) < 1 ==> p.limit == MaxLimit(opts)
    ensures req.limitNumber.Some? && 1 <= req.limitNumber.value <= MaxLimit(opts) ==> p.limit == req.limitNumber.value
    ensures req.limitNumber.Some? && req.limitNumber.value > MaxLimit(opts) ==> p.limit == MaxLimit(opts)
    ensures req.limitNumber.Some? && req.limitNumber.value < 0 && MaxLimit(opts) >= 1 ==> p.limit == 1
    ensures OrElse(req.limitNumber, 0) == 0 ==> p.limit == Min(MaxLimit(opts), Max(1, DefaultLimit(opts)))
    // the offset: the items of all earlier pages
    ensures p.skip == (p.page - 1) * p.limit
    ensures p.limit >= 1 ==> p.skip >= 0
  {
    var maxLimit := MaxLimit(opts);
    var page := Max(1, OrElse(req.pageNumber, 1));
    var limit := Min(maxLimit, Max(1, OrElse(req.limitNumber, DefaultLimit(opts))));
    Params(page, limit, (page - 1) * limit)
  }

  /** `Math.ceil(t / d)` on exact rationals. */
  function CeilDiv(t: int, d: int): (q: int)
    requires d != 0
    ensures d > 0 ==> (q - 1) * d < t <= q * d
    ensures d < 0 ==> q * d <= t < (q - 1) * d
  {
    if d > 0 then -((-t) / d) else -(t / (-d))
  }

  /**
   * `buildPaginationMeta`: the page, limit and total echoed, totalPages the
   * `Math.ceil` of total over limit, and the two navigation flags.
   */
  function BuildPaginationMeta(page: int, limit: int, total: int): (m: Meta)
    requires limit != 0
    ensures m.currentPage == page && m.itemsPerPage == limit && m.totalItems == total
    ensures limit > 0 ==> (m.totalPages - 1) * limit < total <= m.totalPages * limit
    ensures m.hasNextPage <==> page < m.totalPages
    ensures m.hasPrevPage <==> page > 1
  {
    var totalPages := CeilDiv(total, limit);
    Meta(page, limit, total, totalPages, page < totalPages, page > 1)
  }

  /** No items means no pages and no next page. */
  lemma MetaOfNoItems(page: int, limit: int)
    requires limit != 0
    ensures BuildPaginationMeta(page, limit, 0).totalPages == 0
    ensures !BuildPaginationMeta(page, limit, 0).hasNextPage || page < 0
    ensures page >= 1 ==> !BuildPaginationMeta(page, limit, 0).hasNextPage
  {
  }

  /**
   * With a positive limit, totalPages is the least number of pages of that
   * size that hold all the items.
   */
  lemma MetaTotalPagesLeast(page: int, limit: int, total: int)
    requires limit >= 1 && total >= 0
    ensures var m := BuildPaginationMeta(page, limit, total);
      && m.totalPages >= 0
      && total <= m.totalPages * limit
      && forall k: int :: 0 <= k < m.totalPages ==> k * limit < total
  {
    var m := BuildPaginationMeta(page, limit, total);
    var tp := m.totalPages;
    assert (tp - 1) * limit < total <= tp * limit;
    assert tp >= 0;
    forall k: int | 0 <= k < tp ensures k * limit < total {
      MulMonotone(k, tp - 1, limit);
    }
  }

  lemma MulMonotone(a: int, b: int, c: int)
    requires a <= b && c >= 0
    ensures a * c <= b * c
  {
    assert b * c - a * c == (b - a) * c;
  }

  lemma MulStrict(a: int, b: int, c: int)
    requires a < b && c >= 1
    ensures a * c < b * c
  {
    assert b * c - a * c == (b - a) * c;
  }

  /**
   * hasNextPage holds exactly when some item lies beyond the current page,
   * and hasPrevPage exactly when the current page is not the first.
   */
  lemma {:induction false} MetaNavigation(page: int, limit: int, total: int)
    requires limit >= 1
    ensures BuildPaginationMeta(page, limit, total).hasNextPage <==> page * limit < total
    ensures BuildPaginationMeta(page, limit, total).hasPrevPage <==> page >= 2
  {
    var tp := CeilDiv(total, limit);
    assert (tp - 1) * limit < total <= tp * limit;
    if page < tp {
      MulMonotone(page, tp - 1, limit);
    } else {
      MulMonotone(tp, page, limit);
    }
  }

  // ----- links -----

  function BaseUrl(req: Request): string {
    req.protocol + "://" + req.host + req.baseUrl
  }

  /** The query of a query-based link: the request's query with `page` and `limit` set. */
  function LinkQuery(query: Pairs, p: int, limit: int): Pairs {
    Set(Set(query, "page", IntToString(p)), "limit", IntToString(limit))
  }

  /**
   * `buildUrl(p)` inside `buildPaginationLinks`: a path-based link extends
   * the base URL with `/page/<p>`, a query-based one the request's own path
   * with its query.
   */
  function BuildUrl(req: Request, p: int, limit: int, isPathBased: bool): (url: string)
    ensures isPathBased ==> StartsWith(url, BaseUrl(req) + "/page/" + IntToString(p) + "/limit/")
    ensures !isPathBased ==> StartsWith(url, BaseUrl(req) + req.path + "?")
  {
    if isPathBased then
      var prefix := BaseUrl(req) + "/page/" + IntToString(p) + "/limit/";
      SplitAt(prefix, IntToString(limit));
      prefix + IntToString(limit)
    else
      var prefix := BaseUrl(req) + req.path + "?";
      SplitAt(prefix, Serialize(LinkQuery(req.query, p, limit)));
      prefix + Serialize(LinkQuery(req.query, p, limit))
  }

  function BuildPaginationLinks(req: Request, page: int, limit: int, total: int, isPathBased: bool): (l: Links)
    requires limit != 0
    ensures var totalPages := BuildPaginationMeta(page, limit, total).totalPages;
      && l.first == BuildUrl(req, 1, limit, isPathBased)
      && l.last == BuildUrl(req, totalPages, limit, isPathBased)
      && (l.next.Some? <==> BuildPaginationMeta(page, limit, total).hasNextPage)
      && (l.next.Some? ==> l.next.value == BuildUrl(req, page + 1, limit, isPathBased))
      && (l.prev.Some? <==> BuildPaginationMeta(page, limit, total).hasPrevPage)
      && (l.prev.Some? ==> l.prev.value == BuildUrl(req, page - 1, limit, isPathBased))
  {
    var totalPages := CeilDiv(total, limit);
    Links(
      BuildUrl(req, 1, limit, isPathBased),
      BuildUrl(req, totalPages, limit, isPathBased),
      if page < totalPages then Some(BuildUrl(req, page + 1, limit, isPathBased)) else None,
      if page > 1 then Some(BuildUrl(req, page - 1, limit, isPathBased)) else None)
  }

  /** The page a path-based link points to, read back with `parseInt`. */
  function PathLinkPage(req: Request, url: string): Option<int> {
    var prefix := BaseUrl(req) + "/page/";
    if StartsWith(url, prefix) then ParseInt(url[|prefix|..]) else None
  }

  /** A path-based link names its page and limit, and parsing its page segment gives that page back. */
  lemma PathLinkReadsBack(req: Request, p: int, limit: int)
    ensures PathLinkPage(req, BuildUrl(req, p, limit, true)) == Some(p)
  {
    var prefix := BaseUrl(req) + "/page/";
    var tail := "/limit/" + IntToString(limit);
    PathUrlShape(req, p, limit);
    SplitAt(prefix, IntToString(p) + tail);
    ParseIntOfIntToString(p, tail);
  }

  lemma PathUrlShape(req: Request, p: int, limit: int)
    ensures BuildUrl(req, p, limit, true) == (BaseUrl(req) + "/page/") + (IntToString(p) + ("/limit/" + IntToString(limit)))
  {
  }

  lemma SplitAt(a: string, b: string)
    ensures StartsWith(a + b, a) && (a + b)[|a|..] == b
  {
    assert (a + b)[..|a|] == a;
  }

  /**
   * A query-based link carries exactly one `page` and one `limit` parameter,
   * with the requested values, and every other query parameter of the request
   * unchanged and in order.
   */
  lemma QueryLinkParams(query: Pairs, p: int, limit: int)
    ensures Lookup(LinkQuery(query, p, limit), "page") == Some(IntToString(p))
    ensures Lookup(LinkQuery(query, p, limit), "limit") == Some(IntToString(limit))
    ensures Count(LinkQuery(query, p, limit), "page") == 1
    ensures Count(LinkQuery(query, p, limit), "limit") == 1
    ensures Without(Without(LinkQuery(query, p, limit), "page"), "limit") == Without(Without(query, "page"), "limit")
    ensures forall k :: k != "page" && k != "limit" ==> Lookup(LinkQuery(query, p, limit), k) == Lookup(query, k)
  {
    var q1 := Set(query, "page", IntToString(p));
    var q2 := Set(q1, "limit", IntToString(limit));
    SetLookupOther(q1, "limit", IntToString(limit), "page");
    CountWithoutOther(q2, "limit", "page");
    CountWithoutOther(q1, "limit", "page");
    calc {
      Without(Without(q2, "page"), "limit");
      { WithoutTwice(q2, "page", "limit"); }
      Without(Without(q2, "limit"), "page");
      Without(Without(q1, "limit"), "page");
      { WithoutTwice(q1, "page", "limit"); }
      Without(Without(q1, "page"), "limit");
      Without(Without(query, "page"), "limit");
    }
    forall k | k != "page" && k != "limit" ensures Lookup(q2, k) == Lookup(query, k) {
      SetLookupOther(q1, "limit", IntToString(limit), k);
      SetLookupOther(query, "page", IntToString(p), k);
    }
  }

  lemma {:induction false} CountWithoutOther(list: Pairs, name: string, other: string)
    requires name != other
    ensures Count(Without(list, name), other) == Count(list, other)
  {
    if list != [] {
      CountWithoutOther(list[1..], name, other);
    }
  }

  /**
   * `createPaginatedResponse`: the items pass through untouched, and the
   * metadata and links use the page and limit `getPaginationParams` derives
   * from the same request and options.
   */
  function CreatePaginatedResponse<T>(req: Request, items: seq<T>, total: int, opts: Options): (r: PaginatedResult<T>)
    ensures r.items == items
    ensures var p := GetPaginationParams(req, opts);
      && r.meta == BuildPaginationMeta(p.page, p.limit, total)
      && r.links == BuildPaginationLinks(req, p.page, p.limit, total, opts.isPathBased.GetOr(false))
  {
    var p := GetPaginationParams(req, opts);
    PaginatedResult(
      items,
      BuildPaginationMeta(p.page, p.limit, total),
      BuildPaginationLinks(req, p.page, p.limit, total, opts.isPathBased.GetOr(false)))
  }

  /**
   * The links of a paginated response: `first` is page 1, `last` is page
   * totalPages (page 0 when there are no items), `next` is page+1 exactly
   * when there is a next page and `prev` is page-1 exactly when the page is
   * not the first.
   */
  lemma PaginatedLinks<T>(req: Request, items: seq<T>, total: int, opts: Options)
    requires total >= 0
    ensures var r := CreatePaginatedResponse(req, items, total, opts);
      var p := GetPaginationParams(req, opts);
      var path := opts.isPathBased.GetOr(false);
      && r.links.first == BuildUrl(req, 1, p.limit, path)
      && r.links.last == BuildUrl(req, r.meta.totalPages, p.limit, path)
      && (total == 0 ==> r.meta.totalPages == 0 && r.links.next.None?)
      && (r.links.next.None? <==> p.page >= r.meta.totalPages)
      && (r.links.next.Some? ==> r.links.next.value == BuildUrl(req, p.page + 1, p.limit, path))
      && (r.links.prev.None? <==> p.page == 1)
      && (r.links.prev.Some? ==> r.links.prev.value == BuildUrl(req, p.page - 1, p.limit, path))
  {
    var r := CreatePaginatedResponse(req, items, total, opts);
    var p := GetPaginationParams(req, opts);
    var path := opts.isPathBased.GetOr(false);
    assert r.meta == BuildPaginationMeta(p.page, p.limit, total);
    assert r.links == BuildPaginationLinks(req, p.page, p.limit, total, path);
    if total == 0 {
      MetaOfNoItems(p.page, p.limit);
    }
  }
}
