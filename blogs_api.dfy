/**
 * `GET /api/blogs` (app/api/blogs/route.ts): the paginated, searchable
 * library listing. Query parameters arrive already parsed; `None` is a
 * parameter that is absent or empty, which takes the default.
 */
module BlogsApi {
  import opened Wrappers
  import Js
  import Blogs

  const DEFAULT_PAGE: int := 1
  const DEFAULT_LIMIT: int := 12

  /** The query string `?page=&limit=&search=`. */
  datatype ListRequest = ListRequest(page: Option<int>, limit: Option<int>, search: Option<string>)

  /** The projection of a blog that the listing returns. */
  datatype Summary = Summary(id: string, title: string, content: string, query: string,
                             createdAt: int, imageUrl: Option<string>)

  /** `pages` is `None` where `Math.ceil(total / 0)` is not a finite number (serialised as `null`). */
  datatype Pagination = Pagination(total: nat, page: int, limit: int, pages: Option<int>)

  datatype ListResponse =
    | Listing(blogs: seq<Summary>, pagination: Pagination)
    | Failure(status: int, error: string)

  function Summarize(b: Blogs.Blog): (r: Summary)
    ensures r.id == b.id && r.title == b.title && r.content == b.content && r.query == b.query
    ensures r.createdAt == b.createdAt && r.imageUrl == b.imageUrl
  {
    Summary(b.id, b.title, b.content, b.query, b.createdAt, b.imageUrl)
  }

  /** The offset of a 1-based page. */
  function Offset(page: int, limit: int): (r: int)
    ensures page >= 1 && limit >= 0 ==> r >= 0
    ensures page == 1 ==> r == 0
  {
    (page - 1) * limit
  }

  /** `Math.ceil(total / limit)`: the number of pages. */
  function PageCount(total: nat, limit: int): (r: Option<int>)
    ensures r.None? <==> limit == 0
    ensures limit > 0 ==> r.Some? && r.value >= 0
    ensures limit > 0 ==> r.value * limit >= total && (r.value - 1) * limit < total
    ensures limit > 0 ==> (r.value == 0 <==> total == 0)
  {
    if limit == 0 then None else Some(Js.CeilDiv(total, limit))
  }

  /** The listing handler; `storeOk` is false when reading the collection throws. */
  function ListBlogs(blogs: seq<Blogs.Blog>, req: ListRequest, storeOk: bool): (r: ListResponse)
    ensures !storeOk <==> r == Failure(500, "Failed to fetch blogs")
    ensures storeOk ==> r.Listing?
    ensures r.Listing? ==>
      var page := req.page.GetOr(DEFAULT_PAGE);
      var limit := req.limit.GetOr(DEFAULT_LIMIT);
      var search := if req.search.Some? && req.search.value != "" then req.search else None;
      var p := Blogs.GetAllBlogs(blogs, limit, Offset(page, limit), search);
      && r.pagination == Pagination(p.total, page, limit, PageCount(p.total, limit))
      && |r.blogs| == |p.blogs|
      && forall k :: 0 <= k < |p.blogs| ==> r.blogs[k] == Summarize(p.blogs[k])
  {
    if !storeOk then Failure(500, "Failed to fetch blogs")
    else
      var page := req.page.GetOr(DEFAULT_PAGE);
      var limit := req.limit.GetOr(DEFAULT_LIMIT);
      var search := if req.search.Some? && req.search.value != "" then req.search else None;
      var p := Blogs.GetAllBlogs(blogs, limit, Offset(page, limit), search);
      Listing(Summaries(p.blogs), Pagination(p.total, page, limit, PageCount(p.total, limit)))
  }

  /** The listing's `map`: each blog as its summary, in order. */
  function Summaries(bs: seq<Blogs.Blog>): (r: seq<Summary>)
    ensures |r| == |bs|
    ensures forall k :: 0 <= k < |bs| ==> r[k] == Summarize(bs[k])
  {
    seq(|bs|, k requires 0 <= k < |bs| => Summarize(bs[k]))
  }

  /** With no parameters the first twelve blogs, newest first, are listed. */
  lemma DefaultsListFirstTwelve(blogs: seq<Blogs.Blog>)
    ensures var r := ListBlogs(blogs, ListRequest(None, None, None), true);
      var all := Blogs.Listed(blogs, None);
      && r.Listing?
      && r.pagination.page == 1 && r.pagination.limit == 12
      && r.pagination.total == |blogs|
      && |r.blogs| == (if |all| < 12 then |all| else 12)
      && forall k :: 0 <= k < |r.blogs| ==> r.blogs[k] == Summarize(all[k])
  {
    Blogs.PageIsWindow(blogs, 12, 0, None);
  }

  /**
   * For a positive limit every listed blog is shown: the `k`-th one is
   * entry `slot` of some page between 1 and the page count.
   */
  lemma EveryBlogIsOnAPage(blogs: seq<Blogs.Blog>, search: Option<string>, limit: int, k: int)
    returns (page: int, slot: int)
    requires limit > 0
    requires 0 <= k < |Blogs.Listed(blogs, search)|
    ensures var p := Blogs.GetAllBlogs(blogs, limit, Offset(page, limit), search);
      && 1 <= page <= PageCount(p.total, limit).value
      && 0 <= slot < |p.blogs|
      && p.blogs[slot] == Blogs.Listed(blogs, search)[k]
  {
    var all := Blogs.Listed(blogs, search);
    page, slot := PagesCover(all, limit, k);
    var o := Offset(page, limit);
    var p := Blogs.GetAllBlogs(blogs, limit, o, search);
    assert p.blogs == Js.Slice(all, o, o + limit);
  }

  /** Over any listing, item `k` is entry `slot` of page `page`, and that page is within the page count. */
  lemma PagesCover<T>(all: seq<T>, limit: int, k: int) returns (page: int, slot: int)
    requires limit > 0 && 0 <= k < |all|
    ensures 1 <= page <= PageCount(|all|, limit).value
    ensures var w := Js.Slice(all, Offset(page, limit), Offset(page, limit) + limit);
      0 <= slot < |w| && w[slot] == all[k]
  {
    page, slot := PageArithmetic(k, limit, |all|);
    WindowEntry(all, limit, Offset(page, limit), slot);
  }

  /** Index `k` is entry `slot` of page `page` (`k / limit + 1`, `k % limit`), and that page exists. */
  lemma PageArithmetic(k: int, limit: int, total: nat) returns (page: int, slot: int)
    requires limit > 0 && 0 <= k < total
    ensures 1 <= page <= PageCount(total, limit).value
    ensures 0 <= Offset(page, limit) && 0 <= slot < limit
    ensures Offset(page, limit) + slot == k
  {
    var q := k / limit;
    page, slot := q + 1, k % limit;
    assert Offset(page, limit) == q * limit;
    assert k == q * limit + slot;
    var pages := PageCount(total, limit).value;
    if q >= pages {
      MulMonotone(pages, q, limit);
    }
  }

  /** Entry `i` of the window of `limit` items starting at `o` is item `o + i`. */
  lemma WindowEntry<T>(all: seq<T>, limit: int, o: int, i: int)
    requires 0 <= o && 0 <= i < limit && o + i < |all|
    ensures var w := Js.Slice(all, o, o + limit);
      i < |w| && w[i] == all[o + i]
  {
    var hi := if o + limit < |all| then o + limit else |all|;
    assert Js.Slice(all, o, o + limit) == all[o..hi];
  }

  lemma MulMonotone(a: int, b: int, c: int)
    requires a <= b && c > 0
    ensures a * c <= b * c
  {
  }
}
