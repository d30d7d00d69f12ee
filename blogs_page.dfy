/**
 * The blog library page (app/blogs/page.tsx): its search form, the
 * Previous / numbered / Next pagination controls and the request it sends
 * to `GET /api/blogs`. React state is the field set of `LibraryPage`.
 */
module BlogsPage {
  import opened Wrappers
  import BlogsApi

  /** The page size the library requests. */
  const LIMIT: int := 12

  /** The most numbered page buttons shown. */
  const MAX_BUTTONS: int := 5

  function Max(a: int, b: int): int { if a >= b then a else b }
  function Min(a: int, b: int): int { if a <= b then a else b }

  /** The Previous button: `Math.max(1, p - 1)`. */
  function PrevPage(page: int): (r: int)
    ensures r >= 1
    ensures page >= 2 ==> r == page - 1
    ensures page <= 2 ==> r == 1
  {
    Max(1, page - 1)
  }

  /** The Next button: `Math.min(totalPages, p + 1)`. */
  function NextPage(page: int, totalPages: int): (r: int)
    ensures r <= totalPages
    ensures page < totalPages ==> r == page + 1
    ensures page >= totalPages ==> r == totalPages
  {
    Min(totalPages, page + 1)
  }

  /** The numbered buttons `1 .. min(5, totalPages)` (`Array.from` of a negative length is empty). */
  function PageButtons(totalPages: int): (r: seq<int>)
    ensures |r| == Max(0, Min(MAX_BUTTONS, totalPages))
    ensures forall i :: 0 <= i < |r| ==> r[i] == i + 1
  {
    var n := Max(0, Min(MAX_BUTTONS, totalPages));
    seq(n, i requires 0 <= i < n => i + 1)
  }

  /** The `...` after the buttons. */
  predicate ShowsEllipsis(totalPages: int) {
    totalPages > MAX_BUTTONS
  }

  /** The query the page sends: `search` only when it is non-empty. */
  function Request(page: int, search: string): (r: BlogsApi.ListRequest)
    ensures r.page == Some(page) && r.limit == Some(LIMIT)
    ensures r.search.Some? <==> search != ""
    ensures r.search.Some? ==> r.search.value == search
  {
    BlogsApi.ListRequest(Some(page), Some(LIMIT), if search != "" then Some(search) else None)
  }

  /** At the first page Previous stays; at the last page Next stays. */
  lemma ClampsStopAtTheEnds(totalPages: int)
    ensures PrevPage(1) == 1
    ensures NextPage(totalPages, totalPages) == totalPages
  {
  }

  /** From a page in `[1, totalPages]`, Previous and Next stay in range and move by at most one. */
  lemma ClampsKeepPageInRange(page: int, totalPages: int)
    requires 1 <= page <= totalPages
    ensures 1 <= PrevPage(page) <= totalPages && page - 1 <= PrevPage(page) <= page
    ensures 1 <= NextPage(page, totalPages) <= totalPages && page <= NextPage(page, totalPages) <= page + 1
  {
  }

  /**
   * The buttons list every page when there are at most five, else the
   * first five followed by the ellipsis; every button names an existing page.
   */
  lemma ButtonsAndEllipsis(totalPages: int)
    ensures forall i :: 0 <= i < |PageButtons(totalPages)| ==> 1 <= PageButtons(totalPages)[i] <= totalPages
    ensures totalPages <= MAX_BUTTONS ==> forall p :: 1 <= p <= totalPages ==> p in PageButtons(totalPages)
    ensures ShowsEllipsis(totalPages) <==> totalPages > |PageButtons(totalPages)|
  {
    var r := PageButtons(totalPages);
    if totalPages <= MAX_BUTTONS {
      forall p | 1 <= p <= totalPages ensures p in r {
        assert r[p - 1] == p;
      }
    }
  }

  /** The route reads the page's request back as that page, twelve per page and the same search. */
  lemma RequestRoundTrip(blogs: seq<BlogsApi.Blogs.Blog>, page: int, search: string)
    ensures var r := BlogsApi.ListBlogs(blogs, Request(page, search), true);
      && r.Listing?
      && r.pagination.page == page && r.pagination.limit == LIMIT
      && r.pagination.pages == Some(BlogsApi.PageCount(r.pagination.total, LIMIT).value)
  {
  }

  /** The text a non-OK response throws. */
  const FETCH_FAILED: string := "Failed to fetch blogs"

  /** The text shown when the fetch throws something that is not an `Error`. */
  const LOAD_FAILED: string := "Failed to load blogs"

  /**
   * How the fetch effect ends: a response from the route, or a rejection of
   * `fetch` itself; `message` is the `Error`'s message, `None` when what was
   * thrown is not an `Error`.
   */
  datatype FetchOutcome = Received(response: BlogsApi.ListResponse) | Threw(message: Option<string>)

  /** The library page's state. */
  class LibraryPage {
    var blogs: seq<BlogsApi.Summary>
    var isLoading: bool
    var error: string
    var page: int
    var totalPages: int
    var search: string
    var searchInput: string

    constructor ()
      ensures blogs == [] && isLoading && error == ""
      ensures page == 1 && totalPages == 1 && search == "" && searchInput == ""
    {
      blogs, isLoading, error := [], true, "";
      page, totalPages, search, searchInput := 1, 1, "", "";
    }

    /** Typing into the search box. */
    method TypeSearch(text: string)
      modifies this
      ensures searchInput == text
      ensures page == old(page) && search == old(search) && totalPages == old(totalPages)
      ensures blogs == old(blogs) && error == old(error) && isLoading == old(isLoading)
    {
      searchInput := text;
    }

    /** `handleSearch`: the typed text becomes the search and the page goes back to 1. */
    method HandleSearch()
      modifies this
      ensures search == old(searchInput) && page == 1
      ensures searchInput == old(searchInput) && totalPages == old(totalPages)
      ensures blogs == old(blogs) && error == old(error) && isLoading == old(isLoading)
    {
      search := searchInput;
      page := 1;
    }

    /** The Previous button. */
    method Previous()
      modifies this
      ensures page == PrevPage(old(page))
      ensures search == old(search) && searchInput == old(searchInput) && totalPages == old(totalPages)
      ensures blogs == old(blogs) && error == old(error) && isLoading == old(isLoading)
    {
      page := if 1 >= page - 1 then 1 else page - 1;
    }

    /** The Next button. */
    method Next()
      modifies this
      ensures page == NextPage(old(page), old(totalPages))
      ensures search == old(search) && searchInput == old(searchInput) && totalPages == old(totalPages)
      ensures blogs == old(blogs) && error == old(error) && isLoading == old(isLoading)
    {
      page := if totalPages <= page + 1 then totalPages else page + 1;
    }

    /** A numbered button `pageNum`. */
    method SelectPage(pageNum: int)
      requires pageNum in PageButtons(totalPages)
      modifies this
      ensures page == pageNum && 1 <= page <= totalPages
      ensures search == old(search) && searchInput == old(searchInput) && totalPages == old(totalPages)
      ensures blogs == old(blogs) && error == old(error) && isLoading == old(isLoading)
    {
      ButtonsAndEllipsis(totalPages);
      page := pageNum;
    }

    /** The request of the fetch effect, which runs whenever `page` or `search` changes. */
    method StartFetch() returns (req: BlogsApi.ListRequest)
      modifies this
      ensures req == Request(page, search)
      ensures isLoading && error == ""
      ensures page == old(page) && search == old(search) && searchInput == old(searchInput)
      ensures totalPages == old(totalPages) && blogs == old(blogs)
    {
      isLoading := true;
      error := "";
      req := BlogsApi.ListRequest(Some(page), Some(LIMIT), if search != "" then Some(search) else None);
    }

    /**
     * The end of the fetch effect: a listing replaces the blogs and the page
     * count. A non-OK response throws `Failed to fetch blogs`; a rejected
     * `fetch` shows its error's message, or `Failed to load blogs`. Either
     * failure keeps the blogs and the page count. Loading ends in every case.
     */
    method FinishFetch(outcome: FetchOutcome)
      requires outcome.Received? && outcome.response.Listing? ==> outcome.response.pagination.pages.Some?
      modifies this
      ensures !isLoading
      ensures outcome.Received? && outcome.response.Listing? ==> (blogs == outcome.response.blogs
        && totalPages == outcome.response.pagination.pages.value && error == old(error))
      ensures outcome.Received? && outcome.response.Failure? ==> (blogs == old(blogs)
        && totalPages == old(totalPages) && error == FETCH_FAILED)
      ensures outcome.Threw? ==> (blogs == old(blogs)
        && totalPages == old(totalPages) && error == outcome.message.GetOr(LOAD_FAILED))
      ensures page == old(page) && search == old(search) && searchInput == old(searchInput)
    {
      match outcome {
        case Received(response) =>
          if response.Listing? {
            blogs := response.blogs;
            totalPages := response.pagination.pages.value;
          } else {
            error := FETCH_FAILED;
          }
        case Threw(message) =>
          error := if message.Some? then message.value else LOAD_FAILED;
      }
      isLoading := false;
    }
  }
}
