/**
 * The blog collection of lib/firestore-blogs.ts, held as an in-memory
 * sequence of records in snapshot order, with the library listing
 * (`getAllBlogs`), ownership test, creation, update, deletion and the
 * claiming of anonymous blogs by IP address.
 */
module Blogs {
  import opened Wrappers
  import opened Text
  import Js

  /** The `metadata` map of a blog record (its timestamp string is not modelled). */
  datatype Metadata = Metadata(contentLength: int, wordCount: int, error: Option<string>)

  /** A stored blog; times are milliseconds since the epoch. */
  datatype Blog = Blog(
    id: string,
    userId: Option<string>,
    title: string,
    content: string,
    query: string,
    imageUrl: Option<string>,
    ipAddress: Option<string>,
    userAgent: Option<string>,
    createdAt: int,
    updatedAt: int,
    metadata: Option<Metadata>)

  /** The argument of `createBlog`: a blog without id and timestamps. */
  datatype BlogData = BlogData(
    userId: Option<string>,
    title: string,
    content: string,
    query: string,
    imageUrl: Option<string>,
    ipAddress: Option<string>,
    userAgent: Option<string>,
    metadata: Option<Metadata>)

  /** The argument of `updateBlog`: the fields to overwrite (`None` = not given). */
  datatype BlogPatch = BlogPatch(
    title: Option<string>,
    content: Option<string>,
    imageUrl: Option<Option<string>>,
    metadata: Option<Metadata>)

  /** One page of the library and the number of all listed blogs. */
  datatype Page = Page(blogs: seq<Blog>, total: nat)

  predicate UniqueIds(blogs: seq<Blog>) {
    forall i, j :: 0 <= i < j < |blogs| ==> blogs[i].id != blogs[j].id
  }

  predicate HasId(blogs: seq<Blog>, id: string) {
    exists i :: 0 <= i < |blogs| && blogs[i].id == id
  }

  // ---------------------------------------------------------------- listing

  /** `x || null` on an optional string field: the empty string reads back as `null`. */
  function NullIfEmpty(o: Option<string>): (r: Option<string>)
    ensures r != Some("")
    ensures o != Some("") ==> r == o
  {
    if o == Some("") then None else o
  }

  /** A document as the read functions return it: empty optional fields read back as `null`. */
  function ReadBack(b: Blog): (r: Blog)
    ensures r.id == b.id && r.title == b.title && r.query == b.query && r.content == b.content
    ensures r.createdAt == b.createdAt && r.updatedAt == b.updatedAt && r.metadata == b.metadata
    ensures r.userId == NullIfEmpty(b.userId) && r.imageUrl == NullIfEmpty(b.imageUrl)
    ensures r.ipAddress == NullIfEmpty(b.ipAddress) && r.userAgent == NullIfEmpty(b.userAgent)
  {
    b.(userId := NullIfEmpty(b.userId), imageUrl := NullIfEmpty(b.imageUrl),
       ipAddress := NullIfEmpty(b.ipAddress), userAgent := NullIfEmpty(b.userAgent))
  }

  /** Every document of the collection, read back. */
  function ReadAll(blogs: seq<Blog>): (r: seq<Blog>)
    ensures |r| == |blogs| && forall k :: 0 <= k < |blogs| ==> r[k] == ReadBack(blogs[k])
  {
    seq(|blogs|, k requires 0 <= k < |blogs| => ReadBack(blogs[k]))
  }

  /** The search filter: title, query or content contains the term, ignoring case. */
  predicate MatchesSearch(b: Blog, term: string) {
    var t := Lower(term);
    Contains(Lower(b.title), t) || Contains(Lower(b.query), t) || Contains(Lower(b.content), t)
  }

  /** `.filter(...)`: the matching blogs, in their original order. */
  function FilterMatching(blogs: seq<Blog>, term: string): (r: seq<Blog>)
    ensures forall b :: multiset(r)[b] == if MatchesSearch(b, term) then multiset(blogs)[b] else 0
    decreases |blogs|
  {
    if blogs == [] then []
    else
      var rest := FilterMatching(blogs[1..], term);
      assert blogs == [blogs[0]] + blogs[1..];
      if MatchesSearch(blogs[0], term) then [blogs[0]] + rest else rest
  }

  /** Ordered by `createdAt`, newest first. */
  predicate NewestFirst(s: seq<Blog>) {
    forall i, j :: 0 <= i < j < |s| ==> s[i].createdAt >= s[j].createdAt
  }

  /** No blog of `s` is newer than `x`. */
  predicate NoneNewer(x: Blog, s: seq<Blog>) {
    forall k :: 0 <= k < |s| ==> s[k].createdAt <= x.createdAt
  }

  /** A blog followed by newest-first blogs none newer than it is newest first. */
  lemma ConsNewestFirst(x: Blog, t: seq<Blog>)
    requires NoneNewer(x, t) && NewestFirst(t)
    ensures NewestFirst([x] + t)
  {
    var r := [x] + t;
    forall i, j | 0 <= i < j < |r| ensures r[i].createdAt >= r[j].createdAt {
      if i > 0 {
        assert r[i] == t[i - 1] && r[j] == t[j - 1];
      } else {
        assert r[j] == t[j - 1];
      }
    }
  }

  /** Puts `b` in front of the first blog that is not newer than it. */
  function InsertNewestFirst(b: Blog, s: seq<Blog>): (r: seq<Blog>)
    requires NewestFirst(s)
    ensures NewestFirst(r)
    ensures multiset(r) == multiset(s) + multiset{b}
    ensures |r| == |s| + 1
    ensures forall x :: NoneNewer(x, s) && b.createdAt <= x.createdAt ==> NoneNewer(x, r)
    decreases |s|
  {
    if s == [] || s[0].createdAt <= b.createdAt then
      assert NoneNewer(b, s);
      ConsNewestFirst(b, s);
      [b] + s
    else
      NewestFirstTail(s);
      var rest := InsertNewestFirst(b, s[1..]);
      InsertBehind(b, s, rest);
      [s[0]] + rest
  }

  /** The tail of a newest-first sequence is newest first, and its head is not older than any of it. */
  lemma NewestFirstTail(s: seq<Blog>)
    requires s != [] && NewestFirst(s)
    ensures NewestFirst(s[1..]) && NoneNewer(s[0], s[1..])
  {
    var t := s[1..];
    forall i, j | 0 <= i < j < |t|
      ensures t[i].createdAt >= t[j].createdAt
    {
      assert t[i] == s[i + 1] && t[j] == s[j + 1];
    }
    forall k | 0 <= k < |t|
      ensures t[k].createdAt <= s[0].createdAt
    {
      assert t[k] == s[k + 1];
    }
  }

  /** The step of `InsertNewestFirst` that keeps the head and inserts behind it. */
  lemma InsertBehind(b: Blog, s: seq<Blog>, rest: seq<Blog>)
    requires s != [] && s[0].createdAt > b.createdAt && NewestFirst(s)
    requires NewestFirst(rest) && multiset(rest) == multiset(s[1..]) + multiset{b} && |rest| == |s|
    requires forall x :: NoneNewer(x, s[1..]) && b.createdAt <= x.createdAt ==> NoneNewer(x, rest)
    ensures NewestFirst([s[0]] + rest)
    ensures multiset([s[0]] + rest) == multiset(s) + multiset{b}
    ensures forall x :: NoneNewer(x, s) && b.createdAt <= x.createdAt ==> NoneNewer(x, [s[0]] + rest)
  {
    NewestFirstTail(s);
    ConsNewestFirst(s[0], rest);
    assert s == [s[0]] + s[1..];
    assert multiset([s[0]] + rest) == multiset{s[0]} + multiset(rest);
    assert multiset(s) == multiset{s[0]} + multiset(s[1..]);
    forall x | NoneNewer(x, s) && b.createdAt <= x.createdAt
      ensures NoneNewer(x, [s[0]] + rest)
    {
      NoneNewerTail(x, s);
      NoneNewerCons(x, s[0], rest);
    }
  }

  /** Nothing in the tail is newer than what nothing in the whole is newer than. */
  lemma NoneNewerTail(x: Blog, s: seq<Blog>)
    requires s != [] && NoneNewer(x, s)
    ensures NoneNewer(x, s[1..])
  {
    forall k | 0 <= k < |s| - 1
      ensures s[1..][k].createdAt <= x.createdAt
    {
      assert s[1..][k] == s[k + 1];
    }
  }

  /** Putting a blog no newer than `x` in front keeps nothing newer than `x`. */
  lemma NoneNewerCons(x: Blog, h: Blog, t: seq<Blog>)
    requires h.createdAt <= x.createdAt && NoneNewer(x, t)
    ensures NoneNewer(x, [h] + t)
  {
    var r := [h] + t;
    forall k | 0 <= k < |r|
      ensures r[k].createdAt <= x.createdAt
    {
      if k > 0 {
        assert r[k] == t[k - 1];
      }
    }
  }

  /** The sort by `createdAt` descending. */
  function SortNewestFirst(s: seq<Blog>): (r: seq<Blog>)
    ensures NewestFirst(r)
    ensures multiset(r) == multiset(s)
    ensures |r| == |s|
    decreases |s|
  {
    if s == [] then []
    else
      assert s == [s[0]] + s[1..];
      InsertNewestFirst(s[0], SortNewestFirst(s[1..]))
  }

  /**
   * Every blog the library lists for a search, before pagination: all
   * blogs when there is no search or the search is empty, else the matching
   * ones; newest first either way.
   */
  function Listed(blogs: seq<Blog>, search: Option<string>): seq<Blog> {
    if search.Some? && search.value != "" then SortNewestFirst(FilterMatching(ReadAll(blogs), search.value))
    else SortNewestFirst(ReadAll(blogs))
  }

  /** `getAllBlogs(limit, offset, searchQuery)`: the slice `[offset, offset + limit)` of the listing. */
  function GetAllBlogs(blogs: seq<Blog>, limit: int, offset: int, search: Option<string>): (r: Page)
    ensures r.total == |Listed(blogs, search)|
    ensures search.None? || search == Some("") ==> r.total == |blogs|
    ensures |r.blogs| <= r.total
  {
    var all := Listed(blogs, search);
    Page(Js.Slice(all, offset, offset + limit), |all|)
  }

  /**
   * A search lists exactly the (read-back) blogs whose title, query or
   * content contains the term case-insensitively, counting duplicates,
   * newest first; the total is their number.
   */
  lemma SearchListsExactlyMatches(blogs: seq<Blog>, term: string)
    requires term != ""
    ensures var l := Listed(blogs, Some(term));
      var docs := ReadAll(blogs);
      && NewestFirst(l)
      && (forall b :: multiset(l)[b] == if MatchesSearch(b, term) then multiset(docs)[b] else 0)
      && (forall b :: b in l <==> b in docs && MatchesSearch(b, term))
  {
    var l := Listed(blogs, Some(term));
    var docs := ReadAll(blogs);
    forall b ensures b in l <==> b in docs && MatchesSearch(b, term) {
      assert b in l <==> multiset(l)[b] > 0;
      assert b in docs <==> multiset(docs)[b] > 0;
    }
  }

  /** The empty term matches every blog, so the unfiltered branch lists what a filter would. */
  lemma EmptyTermMatchesAll(b: Blog)
    ensures MatchesSearch(b, "")
  {
    assert StartsWith(Lower(b.title), Lower(""));
  }

  /**
   * For a non-negative offset and limit the page is the window
   * `[offset, offset + limit)` of the listing, holds at most `limit` blogs,
   * and is itself newest first.
   */
  lemma PageIsWindow(blogs: seq<Blog>, limit: int, offset: int, search: Option<string>)
    requires 0 <= offset && 0 <= limit
    ensures var all := Listed(blogs, search);
      var r := GetAllBlogs(blogs, limit, offset, search);
      var lo := if offset < |all| then offset else |all|;
      var hi := if offset + limit < |all| then offset + limit else |all|;
      && r.blogs == all[lo..hi]
      && |r.blogs| <= limit
      && NewestFirst(r.blogs)
  {
    var all := Listed(blogs, search);
    var lo := if offset < |all| then offset else |all|;
    var hi := if offset + limit < |all| then offset + limit else |all|;
    var r := GetAllBlogs(blogs, limit, offset, search);
    assert r.blogs == Js.Slice(all, offset, offset + limit);
    Js.SliceWindow(all, offset, limit);
    NewestFirstWindow(all, lo, hi);
  }

  /**
   * How many blogs a page holds: none past the end of the listing, a full
   * `limit` while the listing lasts, and the remainder on the last page.
   */
  lemma PageLength(blogs: seq<Blog>, limit: int, offset: int, search: Option<string>)
    requires 0 <= offset && 0 <= limit
    ensures var n := |Listed(blogs, search)|;
      var r := GetAllBlogs(blogs, limit, offset, search);
      |r.blogs| == if n <= offset then 0 else if offset + limit <= n then limit else n - offset
  {
    PageIsWindow(blogs, limit, offset, search);
  }

  /** Any window of a newest-first sequence is newest first. */
  lemma NewestFirstWindow(s: seq<Blog>, lo: int, hi: int)
    requires 0 <= lo <= hi <= |s| && NewestFirst(s)
    ensures NewestFirst(s[lo..hi])
  {
    var w := s[lo..hi];
    forall i, j | 0 <= i < j < |w|
      ensures w[i].createdAt >= w[j].createdAt
    {
      assert w[i] == s[lo + i] && w[j] == s[lo + j];
    }
  }

  // --------------------------------------------------------------- reading

  /** `getBlog(blogId)`: the stored blog with that id, or `null`. */
  function GetBlog(blogs: seq<Blog>, blogId: string): (r: Option<Blog>)
    ensures r.None? <==> !HasId(blogs, blogId)
    ensures r.Some? ==> exists i :: 0 <= i < |blogs| && blogs[i].id == blogId && r.value == ReadBack(blogs[i])
    decreases |blogs|
  {
    if blogs == [] then None
    else if blogs[0].id == blogId then Some(ReadBack(blogs[0]))
    else
      var r := GetBlog(blogs[1..], blogId);
      assert forall i :: 0 <= i < |blogs| - 1 ==> blogs[1..][i] == blogs[i + 1];
      r
  }

  /**
   * `userOwnsBlog(blogId, userId)`: true exactly when the read succeeds, the
   * blog exists and its (read-back) owner is `userId`.
   */
  function UserOwnsBlog(blogs: seq<Blog>, blogId: string, userId: string, readOk: bool): (r: bool)
    requires UniqueIds(blogs)
    ensures r <==> (readOk && userId != ""
      && exists i :: 0 <= i < |blogs| && blogs[i].id == blogId && blogs[i].userId == Some(userId))
  {
    if !readOk then false
    else
      var b := GetBlog(blogs, blogId);
      GetBlogOfUnique(blogs, blogId);
      b.Some? && b.value.userId == Some(userId)
  }

  /** With unique ids, `getBlog` finds the one blog carrying the id. */
  lemma GetBlogOfUnique(blogs: seq<Blog>, blogId: string)
    requires UniqueIds(blogs)
    ensures forall i :: 0 <= i < |blogs| && blogs[i].id == blogId ==> GetBlog(blogs, blogId) == Some(ReadBack(blogs[i]))
  {
    var b := GetBlog(blogs, blogId);
    if b.Some? {
      var i :| 0 <= i < |blogs| && blogs[i].id == blogId && b.value == ReadBack(blogs[i]);
      assert forall j :: 0 <= j < |blogs| && blogs[j].id == blogId ==> j == i;
    }
  }

  // -------------------------------------------------------------- updating

  /** The stored form of `createBlog(data)`: both timestamps are the creation time. */
  function NewBlog(id: string, data: BlogData, now: int): (b: Blog)
    ensures b.id == id && b.createdAt == now && b.updatedAt == now
    ensures b.userId == data.userId && b.title == data.title && b.content == data.content
      && b.query == data.query && b.ipAddress == data.ipAddress
    ensures b.imageUrl == data.imageUrl && b.userAgent == data.userAgent && b.metadata == data.metadata
  {
    Blog(id, data.userId, data.title, data.content, data.query, data.imageUrl,
         data.ipAddress, data.userAgent, now, now, data.metadata)
  }

  /** `updateBlog`'s write: the given fields replaced, `updatedAt` refreshed, nothing else touched. */
  function ApplyPatch(b: Blog, p: BlogPatch, now: int): (r: Blog)
    ensures r.id == b.id && r.createdAt == b.createdAt && r.updatedAt == now
    ensures r.userId == b.userId && r.query == b.query && r.ipAddress == b.ipAddress
    ensures r.title == p.title.GetOr(b.title) && r.content == p.content.GetOr(b.content)
    ensures r.imageUrl == p.imageUrl.GetOr(b.imageUrl) && r.metadata == (if p.metadata.Some? then p.metadata else b.metadata)
    ensures r.userAgent == b.userAgent
  {
    b.(title := p.title.GetOr(b.title),
       content := p.content.GetOr(b.content),
       imageUrl := p.imageUrl.GetOr(b.imageUrl),
       metadata := if p.metadata.Some? then p.metadata else b.metadata,
       updatedAt := now)
  }

  /** The collection once `updateBlog(blogId, patch)` has landed: the blog with that id patched, the rest as they were. */
  function Patched(blogs: seq<Blog>, blogId: string, p: BlogPatch, now: int): (r: seq<Blog>)
    ensures |r| == |blogs|
    ensures forall k :: 0 <= k < |r| ==> r[k] == if blogs[k].id == blogId then ApplyPatch(blogs[k], p, now) else blogs[k]
  {
    seq(|blogs|, k requires 0 <= k < |blogs| => if blogs[k].id == blogId then ApplyPatch(blogs[k], p, now) else blogs[k])
  }

  /** Patching changes no id, so the ids stay unique and the patched id is still there. */
  lemma PatchedKeepsIds(blogs: seq<Blog>, blogId: string, p: BlogPatch, now: int)
    ensures var r := Patched(blogs, blogId, p, now);
      && (forall k :: 0 <= k < |r| ==> r[k].id == blogs[k].id)
      && (UniqueIds(blogs) ==> UniqueIds(r))
      && (HasId(r, blogId) <==> HasId(blogs, blogId))
  {
    var r := Patched(blogs, blogId, p, now);
    assert forall k :: 0 <= k < |r| ==> r[k].id == blogs[k].id;
    if HasId(blogs, blogId) {
      var j :| 0 <= j < |blogs| && blogs[j].id == blogId;
      assert r[j].id == blogId;
    }
    if HasId(r, blogId) {
      var j :| 0 <= j < |r| && r[j].id == blogId;
      assert blogs[j].id == blogId;
    }
  }

  /** The update loop: patches every blog with the id, one position at a time. */
  method PatchEach(blogs: seq<Blog>, blogId: string, patch: BlogPatch, now: int) returns (next: seq<Blog>)
    ensures next == Patched(blogs, blogId, patch, now)
  {
    next := blogs;
    var i := 0;
    while i < |next|
      invariant 0 <= i <= |next| && |next| == |blogs|
      invariant forall k :: 0 <= k < i ==>
        next[k] == if blogs[k].id == blogId then ApplyPatch(blogs[k], patch, now) else blogs[k]
      invariant forall k :: i <= k < |next| ==> next[k] == blogs[k]
    {
      if next[i].id == blogId {
        next := next[i := ApplyPatch(next[i], patch, now)];
      }
      i := i + 1;
    }
  }

  /** The blogs `claimUnsignedBlogs(userId, ip)` selects: no owner, created from `ip`. */
  predicate Claimable(b: Blog, ip: string) {
    b.userId.None? && b.ipAddress == Some(ip)
  }

  /** The effect of the batched claim update on one blog. */
  function ClaimOne(b: Blog, userId: string, ip: string, now: int): Blog {
    if Claimable(b, ip) then b.(userId := Some(userId), updatedAt := now) else b
  }

  /** The number of claimable blogs. */
  function CountClaimable(s: seq<Blog>, ip: string): nat
    decreases |s|
  {
    if s == [] then 0
    else CountClaimable(s[..|s| - 1], ip) + (if Claimable(s[|s| - 1], ip) then 1 else 0)
  }

  /** The number of blogs owned by `userId`. */
  function CountOwned(s: seq<Blog>, userId: string): nat
    decreases |s|
  {
    if s == [] then 0
    else CountOwned(s[..|s| - 1], userId) + (if s[|s| - 1].userId == Some(userId) then 1 else 0)
  }

  /** The collection after the claim. */
  function ClaimAll(s: seq<Blog>, userId: string, ip: string, now: int): (r: seq<Blog>)
    ensures |r| == |s|
    ensures forall k :: 0 <= k < |s| ==> r[k] == ClaimOne(s[k], userId, ip, now)
    decreases |s|
  {
    if s == [] then []
    else ClaimAll(s[..|s| - 1], userId, ip, now) + [ClaimOne(s[|s| - 1], userId, ip, now)]
  }

  /** Claiming changes no id. */
  lemma ClaimKeepsIds(s: seq<Blog>, userId: string, ip: string, now: int)
    requires UniqueIds(s)
    ensures UniqueIds(ClaimAll(s, userId, ip, now))
  {
    var r := ClaimAll(s, userId, ip, now);
    assert forall k :: 0 <= k < |s| ==> r[k].id == s[k].id;
  }

  /** Claiming gives `userId` exactly as many more blogs as there were claimable ones. */
  lemma {:induction false} ClaimTransfersCount(s: seq<Blog>, userId: string, ip: string, now: int)
    ensures CountOwned(ClaimAll(s, userId, ip, now), userId) == CountOwned(s, userId) + CountClaimable(s, ip)
    decreases |s|
  {
    if s != [] {
      var r := ClaimAll(s, userId, ip, now);
      assert r[..|r| - 1] == ClaimAll(s[..|s| - 1], userId, ip, now);
      ClaimTransfersCount(s[..|s| - 1], userId, ip, now);
    }
  }

  /** After a claim nothing from that IP is left unowned, so claiming again finds nothing. */
  lemma {:induction false} ClaimLeavesNothing(s: seq<Blog>, userId: string, ip: string, now: int)
    ensures CountClaimable(ClaimAll(s, userId, ip, now), ip) == 0
    decreases |s|
  {
    if s != [] {
      var r := ClaimAll(s, userId, ip, now);
      assert r[..|r| - 1] == ClaimAll(s[..|s| - 1], userId, ip, now);
      ClaimLeavesNothing(s[..|s| - 1], userId, ip, now);
    }
  }

  /** The collection after `deleteBlog(blogId)`: every other blog, in order. */
  function Without(s: seq<Blog>, blogId: string): (r: seq<Blog>)
    ensures forall b :: b in r <==> b in s && b.id != blogId
    ensures !HasId(r, blogId)
    decreases |s|
  {
    if s == [] then []
    else
      var p := s[..|s| - 1];
      assert s == p + [s[|s| - 1]];
      Without(p, blogId) + (if s[|s| - 1].id == blogId then [] else [s[|s| - 1]])
  }

  /** A single blog stays exactly when its id differs. */
  lemma WithoutOne(x: Blog, blogId: string)
    ensures Without([x], blogId) == if x.id == blogId then [] else [x]
  {
    assert [x][..0] == [];
  }

  /** Appending a blog: it stays at the end exactly when its id differs. */
  lemma WithoutSnoc(s: seq<Blog>, x: Blog, blogId: string)
    ensures Without(s + [x], blogId) == Without(s, blogId) + (if x.id == blogId then [] else [x])
  {
    var sx := s + [x];
    assert sx[..|sx| - 1] == s;
  }

  /**
   * `Without` keeps the order of the collection: removing from a
   * concatenation removes from each part.
   */
  lemma {:induction false} WithoutKeepsOrder(a: seq<Blog>, b: seq<Blog>, blogId: string)
    ensures Without(a + b, blogId) == Without(a, blogId) + Without(b, blogId)
    decreases |b|
  {
    if b == [] {
      assert a + b == a;
    } else {
      var p := b[..|b| - 1];
      var last := b[|b| - 1];
      assert b == p + [last];
      assert a + b == (a + p) + [last];
      WithoutKeepsOrder(a, p, blogId);
      WithoutSnoc(a + p, last, blogId);
      WithoutSnoc(p, last, blogId);
    }
  }

  /** Deleting keeps the ids unique. */
  lemma {:induction false} WithoutKeepsUnique(s: seq<Blog>, blogId: string)
    requires UniqueIds(s)
    ensures UniqueIds(Without(s, blogId))
    decreases |s|
  {
    if s != [] {
      var p := s[..|s| - 1];
      var x := s[|s| - 1];
      assert UniqueIds(p);
      WithoutKeepsUnique(p, blogId);
      var w := Without(p, blogId);
      forall y | y in w ensures y.id != x.id {
        assert y in p;
      }
    }
  }

  /** The blog collection, updated in place by the store operations. */
  class BlogStore {
    var blogs: seq<Blog>

    ghost predicate Valid()
      reads this
    {
      UniqueIds(blogs)
    }

    constructor (initial: seq<Blog>)
      requires UniqueIds(initial)
      ensures Valid() && blogs == initial
    {
      blogs := initial;
    }

    /** `createBlog(data)` under the fresh document id `id`; `None` when the write fails. */
    method CreateBlog(id: string, data: BlogData, now: int, writeOk: bool) returns (r: Option<Blog>)
      requires Valid() && !HasId(blogs, id)
      modifies this
      ensures Valid()
      ensures !writeOk ==> r == None && blogs == old(blogs)
      ensures writeOk ==> r == Some(NewBlog(id, data, now)) && blogs == old(blogs) + [NewBlog(id, data, now)]
    {
      if !writeOk {
        return None;
      }
      var b := Blog(id, data.userId, data.title, data.content, data.query, data.imageUrl,
                    data.ipAddress, data.userAgent, now, now, data.metadata);
      blogs := blogs + [b];
      return Some(b);
    }

    /**
     * `updateBlog(blogId, patch)`: the update fails (and changes nothing) for
     * a missing blog or a failing store; otherwise the updated blog is read
     * back. `readOk` says whether that read succeeds: when it fails the call
     * fails although the update has landed.
     */
    method UpdateBlog(blogId: string, patch: BlogPatch, now: int, writeOk: bool, readOk: bool)
      returns (r: Option<Blog>)
      requires Valid()
      modifies this
      ensures Valid() && |blogs| == |old(blogs)|
      ensures r.Some? <==> writeOk && readOk && HasId(old(blogs), blogId)
      ensures !writeOk || !HasId(old(blogs), blogId) ==> r == None && blogs == old(blogs)
      ensures writeOk && HasId(old(blogs), blogId) ==> blogs == Patched(old(blogs), blogId, patch, now)
      ensures r.Some? ==> r == GetBlog(blogs, blogId)
    {
      if !writeOk || !HasId(blogs, blogId) {
        return None;
      }
      var next := PatchEach(blogs, blogId, patch, now);
      PatchedKeepsIds(blogs, blogId, patch, now);
      blogs := next;
      if !readOk {
        return None;
      }
      r := GetBlog(blogs, blogId);
    }

    /** `deleteBlog(blogId)`: removes the blog if present; deleting a missing blog is not an error. */
    method DeleteBlog(blogId: string, writeOk: bool) returns (ok: bool)
      requires Valid()
      modifies this
      ensures Valid() && ok == writeOk
      ensures !writeOk ==> blogs == old(blogs)
      ensures writeOk ==> blogs == Without(old(blogs), blogId)
    {
      if !writeOk {
        return false;
      }
      var next: seq<Blog> := [];
      var i := 0;
      while i < |blogs|
        invariant 0 <= i <= |blogs|
        invariant next == Without(blogs[..i], blogId)
      {
        assert blogs[..i + 1][..i] == blogs[..i];
        if blogs[i].id != blogId {
          next := next + [blogs[i]];
        }
        i := i + 1;
      }
      assert blogs[..i] == blogs;
      WithoutKeepsUnique(blogs, blogId);
      blogs := next;
      return true;
    }

    /**
     * `claimUnsignedBlogs(userId, ipAddress)`: without an IP nothing changes
     * and 0 is returned; otherwise every blog with no owner created from that
     * IP gets `userId` and a fresh `updatedAt`, all other blogs stay as they
     * were, and the number of claimed blogs is returned. `None` models the
     * store error the function rethrows.
     */
    method ClaimUnsignedBlogs(userId: string, ipAddress: Option<string>, now: int, storeOk: bool)
      returns (claimed: Option<nat>)
      requires Valid()
      modifies this
      ensures Valid()
      ensures ipAddress.None? || ipAddress == Some("") ==> claimed == Some(0) && blogs == old(blogs)
      ensures ipAddress.Some? && ipAddress != Some("") && !storeOk ==> claimed == None && blogs == old(blogs)
      ensures ipAddress.Some? && ipAddress != Some("") && storeOk ==>
        claimed == Some(CountClaimable(old(blogs), ipAddress.value))
        && blogs == ClaimAll(old(blogs), userId, ipAddress.value, now)
    {
      if ipAddress.None? || ipAddress.value == "" {
        return Some(0);
      }
      if !storeOk {
        return None;
      }
      var ip := ipAddress.value;
      var batch := blogs;
      var count := 0;
      var i := 0;
      while i < |blogs|
        invariant 0 <= i <= |blogs| && |batch| == |blogs|
        invariant forall k :: 0 <= k < i ==> batch[k] == ClaimOne(blogs[k], userId, ip, now)
        invariant forall k :: i <= k < |blogs| ==> batch[k] == blogs[k]
        invariant count == CountClaimable(blogs[..i], ip)
        invariant count == 0 ==> batch == blogs
      {
        assert blogs[..i + 1][..i] == blogs[..i];
        if Claimable(blogs[i], ip) {
          batch := batch[i := ClaimOne(blogs[i], userId, ip, now)];
          count := count + 1;
        }
        i := i + 1;
      }
      assert blogs[..i] == blogs;
      ghost var spec := ClaimAll(blogs, userId, ip, now);
      assert batch == spec;
      ClaimKeepsIds(blogs, userId, ip, now);
      if count > 0 {
        blogs := batch;
      }
      return Some(count);
    }
  }
}
