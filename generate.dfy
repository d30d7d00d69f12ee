/**
 * The blog generation route app/api/generate/route.ts: the content-safety
 * screen, the order of the POST guards (which decides what consumes
 * generation quota), and the background job that picks the system prompt, collects the streamed text
 * and writes the finished blog back.
 */
module Generate {
  import opened Wrappers
  import opened Text
  import Js
  import Utils
  import Blogs
  import RateLimit
  import Prompts

  const INVALID_QUERY: string := "Invalid query"
  const POLICY_REASON: string := "This topic contains content that violates our safety policy. Please request a different topic."
  const DETAIL_REASON: string := "Please provide a more detailed topic description."
  const NO_API_KEY: string := "GROQ_API_KEY is not set"
  const RATE_LIMITED: string := "Rate limit exceeded"
  const CREATE_FAILED: string := "Failed to create blog record"
  const GENERATING: string := "Generating..."
  const GENERATION_FAILED: string := "Generation Failed"
  const UNAVAILABLE_TITLE: string := "Service Temporarily Unavailable"
  const UNAVAILABLE_CONTENT: string := "Groq API is currently overloaded. Please try again in a few moments."
  const LIMIT_ERROR_TAG: string := "groq_rate_limit_exceeded"
  const FAILURE_CONTENT: string := "Failed to generate blog content. Please try again."

  /** Queries whose trimmed length is below this are too short to generate from. */
  const MIN_QUERY_LENGTH: int := 3

  // ------------------------------------------------------------ content safety

  datatype Verdict = Safe | Unsafe(reason: string)

  /**
   * Reference definition of the screen: a query is refused on policy
   * grounds when any harmful pattern matches its lower-cased text, refused
   * as too short when its trimmed text has fewer than 3 characters, and
   * safe otherwise. Patterns are the case-insensitive regular expressions
   * of the route, given as predicates.
   */
  function SafetyVerdict(patterns: seq<string -> bool>, query: string): Verdict {
    if exists i :: 0 <= i < |patterns| && patterns[i](Lower(query)) then Unsafe(POLICY_REASON)
    else if |Trim(query)| < MIN_QUERY_LENGTH then Unsafe(DETAIL_REASON)
    else Safe
  }

  /** `isContentSafe(query)`: tries the patterns in order and returns at the first match. */
  method IsContentSafe(patterns: seq<string -> bool>, query: string) returns (v: Verdict)
    ensures v == SafetyVerdict(patterns, query)
  {
    var lowerQuery := Lower(query);
    for i := 0 to |patterns|
      invariant forall j :: 0 <= j < i ==> !patterns[j](lowerQuery)
    {
      if patterns[i](lowerQuery) {
        return Unsafe(POLICY_REASON);
      }
    }
    if |Trim(query)| < MIN_QUERY_LENGTH {
      return Unsafe(DETAIL_REASON);
    }
    return Safe;
  }

  /**
   * The harmful-pattern rule is checked before the length rule, so a short
   * harmful query gets the policy reason; a query is safe exactly when
   * neither rule fires.
   */
  lemma PolicyBeforeLength(patterns: seq<string -> bool>, query: string, i: int)
    requires 0 <= i < |patterns| && patterns[i](Lower(query))
    ensures SafetyVerdict(patterns, query) == Unsafe(POLICY_REASON)
  {
  }

  lemma SafeIffNeitherRule(patterns: seq<string -> bool>, query: string)
    ensures SafetyVerdict(patterns, query) == Safe
      <==> (forall i :: 0 <= i < |patterns| ==> !patterns[i](Lower(query))) && |Trim(query)| >= MIN_QUERY_LENGTH
    ensures SafetyVerdict(patterns, query) == Unsafe(DETAIL_REASON)
      <==> (forall i :: 0 <= i < |patterns| ==> !patterns[i](Lower(query))) && |Trim(query)| < MIN_QUERY_LENGTH
  {
  }

  // ------------------------------------------------------------ the POST handler

  /** The JSON body: `query` may be any value; `customPrompt` and `userId` are optional strings. */
  datatype GenerateRequest = GenerateRequest(query: Js.Json, customPrompt: Option<string>, userId: Option<string>)

  datatype Response = Accepted(id: string) | Rejected(status: int, error: string, resetAt: Option<int>)

  datatype PostOutcome = PostOutcome(response: Response,
                                     counters: map<RateLimit.WindowKey, RateLimit.Counter>,
                                     blogs: seq<Blogs.Blog>)

  /** `query` is a string with some non-whitespace character. */
  predicate ValidQuery(q: Js.Json) {
    q.JString? && Trim(q.s) != ""
  }

  /** `x || null` for an optional string. */
  function OrNull(o: Option<string>): (r: Option<string>)
    ensures r.None? <==> o.None? || o == Some("")
    ensures r.Some? ==> r == o
  {
    if o.Some? && o.value != "" then o else None
  }

  /** The record created before generation starts. */
  function InitialBlog(query: string, userId: Option<string>, ip: Option<string>, userAgent: Option<string>): (d: Blogs.BlogData)
    ensures d.title == GENERATING && d.content == "" && d.query == query && d.imageUrl.None?
    ensures d.metadata == Some(Blogs.Metadata(0, 0, None))
    ensures d.userId == OrNull(userId) && d.ipAddress == ip && d.userAgent == userAgent
  {
    Blogs.BlogData(OrNull(userId), GENERATING, "", query, None, ip, userAgent, Some(Blogs.Metadata(0, 0, None)))
  }

  /** The rejection for a denied rate-limit check: its message (or a generic one) and reset time. */
  function RateLimited(r: RateLimit.RateLimitResult): Response {
    Rejected(429, if r.error.Some? && r.error.value != "" then r.error.value else RATE_LIMITED, Some(r.resetAt))
  }

  /**
   * `POST` with the quota counters and the blog collection it acts on.
   * `hasApiKey` says whether `GROQ_API_KEY` is set, `limiterOk` whether the
   * quota store works, `newId` is the id the store assigns and `writeOk`
   * whether creating the blog succeeds. The background generation it starts
   * is `GenerateBlogContent`.
   */
  function Post(counters: map<RateLimit.WindowKey, RateLimit.Counter>, blogs: seq<Blogs.Blog>,
                req: GenerateRequest, patterns: seq<string -> bool>, hasApiKey: bool,
                ip: Option<string>, userAgent: Option<string>, now: int, hourBucket: int, dayBucket: int,
                limiterOk: bool, newId: string, writeOk: bool): (o: PostOutcome)
  {
    if !ValidQuery(req.query) then
      PostOutcome(Rejected(400, INVALID_QUERY, None), counters, blogs)
    else if SafetyVerdict(patterns, req.query.s).Unsafe? then
      PostOutcome(Rejected(400, SafetyVerdict(patterns, req.query.s).reason, None), counters, blogs)
    else if !hasApiKey then
      PostOutcome(Rejected(500, NO_API_KEY, None), counters, blogs)
    else
      var rl := RateLimit.Check(counters, req.userId, ip, now, hourBucket, dayBucket, limiterOk);
      if !rl.result.allowed then
        PostOutcome(RateLimited(rl.result), rl.counters, blogs)
      else if !writeOk then
        PostOutcome(Rejected(500, CREATE_FAILED, None), rl.counters, blogs)
      else
        PostOutcome(Accepted(newId), rl.counters,
                    blogs + [Blogs.NewBlog(newId, InitialBlog(req.query.s, req.userId, ip, userAgent), now)])
  }

  /** A missing, non-string or blank query is refused with 400 before anything else is looked at. */
  lemma InvalidQueryIsRefusedFirst(counters: map<RateLimit.WindowKey, RateLimit.Counter>, blogs: seq<Blogs.Blog>,
                                   req: GenerateRequest, patterns: seq<string -> bool>, hasApiKey: bool,
                                   ip: Option<string>, userAgent: Option<string>, now: int, hourBucket: int, dayBucket: int,
                                   limiterOk: bool, newId: string, writeOk: bool)
    requires !ValidQuery(req.query)
    ensures Post(counters, blogs, req, patterns, hasApiKey, ip, userAgent, now, hourBucket, dayBucket, limiterOk, newId, writeOk)
      == PostOutcome(Rejected(400, INVALID_QUERY, None), counters, blogs)
  {
  }

  /**
   * Invalid and unsafe queries and a missing API key are refused before
   * the rate limiter is consulted: they use no quota and create no blog.
   */
  lemma EarlyRefusalsUseNoQuota(counters: map<RateLimit.WindowKey, RateLimit.Counter>, blogs: seq<Blogs.Blog>,
                                req: GenerateRequest, patterns: seq<string -> bool>, hasApiKey: bool,
                                ip: Option<string>, userAgent: Option<string>, now: int, hourBucket: int, dayBucket: int,
                                limiterOk: bool, newId: string, writeOk: bool)
    requires !ValidQuery(req.query) || SafetyVerdict(patterns, req.query.s).Unsafe? || !hasApiKey
    ensures var o := Post(counters, blogs, req, patterns, hasApiKey, ip, userAgent, now, hourBucket, dayBucket, limiterOk, newId, writeOk);
      o.response.Rejected? && o.response.status != 429 && o.counters == counters && o.blogs == blogs
  {
  }

  /**
   * An accepted request adds exactly one record, the placeholder blog under
   * the returned id, and has counted the request against the quota.
   */
  lemma AcceptedCreatesPlaceholder(counters: map<RateLimit.WindowKey, RateLimit.Counter>, blogs: seq<Blogs.Blog>,
                                   req: GenerateRequest, patterns: seq<string -> bool>, hasApiKey: bool,
                                   ip: Option<string>, userAgent: Option<string>, now: int, hourBucket: int, dayBucket: int,
                                   limiterOk: bool, newId: string, writeOk: bool)
    requires Post(counters, blogs, req, patterns, hasApiKey, ip, userAgent, now, hourBucket, dayBucket, limiterOk, newId, writeOk).response.Accepted?
    ensures var o := Post(counters, blogs, req, patterns, hasApiKey, ip, userAgent, now, hourBucket, dayBucket, limiterOk, newId, writeOk);
      && ValidQuery(req.query) && SafetyVerdict(patterns, req.query.s) == Safe && hasApiKey && writeOk
      && o.response.id == newId && |o.blogs| == |blogs| + 1 && o.blogs[..|blogs|] == blogs
      && o.blogs[|blogs|].id == newId && o.blogs[|blogs|].title == GENERATING && o.blogs[|blogs|].content == ""
      && o.blogs[|blogs|].query == req.query.s && o.blogs[|blogs|].userId == OrNull(req.userId)
      && o.counters == RateLimit.Check(counters, req.userId, ip, now, hourBucket, dayBucket, limiterOk).counters
  {
  }

  /** When creating the record fails, the request has still been counted against the quota. */
  lemma FailedCreateStillUsesQuota(counters: map<RateLimit.WindowKey, RateLimit.Counter>, blogs: seq<Blogs.Blog>,
                                   req: GenerateRequest, patterns: seq<string -> bool>,
                                   ip: Option<string>, userAgent: Option<string>, now: int, hourBucket: int, dayBucket: int,
                                   newId: string)
    requires ValidQuery(req.query) && SafetyVerdict(patterns, req.query.s) == Safe
    requires RateLimit.KeyOf(req.userId, ip, hourBucket, dayBucket).Some?
    requires var key := RateLimit.KeyOf(req.userId, ip, hourBucket, dayBucket).value;
      RateLimit.StoredCount(counters, key) < RateLimit.LimitOf(key)
    ensures var key := RateLimit.KeyOf(req.userId, ip, hourBucket, dayBucket).value;
      var o := Post(counters, blogs, req, patterns, true, ip, userAgent, now, hourBucket, dayBucket, true, newId, false);
      && o.response == Rejected(500, CREATE_FAILED, None) && o.blogs == blogs
      && RateLimit.StoredCount(o.counters, key) == RateLimit.StoredCount(counters, key) + 1
  {
    var rl := RateLimit.Check(counters, req.userId, ip, now, hourBucket, dayBucket, true);
    RateLimit.AllowedCountsOne(counters, req.userId, ip, now, hourBucket, dayBucket);
    assert Post(counters, blogs, req, patterns, true, ip, userAgent, now, hourBucket, dayBucket, true, newId, false)
      == PostOutcome(Rejected(500, CREATE_FAILED, None), rl.counters, blogs);
  }

  /** A request the limiter denies gets 429 with the limiter's message and reset time, and creates nothing. */
  lemma DeniedRequestIsTooMany(counters: map<RateLimit.WindowKey, RateLimit.Counter>, blogs: seq<Blogs.Blog>,
                               req: GenerateRequest, patterns: seq<string -> bool>,
                               ip: Option<string>, userAgent: Option<string>, now: int, hourBucket: int, dayBucket: int,
                               newId: string, writeOk: bool)
    requires ValidQuery(req.query) && SafetyVerdict(patterns, req.query.s) == Safe
    requires RateLimit.KeyOf(req.userId, ip, hourBucket, dayBucket).Some?
    requires var key := RateLimit.KeyOf(req.userId, ip, hourBucket, dayBucket).value;
      RateLimit.StoredCount(counters, key) >= RateLimit.LimitOf(key)
    ensures var o := Post(counters, blogs, req, patterns, true, ip, userAgent, now, hourBucket, dayBucket, true, newId, writeOk);
      && o.response.Rejected? && o.response.status == 429 && o.response.resetAt.Some?
      && o.counters == counters && o.blogs == blogs
  {
    RateLimit.DeniedExactlyAtLimit(counters, req.userId, ip, now, hourBucket, dayBucket);
  }

  // ------------------------------------------------------------ background generation

  /** The system prompt: a chosen text, or the route's built-in default (its wording is not modelled). */
  datatype SystemPrompt = DefaultPrompt | CustomText(text: string)

  /** A Groq error's `status` and `message`, either of which may be missing. */
  datatype GroqError = GroqError(status: Option<int>, message: Option<string>)

  /** The text stream: the chunks it delivered, or the error it failed with. */
  datatype Stream = Streamed(chunks: seq<string>) | StreamFailed(error: GroqError)

  /**
   * Prompt precedence: the request's non-empty `customPrompt`; else, for a
   * signed-in user, the non-empty stored prompt; else the default. The
   * stored prompt is only consulted when it is needed.
   */
  function ChoosePrompt(customPrompt: Option<string>, userId: Option<string>, fetched: Prompts.PromptFetch): SystemPrompt {
    if OrNull(customPrompt).Some? then CustomText(customPrompt.value)
    else if OrNull(userId).Some? && fetched.Fetched? && OrNull(fetched.prompt).Some? then CustomText(fetched.prompt.value)
    else DefaultPrompt
  }

  /** A prompt the user saved through the prompt routes is used when the request brings none. */
  lemma SavedPromptIsUsed(docs: map<string, Prompts.PromptDoc>, userId: string, prompt: string, now: int)
    requires userId != "" && prompt != ""
    ensures ChoosePrompt(None, Some(userId), Prompts.Fetched(Prompts.Lookup(Prompts.Saved(docs, userId, prompt, now), userId)))
      == CustomText(prompt)
  {
    Prompts.ReadAfterSave(docs, userId, prompt, now);
  }

  /** The request's prompt wins over everything, whatever the store holds or whether it can be read. */
  lemma RequestPromptWins(customPrompt: string, userId: Option<string>, fetched: Prompts.PromptFetch)
    requires customPrompt != ""
    ensures ChoosePrompt(Some(customPrompt), userId, fetched) == CustomText(customPrompt)
  {
  }

  /**
   * Without a request prompt, a stored prompt is used exactly when the user
   * is signed in and the lookup returned a non-empty prompt; a failed
   * lookup falls back to the default, and a chosen prompt is never empty.
   */
  lemma StoredPromptPrecedence(customPrompt: Option<string>, userId: Option<string>, fetched: Prompts.PromptFetch)
    requires customPrompt.None? || customPrompt == Some("")
    ensures ChoosePrompt(customPrompt, userId, fetched).CustomText?
      <==> OrNull(userId).Some? && fetched.Fetched? && fetched.prompt.Some? && fetched.prompt.value != ""
    ensures ChoosePrompt(customPrompt, userId, fetched).CustomText? ==> ChoosePrompt(customPrompt, userId, fetched).text == fetched.prompt.value
    ensures fetched.FetchFailed? ==> ChoosePrompt(customPrompt, userId, fetched) == DefaultPrompt
    ensures OrNull(userId).None? ==> ChoosePrompt(customPrompt, userId, fetched) == DefaultPrompt
  {
  }

  /** `error?.message?.toLowerCase() || ''`. */
  function LoweredMessage(e: GroqError): string {
    if e.message.Some? then Lower(e.message.value) else ""
  }

  /** The limit-error keywords searched for in the lower-cased message. */
  const LIMIT_KEYWORDS: seq<string> := ["rate limit", "quota", "overloaded"]

  /** Status 429 or 503, or a message mentioning a rate limit, a quota or overload. */
  predicate IsGroqLimitError(e: GroqError) {
    var m := LoweredMessage(e);
    e.status == Some(429) || e.status == Some(503)
    || Contains(m, "rate limit") || Contains(m, "quota") || Contains(m, "overloaded")
  }

  /**
   * The classification: status 429 and 503 always count; any other status
   * counts exactly when one of the keywords occurs somewhere in the
   * lower-cased message.
   */
  lemma LimitErrorClassification(e: GroqError)
    ensures e.status == Some(429) || e.status == Some(503) ==> IsGroqLimitError(e)
    ensures e.status != Some(429) && e.status != Some(503) ==>
      (IsGroqLimitError(e) <==> exists k, i :: 0 <= k < |LIMIT_KEYWORDS| && OccursAt(LoweredMessage(e), LIMIT_KEYWORDS[k], i))
    ensures e.message.None? && e.status != Some(429) && e.status != Some(503) ==> !IsGroqLimitError(e)
  {
    var m := LoweredMessage(e);
    ContainsIffOccurs(m, "rate limit");
    ContainsIffOccurs(m, "quota");
    ContainsIffOccurs(m, "overloaded");
    if exists k, i :: 0 <= k < |LIMIT_KEYWORDS| && OccursAt(m, LIMIT_KEYWORDS[k], i) {
      var k, i :| 0 <= k < |LIMIT_KEYWORDS| && OccursAt(m, LIMIT_KEYWORDS[k], i);
      assert k == 0 || k == 1 || k == 2;
    }
    if Contains(m, "rate limit") {
      var i :| OccursAt(m, "rate limit", i);
      assert OccursAt(m, LIMIT_KEYWORDS[0], i);
    }
    if Contains(m, "quota") {
      var i :| OccursAt(m, "quota", i);
      assert OccursAt(m, LIMIT_KEYWORDS[1], i);
    }
    if Contains(m, "overloaded") {
      var i :| OccursAt(m, "overloaded", i);
      assert OccursAt(m, LIMIT_KEYWORDS[2], i);
    }
    if e.message.None? {
      assert m == "";
    }
  }

  /** The message's letter case does not matter. */
  lemma LimitErrorIgnoresCase(status: Option<int>, message: string)
    ensures IsGroqLimitError(GroqError(status, Some(message))) == IsGroqLimitError(GroqError(status, Some(Lower(message))))
  {
    LowerIdempotent(message);
  }

  /** The concatenation of the streamed chunks. */
  function Concat(chunks: seq<string>): (r: string)
    decreases |chunks|
  {
    if chunks == [] then "" else Concat(chunks[..|chunks| - 1]) + chunks[|chunks| - 1]
  }

  /** The update `generateBlogContent` ends with for a body text, its title and the image link. */
  function ContentPatch(title: string, content: string, image: Option<string>): Blogs.BlogPatch {
    Blogs.BlogPatch(Some(title), Some(content), Some(image),
                    Some(Blogs.Metadata(|content|, SplitSpaceCount(content), None)))
  }

  /** The update written after a limit error: a notice, zero counts and the error tag; no image is fetched. */
  const UNAVAILABLE_PATCH: Blogs.BlogPatch :=
    Blogs.BlogPatch(Some(UNAVAILABLE_TITLE), Some(UNAVAILABLE_CONTENT), None, Some(Blogs.Metadata(0, 0, Some(LIMIT_ERROR_TAG))))

  /** The update the outer error handler tries when the first update throws. */
  const FAILURE_PATCH: Blogs.BlogPatch :=
    Blogs.BlogPatch(Some(GENERATION_FAILED), Some(FAILURE_CONTENT), None, None)

  /**
   * The first update of the background job: after a limit error the notice;
   * after any other stream error an empty body titled `Generation Failed`;
   * otherwise the streamed text under its extracted title. `image` is the
   * link the image route returned, or `None`.
   */
  function ResultPatch(stream: Stream, image: Option<string>): Blogs.BlogPatch {
    match stream
    case StreamFailed(e) =>
      if IsGroqLimitError(e) then UNAVAILABLE_PATCH else ContentPatch(GENERATION_FAILED, "", image)
    case Streamed(chunks) =>
      var content := Concat(chunks);
      ContentPatch(Utils.TitleFromLines(Split(content, '\n')), content, image)
  }

  /**
   * A successful stream stores the whole streamed text, titled by its first
   * `# ` heading, with metadata describing exactly that text.
   */
  lemma StreamedTextIsStored(chunks: seq<string>, image: Option<string>)
    ensures var p := ResultPatch(Streamed(chunks), image);
      && p.content == Some(Concat(chunks))
      && p.title == Some(Utils.TitleFromLines(Split(Concat(chunks), '\n')))
      && p.imageUrl == Some(image)
      && p.metadata == Some(Blogs.Metadata(|Concat(chunks)|, SplitSpaceCount(Concat(chunks)), None))
  {
  }

  /**
   * Any other stream error stores an empty body; its word count is 1,
   * because splitting the empty text yields one piece.
   */
  lemma OtherErrorStoresEmptyBody(e: GroqError, image: Option<string>)
    requires !IsGroqLimitError(e)
    ensures ResultPatch(StreamFailed(e), image)
      == Blogs.BlogPatch(Some(GENERATION_FAILED), Some(""), Some(image), Some(Blogs.Metadata(0, 1, None)))
  {
  }

  /** A limit error stores the notice and leaves the image link alone. */
  lemma LimitErrorStoresNotice(e: GroqError, image: Option<string>)
    requires IsGroqLimitError(e)
    ensures ResultPatch(StreamFailed(e), image).imageUrl.None?
    ensures ResultPatch(StreamFailed(e), image).metadata == Some(Blogs.Metadata(0, 0, Some(LIMIT_ERROR_TAG)))
  {
  }

  /**
   * The collection after the job's writes. The first update lands when its
   * write succeeds and the blog exists. The failure notice is tried whenever
   * the first call throws: when its write fails, and also when it landed
   * but the read-back failed, in which case the notice covers the result.
   */
  function AfterGeneration(blogs: seq<Blogs.Blog>, blogId: string, first: Blogs.BlogPatch,
                           now: int, writeOk: bool, readOk: bool, fallbackOk: bool): seq<Blogs.Blog>
  {
    if !Blogs.HasId(blogs, blogId) then blogs
    else
      var landed := if writeOk then Blogs.Patched(blogs, blogId, first, now) else blogs;
      if writeOk && readOk then landed
      else if fallbackOk then Blogs.Patched(landed, blogId, FAILURE_PATCH, now)
      else landed
  }

  /**
   * The job never adds or removes a blog and never touches another blog:
   * every position keeps its id, and a blog with another id is unchanged.
   */
  lemma GenerationTouchesOnlyItsBlog(blogs: seq<Blogs.Blog>, blogId: string, first: Blogs.BlogPatch,
                                     now: int, writeOk: bool, readOk: bool, fallbackOk: bool)
    ensures var r := AfterGeneration(blogs, blogId, first, now, writeOk, readOk, fallbackOk);
      && |r| == |blogs|
      && (forall k :: 0 <= k < |r| ==> r[k].id == blogs[k].id)
      && (forall k :: 0 <= k < |r| && blogs[k].id != blogId ==> r[k] == blogs[k])
  {
  }

  /**
   * When the first update lands but its read-back fails and the notice then
   * lands, the blog shows the failure title and text over the generated
   * ones, while the image link and metadata of the first update stay.
   */
  lemma ReadBackFailureShowsNotice(blogs: seq<Blogs.Blog>, blogId: string, first: Blogs.BlogPatch, now: int, k: int)
    requires 0 <= k < |blogs| && blogs[k].id == blogId
    ensures var r := AfterGeneration(blogs, blogId, first, now, true, false, true);
      var done := Blogs.ApplyPatch(blogs[k], first, now);
      r[k] == done.(title := GENERATION_FAILED, content := FAILURE_CONTENT)
  {
  }

  /** The prompt selection at the start of `generateBlogContent`. */
  method PickPrompt(customPrompt: Option<string>, userId: Option<string>, fetched: Prompts.PromptFetch)
    returns (systemPrompt: SystemPrompt)
    ensures systemPrompt == ChoosePrompt(customPrompt, userId, fetched)
  {
    var promptToUse := customPrompt;
    if OrNull(promptToUse).None? && OrNull(userId).Some? {
      if fetched.Fetched? && OrNull(fetched.prompt).Some? {
        promptToUse := fetched.prompt;
      }
    }
    systemPrompt := if OrNull(promptToUse).Some? then CustomText(promptToUse.value) else DefaultPrompt;
  }

  /** The `for await` loop over the stream: appends each chunk's text in order. */
  method CollectChunks(chunks: seq<string>) returns (fullContent: string)
    ensures fullContent == Concat(chunks)
  {
    fullContent := "";
    for i := 0 to |chunks|
      invariant fullContent == Concat(chunks[..i])
    {
      assert chunks[..i + 1][..i] == chunks[..i];
      fullContent := fullContent + chunks[i];
    }
    assert chunks[..|chunks|] == chunks;
  }

  /** The update written after the stream ends or fails. */
  method BuildPatch(stream: Stream, image: Option<string>) returns (patch: Blogs.BlogPatch)
    ensures patch == ResultPatch(stream, image)
  {
    match stream {
      case Streamed(chunks) =>
        var fullContent := CollectChunks(chunks);
        var title := Utils.ExtractTitleFromContent(fullContent);
        patch := ContentPatch(title, fullContent, image);
      case StreamFailed(e) =>
        if IsGroqLimitError(e) {
          patch := UNAVAILABLE_PATCH;
        } else {
          patch := ContentPatch(GENERATION_FAILED, "", image);
        }
    }
  }

  /**
   * `generateBlogContent`: chooses the system prompt, collects the chunks,
   * extracts the title and writes the result, falling back to the failure
   * notice when that call throws. `writeOk` and `fallbackOk` say whether
   * the two updates' writes succeed and `readOk` whether the first one's
   * read-back does; the prompt chosen is returned.
   */
  method GenerateBlogContent(store: Blogs.BlogStore, blogId: string, userId: Option<string>,
                             customPrompt: Option<string>, fetched: Prompts.PromptFetch, stream: Stream,
                             image: Option<string>, now: int, writeOk: bool, readOk: bool, fallbackOk: bool)
    returns (systemPrompt: SystemPrompt)
    requires store.Valid()
    modifies store
    ensures store.Valid()
    ensures systemPrompt == ChoosePrompt(customPrompt, userId, fetched)
    ensures store.blogs == AfterGeneration(old(store.blogs), blogId, ResultPatch(stream, image), now, writeOk, readOk, fallbackOk)
  {
    systemPrompt := PickPrompt(customPrompt, userId, fetched);
    var patch := BuildPatch(stream, image);
    WriteResult(store, blogId, patch, now, writeOk, readOk, fallbackOk);
  }

  /**
   * The final update, and the failure notice when that update throws. The
   * notice's own read-back is passed as succeeding: its outcome is caught
   * and changes nothing stored.
   */
  method WriteResult(store: Blogs.BlogStore, blogId: string, patch: Blogs.BlogPatch, now: int,
                     writeOk: bool, readOk: bool, fallbackOk: bool)
    requires store.Valid()
    modifies store
    ensures store.Valid()
    ensures store.blogs == AfterGeneration(old(store.blogs), blogId, patch, now, writeOk, readOk, fallbackOk)
  {
    var updated := store.UpdateBlog(blogId, patch, now, writeOk, readOk);
    if updated.None? {
      var _ := store.UpdateBlog(blogId, FAILURE_PATCH, now, fallbackOk, true);
    }
  }
}
