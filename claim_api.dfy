/**
 * The route app/api/claim-blogs/route.ts, called right after sign-up: it
 * hands every anonymous blog created from the caller's address to the new
 * account and reports how many it claimed.
 */
module ClaimApi {
  import opened Wrappers
  import opened Text
  import Js
  import Headers
  import Blogs

  const USER_REQUIRED: string := "userId is required"
  const NO_ADDRESS: string := "Unable to determine IP address"
  const CLAIM_FAILED: string := "Failed to claim blogs"
  const NOTHING_CLAIMED: string := "No unsigned blogs found to claim"
  const CLAIMED_PREFIX: string := "Successfully claimed "
  const CLAIMED_SUFFIX: string := " blog(s) created before sign-up!"

  datatype ClaimResponse =
    | Claimed(claimedCount: nat, message: string)
    | Refused(status: int, error: string, count: Option<nat>)

  datatype Outcome = Outcome(response: ClaimResponse, blogs: seq<Blogs.Blog>)

  /** The success message: names the count when something was claimed. */
  function ClaimMessage(count: nat): string {
    if count > 0 then CLAIMED_PREFIX + Js.IntToString(count) + CLAIMED_SUFFIX else NOTHING_CLAIMED
  }

  /**
   * `POST {userId}` with the request's `x-forwarded-for` and `x-real-ip`
   * headers; `storeOk` is false when the claim throws.
   */
  function Claim(blogs: seq<Blogs.Blog>, userId: Option<string>, forwarded: Option<string>, realIp: Option<string>,
                 headersOk: bool, now: int, storeOk: bool): Outcome
  {
    if userId.None? || userId.value == "" then Outcome(Refused(400, USER_REQUIRED, None), blogs)
    else
      var ip := Headers.GetIpAddress(forwarded, realIp, headersOk);
      if ip.None? || ip.value == "" then Outcome(Refused(400, NO_ADDRESS, Some(0)), blogs)
      else if !storeOk then Outcome(Refused(500, CLAIM_FAILED, None), blogs)
      else
        var count := Blogs.CountClaimable(blogs, ip.value);
        Outcome(Claimed(count, ClaimMessage(count)), Blogs.ClaimAll(blogs, userId.value, ip.value, now))
  }

  /** A missing user id is refused with 400 whatever the headers say, and nothing is claimed. */
  lemma MissingUserIsRefusedFirst(blogs: seq<Blogs.Blog>, forwarded: Option<string>, realIp: Option<string>,
                                  headersOk: bool, now: int, storeOk: bool)
    ensures Claim(blogs, None, forwarded, realIp, headersOk, now, storeOk) == Outcome(Refused(400, USER_REQUIRED, None), blogs)
    ensures Claim(blogs, Some(""), forwarded, realIp, headersOk, now, storeOk) == Outcome(Refused(400, USER_REQUIRED, None), blogs)
  {
  }

  /**
   * For a signed-in caller the answer is 400 with a count of 0 exactly when
   * the headers yield no address or an empty one; the collection is then
   * unchanged. Unreadable headers, and headers that are both missing or
   * empty, are such cases.
   */
  lemma NoAddressClaimsNothing(blogs: seq<Blogs.Blog>, userId: string, forwarded: Option<string>, realIp: Option<string>,
                               headersOk: bool, now: int, storeOk: bool)
    requires userId != ""
    ensures var ip := Headers.GetIpAddress(forwarded, realIp, headersOk);
      var o := Claim(blogs, Some(userId), forwarded, realIp, headersOk, now, storeOk);
      && (o.response == Refused(400, NO_ADDRESS, Some(0)) <==> ip.None? || ip == Some(""))
      && (ip.None? || ip == Some("") ==> o.blogs == blogs)
    ensures var o := Claim(blogs, Some(userId), forwarded, realIp, headersOk, now, storeOk);
      (!headersOk || ((forwarded.None? || forwarded == Some("")) && (realIp.None? || realIp == Some(""))))
        ==> o == Outcome(Refused(400, NO_ADDRESS, Some(0)), blogs)
  {
  }

  /**
   * On success the reported count is the number of blogs the claim gave the
   * user: their owned count grows by exactly that much, and nothing
   * claimable from that address is left.
   */
  lemma ReportedCountIsTransferred(blogs: seq<Blogs.Blog>, userId: string, forwarded: Option<string>, realIp: Option<string>,
                                   headersOk: bool, now: int)
    requires Claim(blogs, Some(userId), forwarded, realIp, headersOk, now, true).response.Claimed?
    ensures var o := Claim(blogs, Some(userId), forwarded, realIp, headersOk, now, true);
      var ip := Headers.GetIpAddress(forwarded, realIp, headersOk).value;
      && Blogs.CountOwned(o.blogs, userId) == Blogs.CountOwned(blogs, userId) + o.response.claimedCount
      && Blogs.CountClaimable(o.blogs, ip) == 0
  {
    var ip := Headers.GetIpAddress(forwarded, realIp, headersOk).value;
    Blogs.ClaimTransfersCount(blogs, userId, ip, now);
    Blogs.ClaimLeavesNothing(blogs, userId, ip, now);
  }

  /** The message takes the success form exactly when something was claimed, and then names the count. */
  lemma MessageFollowsCount(count: nat) returns (digits: string)
    ensures count > 0 <==> StartsWith(ClaimMessage(count), CLAIMED_PREFIX)
    ensures count > 0 ==> ClaimMessage(count) == CLAIMED_PREFIX + digits + CLAIMED_SUFFIX
    ensures count > 0 ==> forall i :: 0 <= i < |digits| ==> '0' <= digits[i] <= '9'
    ensures count > 0 ==> Js.DigitsValue(digits) == count
  {
    digits := Js.NatToString(count);
    Js.DigitsRoundTrip(count);
    if count == 0 {
      assert ClaimMessage(count) == NOTHING_CLAIMED;
      assert NOTHING_CLAIMED[0] != CLAIMED_PREFIX[0];
    } else {
      assert (CLAIMED_PREFIX + digits + CLAIMED_SUFFIX)[..|CLAIMED_PREFIX|] == CLAIMED_PREFIX;
    }
  }

  /** `POST` against the blog store. */
  method HandleClaim(store: Blogs.BlogStore, userId: Option<string>, forwarded: Option<string>, realIp: Option<string>,
                     headersOk: bool, now: int, storeOk: bool) returns (r: ClaimResponse)
    requires store.Valid()
    modifies store
    ensures store.Valid()
    ensures Outcome(r, store.blogs) == Claim(old(store.blogs), userId, forwarded, realIp, headersOk, now, storeOk)
  {
    if userId.None? || userId.value == "" {
      return Refused(400, USER_REQUIRED, None);
    }
    var ipAddress := Headers.GetIpAddress(forwarded, realIp, headersOk);
    if ipAddress.None? || ipAddress.value == "" {
      return Refused(400, NO_ADDRESS, Some(0));
    }
    var claimed := store.ClaimUnsignedBlogs(userId.value, ipAddress, now, storeOk);
    if claimed.None? {
      return Refused(500, CLAIM_FAILED, None);
    }
    return Claimed(claimed.value, ClaimMessage(claimed.value));
  }
}
