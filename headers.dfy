/**
 * `getIpAddress()`, written out identically in app/api/generate/route.ts,
 * lib/rate-limit.ts and app/api/claim-blogs/route.ts: the client address
 * from the `x-forwarded-for` header, else the `x-real-ip` header, else none.
 */
module Headers {
  import opened Wrappers
  import opened Text

  /**
   * `getIpAddress()` over the `x-forwarded-for` and `x-real-ip` header
   * values; `headersOk` is false when reading the headers throws.
   */
  function GetIpAddress(forwarded: Option<string>, realIp: Option<string>, headersOk: bool): Option<string> {
    if !headersOk then None
    else if forwarded.Some? && forwarded.value != "" then Some(Trim(Split(forwarded.value, ',')[0]))
    else if realIp.Some? && realIp.value != "" then realIp
    else None
  }

  /** A non-empty `x-forwarded-for` wins: the address is its first comma-separated hop, trimmed. */
  lemma ForwardedAddressIsFirstHop(forwarded: string, realIp: Option<string>) returns (hop: string)
    requires forwarded != ""
    ensures |hop| <= |forwarded| && hop == forwarded[..|hop|] && ',' !in hop
    ensures |hop| == |forwarded| || forwarded[|hop|] == ','
    ensures GetIpAddress(Some(forwarded), realIp, true) == Some(Trim(hop))
  {
    hop := Split(forwarded, ',')[0];
    SplitFirstIsPrefix(forwarded, ',');
  }

  /** Without a usable `x-forwarded-for`, a non-empty `x-real-ip` is taken as is; otherwise there is no address. */
  lemma RealIpIsTheFallback(forwarded: Option<string>, realIp: Option<string>)
    requires forwarded.None? || forwarded == Some("")
    ensures realIp.Some? && realIp.value != "" ==> GetIpAddress(forwarded, realIp, true) == realIp
    ensures realIp.None? || realIp == Some("") ==> GetIpAddress(forwarded, realIp, true).None?
    ensures GetIpAddress(forwarded, realIp, false).None?
  {
  }
}
