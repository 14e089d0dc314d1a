/**
 * `getCountryByIp` (backend/auth/ip-country.ts): pick the client address
 * from the proxy headers, ask the ip-api.com geolocation service about it,
 * and answer with a country, falling back to the United States whenever the
 * service cannot say. The service call is the function parameter `lookup`.
 */
module IpCountry {
  import opened Wrappers
  import opened Text

  /** The three optional request headers. */
  datatype Headers = Headers(forwardedFor: Option<string>, realIp: Option<string>, remoteAddr: Option<string>)

  /** The reply body: not JSON, the JSON `null`, or an object with the requested fields. */
  datatype LookupBody =
    | Unparseable
    | NullJson
    | Json(status: Option<string>, countryCode: Option<string>, country: Option<string>)

  /** What `fetch` gives: a rejection, or a status class and a body. */
  datatype LookupReply = FetchFailed | Reply(ok: bool, body: LookupBody)

  datatype IpCountryResponse = IpCountryResponse(countryCode: string, countryName: string, ip: string)

  const DefaultCode := "US"
  const DefaultName := "United States"
  const FallbackIp := "8.8.8.8"
  const ErrorIp := "0.0.0.0"

  /** `a || b` for an optional string. */
  function OrElse(a: Option<string>, b: string): (r: string)
    ensures a.Some? && a.value != "" ==> r == a.value
    ensures a.None? || a.value == "" ==> r == b
  {
    if a.Some? && a.value != "" then a.value else b
  }

  /** `forwardedFor?.split(',')[0]?.trim()`: the first address of the chain, trimmed. */
  function FirstForwarded(forwardedFor: Option<string>): (r: string)
    ensures ',' !in r
    ensures r != [] ==> !IsJsWhitespace(r[0]) && !IsJsWhitespace(r[|r| - 1])
  {
    match forwardedFor
    case None => ""
    case Some(f) =>
      var first := Split(f, ',')[0];
      var t := Trim(first);
      assert forall k :: 0 <= k < |t| ==> t[k] in first by {
        var u := TrimStart(first);
        forall k | 0 <= k < |t| ensures t[k] in first {
          assert t[k] == u[k] == first[|first| - |u| + k];
        }
      }
      t
  }

  /** Lines 22-25: the first truthy of the forwarded address, `X-Real-IP`, `X-Remote-Addr` and 8.8.8.8. */
  function ClientIp(h: Headers): string {
    OrElse(Some(FirstForwarded(h.forwardedFor)), OrElse(h.realIp, OrElse(h.remoteAddr, FallbackIp)))
  }

  /** Lines 38-65, with the catch of lines 66-77 for every failure (a `null` body throws a `TypeError`). */
  function Answer(clientIp: string, reply: LookupReply): IpCountryResponse {
    match reply
    case FetchFailed => IpCountryResponse(DefaultCode, DefaultName, ErrorIp)
    case Reply(ok, body) =>
      if !ok then IpCountryResponse(DefaultCode, DefaultName, ErrorIp)
      else match body
        case Unparseable => IpCountryResponse(DefaultCode, DefaultName, ErrorIp)
        case NullJson => IpCountryResponse(DefaultCode, DefaultName, ErrorIp)
        case Json(status, code, name) =>
          if status != Some("success") then IpCountryResponse(DefaultCode, DefaultName, clientIp)
          else IpCountryResponse(OrElse(code, DefaultCode), OrElse(name, DefaultName), clientIp)
  }

  /** The endpoint: it never throws, every failure is answered. */
  function GetCountryByIp(h: Headers, lookup: string -> LookupReply): IpCountryResponse {
    var ip := ClientIp(h);
    Answer(ip, lookup(ip))
  }

  /** The chosen address is never empty, and comes from the first header that yields a non-empty one. */
  lemma ClientIpChoice(h: Headers)
    ensures ClientIp(h) != ""
    ensures FirstForwarded(h.forwardedFor) != "" ==> ClientIp(h) == FirstForwarded(h.forwardedFor)
    ensures FirstForwarded(h.forwardedFor) == "" && h.realIp.Some? && h.realIp.value != "" ==>
      ClientIp(h) == h.realIp.value
    ensures (FirstForwarded(h.forwardedFor) == "" && (h.realIp.None? || h.realIp.value == "") &&
      h.remoteAddr.Some? && h.remoteAddr.value != "") ==> ClientIp(h) == h.remoteAddr.value
    ensures (FirstForwarded(h.forwardedFor) == "" && (h.realIp.None? || h.realIp.value == "") &&
      (h.remoteAddr.None? || h.remoteAddr.value == "")) ==> ClientIp(h) == FallbackIp
  {
  }

  /** Only the first entry of a forwarded chain counts: anything after its first comma is ignored. */
  lemma ForwardedFirstEntry(a: string, rest: string)
    requires ',' !in a
    ensures FirstForwarded(Some(a + "," + rest)) == Trim(a)
  {
    assert a + "," + rest == a + [','] + rest;
    SplitHead(a, ',', rest);
  }

  /**
   * The answer always names a country (a non-empty code and name). Its
   * address is the client's, except after a failure (no reply, an error
   * status, a body that is not a JSON object), where it is 0.0.0.0.
   */
  lemma AnswerShape(clientIp: string, reply: LookupReply)
    ensures var r := Answer(clientIp, reply);
      r.countryCode != "" && r.countryName != "" &&
      (if reply.Reply? && reply.ok && reply.body.Json? then r.ip == clientIp else r.ip == ErrorIp)
  {
  }

  /**
   * The service's country is used exactly when it reports success; then each
   * field it leaves empty is replaced by the United States default;
   * otherwise the answer is the United States default.
   */
  lemma ServiceCountryUsed(clientIp: string, reply: LookupReply)
    ensures var r := Answer(clientIp, reply);
      if reply.Reply? && reply.ok && reply.body.Json? && reply.body.status == Some("success") then
        r == IpCountryResponse(OrElse(reply.body.countryCode, DefaultCode), OrElse(reply.body.country, DefaultName), clientIp)
      else
        r.countryCode == DefaultCode && r.countryName == DefaultName
  {
  }

  /** The service is asked about the chosen client address and nothing else. */
  lemma AsksAboutClientIp(h: Headers, l1: string -> LookupReply, l2: string -> LookupReply)
    requires l1(ClientIp(h)) == l2(ClientIp(h))
    ensures GetCountryByIp(h, l1) == GetCountryByIp(h, l2)
  {
  }
}
