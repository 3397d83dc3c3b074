/**
 * The OAuth callback route: every request ends in a redirect, to the
 * requested page after a successful code exchange and to the sign-in page,
 * with an error kind and its details, otherwise.
 */
module AuthCallback {
  import opened Wrappers
  import opened Strings
  import opened WebEncoding

  /** The query parameters of the callback URL, absent ones as `None`. */
  datatype Query = Query(code: Option<string>, next: Option<string>, error: Option<string>)

  /** How exchanging the code for a session ended; a failure carries its message when it is an `Error`. */
  datatype Exchange = Exchanged | Failed(message: Option<string>)

  const DefaultNext := "/dashboard"
  const LoginError := "/login?error="
  const OAuthErrorPrefix := LoginError + "oauth_error&details="
  const AuthErrorPrefix := LoginError + "auth_error&details="
  const UnknownError := "Unknown error"
  const InvalidRequest := LoginError + "invalid_request&details=No authentication code or error received"

  /** `searchParams.get('next') ?? '/dashboard'`: only an absent parameter falls back. */
  function Next(q: Query): (r: string)
    ensures q.next.Some? ==> r == q.next.value
    ensures q.next.None? ==> r == DefaultNext
  {
    match q.next
    case Some(n) => n
    case None => DefaultNext
  }

  /** The message reported for a failed exchange. */
  function FailureDetails(x: Exchange): string
    requires x.Failed?
  {
    match x.message
    case Some(m) => m
    case None => UnknownError
  }

  /**
   * The address the callback redirects to, for a request from `origin`; the
   * exchange result only matters when there is a code and no error.
   */
  function Callback(origin: string, q: Query, exchange: Exchange): (r: string)
    ensures Truthy(q.error) ==> r == origin + OAuthErrorPrefix + EncodeUriComponent(q.error.value)
    ensures !Truthy(q.error) && Truthy(q.code) && exchange.Exchanged? ==> r == origin + Next(q)
    ensures !Truthy(q.error) && Truthy(q.code) && exchange.Failed? ==>
      r == origin + AuthErrorPrefix + EncodeUriComponent(FailureDetails(exchange))
    ensures !Truthy(q.error) && !Truthy(q.code) ==> r == origin + InvalidRequest
  {
    if Truthy(q.error) then origin + OAuthErrorPrefix + EncodeUriComponent(q.error.value)
    else if Truthy(q.code) then
      match exchange
      case Exchanged => origin + Next(q)
      case Failed(_) => origin + AuthErrorPrefix + EncodeUriComponent(FailureDetails(exchange))
    else origin + InvalidRequest
  }

  /** An error from the provider wins: neither the code nor the exchange changes the redirect. */
  lemma ErrorTakesPrecedence(origin: string, q: Query, exchange: Exchange, code: Option<string>, other: Exchange)
    requires Truthy(q.error)
    ensures Callback(origin, q, exchange) == Callback(origin, q.(code := code), other)
  {
  }

  /** A successful sign-in without `next` lands on the dashboard; an empty `next` lands on the origin itself. */
  lemma NextDefaults(origin: string, code: string)
    requires code != ""
    ensures Callback(origin, Query(Some(code), None, None), Exchanged) == origin + "/dashboard"
    ensures Callback(origin, Query(Some(code), Some(""), None), Exchanged) == origin
  {
  }

  /** `a + (b + c)` starts with `a + b`. */
  lemma PrefixKept(a: string, b: string, c: string)
    ensures StartsWith(a + (b + c), a + b)
  {
    assert (a + (b + c))[..|a + b|] == a + b;
  }

  /**
   * Every outcome other than a successful exchange is the sign-in page with
   * an error, and the provider's error placed after it cannot add a query
   * parameter or a fragment.
   */
  lemma FailuresGoToLogin(origin: string, q: Query, exchange: Exchange)
    requires !(Truthy(q.code) && !Truthy(q.error) && exchange.Exchanged?)
    ensures StartsWith(Callback(origin, q, exchange), origin + LoginError)
    ensures Truthy(q.error) ==>
      var details := Callback(origin, q, exchange)[|origin + OAuthErrorPrefix|..];
      '&' !in details && '#' !in details
  {
    var r := Callback(origin, q, exchange);
    if Truthy(q.error) {
      var details := EncodeUriComponent(q.error.value);
      PrefixKept(origin, LoginError, "oauth_error&details=" + details);
      assert r == origin + OAuthErrorPrefix + details;
      assert r[|origin + OAuthErrorPrefix|..] == details;
      assert forall k :: 0 <= k < |details| ==> UriSafe(details[k]);
    } else if Truthy(q.code) {
      PrefixKept(origin, LoginError, "auth_error&details=" + EncodeUriComponent(FailureDetails(exchange)));
    } else {
      PrefixKept(origin, LoginError, "invalid_request&details=No authentication code or error received");
    }
  }
}
