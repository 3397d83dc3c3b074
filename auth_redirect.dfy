/**
 * The address the OAuth provider is told to return to after a Google
 * sign-in: the site's own origin, given a protocol when it lacks one and
 * stripped of one trailing slash, followed by the callback route.
 */
module AuthRedirect {
  import opened Wrappers
  import opened Strings

  /** Where the sign-in runs: in a browser with its page origin, or on the server with its two environment settings. */
  datatype Runtime =
    | Browser(origin: string)
    | Server(siteUrl: Option<string>, vercelUrl: Option<string>)

  const LocalSite := "http://localhost:3000"
  const CallbackRoute := "/auth/callback"

  /**
   * The site address before it is cleaned: the browser's origin; on the
   * server the site setting, else the deployment host over https, else the
   * local development address.
   */
  function SiteUrl(rt: Runtime): (r: string)
    ensures rt.Browser? ==> r == rt.origin
    ensures rt.Server? && Truthy(rt.siteUrl) ==> r == rt.siteUrl.value
    ensures rt.Server? && !Truthy(rt.siteUrl) && Truthy(rt.vercelUrl) ==> r == "https://" + rt.vercelUrl.value
    ensures rt.Server? && !Truthy(rt.siteUrl) && !Truthy(rt.vercelUrl) ==> r == LocalSite
    ensures rt.Server? ==> r != ""
  {
    match rt
    case Browser(origin) => origin
    case Server(site, vercel) =>
      if Truthy(site) then site.value
      else if Truthy(vercel) then "https://" + vercel.value
      else LocalSite
  }

  /** An address that does not start with "http" is given "https://". */
  function WithProtocol(url: string): (r: string)
    ensures StartsWith(r, "http")
    ensures StartsWith(url, "http") ==> r == url
    ensures !StartsWith(url, "http") ==> r == "https://" + url
  {
    if StartsWith(url, "http") then url else "https://" + url
  }

  /** `url.endsWith('/') ? url.slice(0, -1) : url`: one trailing slash is removed. */
  function DropTrailingSlash(url: string): (r: string)
    ensures EndsWith(url, "/") ==> r + "/" == url
    ensures !EndsWith(url, "/") ==> r == url
  {
    if EndsWith(url, "/") then url[..|url| - 1] else url
  }

  /** The `redirectTo` address handed to the provider. */
  function RedirectUrl(rt: Runtime): (r: string)
    ensures StartsWith(r, "http") && EndsWith(r, CallbackRoute)
  {
    var url := WithProtocol(SiteUrl(rt));
    var clean := DropTrailingSlash(url);
    assert StartsWith(clean, "http") by {
      if EndsWith(url, "/") {
        assert url != "http";
        assert |clean| >= 4 && clean[..4] == url[..4];
      }
    }
    var r := clean + CallbackRoute;
    assert r[..4] == clean[..4];
    assert r[|r| - |CallbackRoute|..] == CallbackRoute;
    r
  }

  /** An address that already has a protocol and no trailing slash is used as it is. */
  lemma CleanSiteKept(rt: Runtime)
    requires StartsWith(SiteUrl(rt), "http") && !EndsWith(SiteUrl(rt), "/")
    ensures RedirectUrl(rt) == SiteUrl(rt) + CallbackRoute
  {
  }

  /** Exactly one trailing slash is removed: a site given with one reaches the same callback as without it. */
  lemma TrailingSlashIgnored(origin: string)
    requires StartsWith(origin, "http") && !EndsWith(origin, "/")
    ensures RedirectUrl(Browser(origin + "/")) == origin + CallbackRoute
  {
    var url := origin + "/";
    assert url[..4] == origin[..4];
    assert url[..|url| - 1] == origin;
  }

  /** A bare host name is reached over https. */
  lemma BareHostGetsHttps(host: string)
    requires host != "" && !StartsWith(host, "http") && !EndsWith(host, "/")
    ensures RedirectUrl(Browser(host)) == "https://" + host + CallbackRoute
  {
    var url := "https://" + host;
    assert url[|url| - 1] == host[|host| - 1];
  }

  /** A server without settings sends the provider back to the local development address. */
  lemma LocalFallback()
    ensures RedirectUrl(Server(None, None)) == "http://localhost:3000/auth/callback"
  {
    assert StartsWith(LocalSite, "http");
    assert LocalSite[|LocalSite| - 1] == '0';
  }

  /** A server with only a deployment host sends the provider back to that host over https. */
  lemma DeploymentHost(host: string)
    requires host != "" && !EndsWith(host, "/")
    ensures RedirectUrl(Server(None, Some(host))) == "https://" + host + CallbackRoute
  {
    var url := "https://" + host;
    assert url[..4] == "http";
    assert url[|url| - 1] == host[|host| - 1];
  }
}
