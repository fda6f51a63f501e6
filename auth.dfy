/**
 * The sign-in redirect callback (lib/auth.ts): where the browser is sent after signing in
 * or out, given the requested `url` and the site's `baseUrl`.
 */
module AuthRedirect {
  import opened Strings

  /** `callbacks.redirect` as written. */
  function Redirect(url: string, baseUrl: string): (r: string)
    ensures StartsWith(url, baseUrl) ==> r == url
    ensures !StartsWith(url, baseUrl) && StartsWith(url, "/") ==> r == baseUrl + url
    ensures !StartsWith(url, baseUrl) && !StartsWith(url, "/") ==> r == baseUrl + "/home"
  {
    if StartsWith(url, baseUrl) then url
    else if StartsWith(url, "/") then baseUrl + url
    else baseUrl + "/home"
  }

  /** Every result starts with the base url. */
  lemma RedirectStartsWithBase(url: string, baseUrl: string)
    ensures StartsWith(Redirect(url, baseUrl), baseUrl)
  {
    var r := Redirect(url, baseUrl);
    if !StartsWith(url, baseUrl) {
      assert r[..|baseUrl|] == baseUrl;
    }
  }

  /**
   * A url is on the site's origin when it is the base url or continues it with a path,
   * a query or a fragment.
   */
  predicate OnOrigin(url: string, baseUrl: string) {
    StartsWith(url, baseUrl) && (|url| == |baseUrl| || url[|baseUrl|] in "/?#")
  }

  /**
   * Starting with the base url is not being on its origin: a host that merely extends the
   * base url's host passes the check and is redirected to.
   */
  lemma LookAlikeHostPasses(url: string, baseUrl: string)
    requires baseUrl == "https://app.example" && url == "https://app.example.evil.test/"
    ensures Redirect(url, baseUrl) == url
    ensures !OnOrigin(Redirect(url, baseUrl), baseUrl)
  {
    assert url[..|baseUrl|] == baseUrl;
    assert url[|baseUrl|] == '.';
  }

  /** The redirect with an origin check in place of the prefix check. */
  function SameOriginRedirect(url: string, baseUrl: string): (r: string)
    ensures OnOrigin(url, baseUrl) ==> r == url
    ensures !OnOrigin(url, baseUrl) && StartsWith(url, "/") ==> r == baseUrl + url
    ensures !OnOrigin(url, baseUrl) && !StartsWith(url, "/") ==> r == baseUrl + "/home"
  {
    if OnOrigin(url, baseUrl) then url
    else if StartsWith(url, "/") then baseUrl + url
    else baseUrl + "/home"
  }

  /** Every result of the corrected redirect stays on the site's origin. */
  lemma SameOriginRedirectStays(url: string, baseUrl: string)
    ensures OnOrigin(SameOriginRedirect(url, baseUrl), baseUrl)
  {
    var r := SameOriginRedirect(url, baseUrl);
    if !OnOrigin(url, baseUrl) {
      assert r[..|baseUrl|] == baseUrl;
      assert r[|baseUrl|] == '/';
    }
  }

  /**
   * The two redirects agree on every url that is on the origin and on every url the
   * written prefix check refuses; they differ only where that check is fooled.
   */
  lemma RedirectsAgreeOnOrigin(url: string, baseUrl: string)
    requires OnOrigin(url, baseUrl) || !StartsWith(url, baseUrl)
    ensures Redirect(url, baseUrl) == SameOriginRedirect(url, baseUrl)
  {
  }
}
