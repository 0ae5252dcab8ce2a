/**
 * The store-URL normalisation every feed generator applies at construction
 * (`BaseFeedGenerator._validate_url` in `shopify_to_feeds/feeds/base.py`).
 */
module Base {
  import opened Text
  import opened Urls

  /**
   * `_validate_url(url)`: `https://` is put in front unless the URL already
   * starts with `http://` or `https://`, then trailing slashes are stripped.
   * The result starts with a scheme and its colon, never ends with `/`,
   * and is the prefixed URL less a run of slashes.
   */
  function ValidateUrl(url: string): (r: string)
    ensures r != [] && r[|r| - 1] != '/'
    ensures StartsWith(r, "http:") || StartsWith(r, "https:")
    ensures HasScheme(url) ==> StartsWith(url, r) && forall i :: |r| <= i < |url| ==> url[i] == '/'
    ensures !HasScheme(url) ==> var u := "https://" + url;
      StartsWith(u, r) && forall i :: |r| <= i < |u| ==> u[i] == '/'
  {
    var u := if HasScheme(url) then url else "https://" + url;
    var r := RStripSlashes(u);
    SchemeKept(u, r);
    r
  }

  /** Stripping slashes from a URL that starts with a scheme keeps the scheme and its colon. */
  lemma SchemeKept(u: string, r: string)
    requires StartsWith(u, "http://") || StartsWith(u, "https://")
    requires StartsWith(u, r) && forall i :: |r| <= i < |u| ==> u[i] == '/'
    ensures r != [] && (StartsWith(r, "http:") || StartsWith(r, "https:"))
  {
    if StartsWith(u, "http://") {
      assert u[4] == ':';
      assert |r| > 4;
      assert r[..5] == u[..5];
    } else {
      assert u[5] == ':';
      assert |r| > 5;
      assert r[..6] == u[..6];
    }
  }

  /** Normalising again changes nothing once the result still starts with `http://` or `https://`. */
  lemma ValidateUrlIdempotent(url: string)
    requires HasScheme(ValidateUrl(url))
    ensures ValidateUrl(ValidateUrl(url)) == ValidateUrl(url)
  {
    var r := ValidateUrl(url);
    assert TrimRight(r, IsSlash) == r;
  }

  /** `https://` loses both its slashes, and normalising that again prefixes a second scheme. */
  lemma ValidateUrlNotIdempotent()
    ensures ValidateUrl("https://") == "https:"
    ensures ValidateUrl("https:") == "https://https:"
  {
    assert HasScheme("https://");
    assert TrimRight("https:/", IsSlash) == "https:";
    assert TrimRight("https://", IsSlash) == TrimRight("https:/", IsSlash);
    assert !StartsWith("https:", "https://") && !StartsWith("https:", "http://");
    var u := "https://" + "https:";
    assert u[|u| - 1] == ':';
  }

  /**
   * Stripping slashes from `scheme://host` + a path, with a non-empty host,
   * keeps the scheme and host whole; what is left of the path is empty or
   * starts with `/`, `?` or `#`.
   */
  lemma StrippedOrigin(scheme: string, host: string, path: string)
    requires host != [] && forall i :: 0 <= i < |host| ==> !IsAuthorityEnd(host[i])
    requires path == [] || IsAuthorityEnd(path[0])
    ensures var k := |scheme| + 3 + |host|; var r := RStripSlashes(scheme + "://" + host + path);
      k <= |r| && r == scheme + "://" + host + r[k..] && (r[k..] == [] || IsAuthorityEnd(r[k..][0]))
  {
    var u := scheme + "://" + host + path;
    var r := RStripSlashes(u);
    var k := |scheme| + 3 + |host|;
    assert u[k - 1] == host[|host| - 1];
    assert |r| >= k;
    assert u[..k] == scheme + "://" + host;
    assert r == u[..|r|];
    assert r == u[..k] + r[k..];
    assert r[k..] == path[..|r| - k];
  }

  /**
   * A store URL with a scheme: product links keep its scheme and host,
   * whatever path, query or trailing slashes follow the host.
   */
  lemma JoinValidated(scheme: string, host: string, path: string, ref: string)
    requires scheme == "http" || scheme == "https"
    requires host != [] && forall i :: 0 <= i < |host| ==> !IsAuthorityEnd(host[i])
    requires path == [] || IsAuthorityEnd(path[0])
    requires StartsWith(ref, "/") && !StartsWith(ref, "//")
    ensures UrlJoin(ValidateUrl(scheme + "://" + host + path), ref) == scheme + "://" + host + ref
  {
    var u := scheme + "://" + host + path;
    assert StartsWith(u, scheme + "://");
    assert HasScheme(u);
    StrippedOrigin(scheme, host, path);
    var r := RStripSlashes(u);
    JoinOrigin(scheme, host, r[|scheme| + 3 + |host|..], ref);
  }

  /** A bare host and path: product links go to `https://` and the host. */
  lemma JoinValidatedBare(host: string, path: string, ref: string)
    requires host != [] && forall i :: 0 <= i < |host| ==> !IsAuthorityEnd(host[i])
    requires path == [] || IsAuthorityEnd(path[0])
    requires !HasScheme(host + path)
    requires StartsWith(ref, "/") && !StartsWith(ref, "//")
    ensures UrlJoin(ValidateUrl(host + path), ref) == "https" + "://" + host + ref
  {
    var u := "https" + "://" + host + path;
    assert "https://" + (host + path) == u;
    assert ValidateUrl(host + path) == RStripSlashes(u);
    StrippedOrigin("https", host, path);
    var r := RStripSlashes(u);
    var rest := r[8 + |host|..];
    assert r == "https" + "://" + host + rest;
    JoinOrigin("https", host, rest, ref);
    assert UrlJoin(r, ref) == "https" + "://" + host + ref;
  }
}
