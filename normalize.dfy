/**
 * The URL canonicaliser of app/services/normalize.py. A URL is given by
 * the five parts `urlsplit` produces (RFC 3986 section 3: scheme,
 * authority, path, query, fragment); the splitting itself is taken as
 * given.
 */
module Normalize {
  import opened PyStr

  datatype UrlParts = UrlParts(scheme: string, netloc: string, path: string, query: string, fragment: string)

  predicate EndsWithSlash(p: string) {
    p != [] && p[|p| - 1] == '/'
  }

  /**
   * `canonicalize_url` on the split parts: lower-case scheme and host,
   * empty path becomes "/", one trailing slash is dropped from any other
   * path, the query is kept and the fragment is dropped.
   */
  function Canonicalize(u: UrlParts): (c: UrlParts)
    ensures c.scheme == Lower(u.scheme) && c.netloc == Lower(u.netloc)
    ensures c.query == u.query && c.fragment == ""
    ensures u.path == "" || u.path == "/" ==> c.path == "/"
    ensures u.path != "/" && EndsWithSlash(u.path) ==> c.path + "/" == u.path
    ensures !EndsWithSlash(u.path) && u.path != "" ==> c.path == u.path
    ensures c.path != ""
  {
    var path := if u.path == "" then "/" else u.path;
    var path' := if path != "/" && EndsWithSlash(path) then path[..|path| - 1] else path;
    UrlParts(Lower(u.scheme), Lower(u.netloc), path', u.query, "")
  }

  predicate EndsWith(s: string, t: string) {
    |t| <= |s| && s[|s| - |t|..] == t
  }

  /** `urlunsplit` on the five parts. */
  function Unsplit(u: UrlParts): string {
    Head(u) + Tail(u)
  }

  /** "scheme:" when there is a scheme, then the hierarchical part. */
  function Head(u: UrlParts): string {
    (if u.scheme != "" then u.scheme + ":" else "") + Hierarchy(u)
  }

  /** "//host" when there is a host, followed by the path, made absolute when there is a host. */
  function Hierarchy(u: UrlParts): string {
    var path := if u.netloc != "" && u.path != "" && u.path[0] != '/' then "/" + u.path else u.path;
    if u.netloc != "" then "//" + u.netloc + path else path
  }

  /** "?query" and "#fragment", each when non-empty. */
  function Tail(u: UrlParts): string {
    (if u.query != "" then "?" + u.query else "") + (if u.fragment != "" then "#" + u.fragment else "")
  }

  /** `canonicalize_url(url)` as a string. */
  function CanonicalizeUrl(u: UrlParts): string {
    Unsplit(Canonicalize(u))
  }

  /** Putting text in front keeps a suffix. */
  lemma EndsWithAppend(a: string, s: string, t: string)
    requires EndsWith(s, t)
    ensures EndsWith(a + s, t)
  {
    assert (a + s)[|a + s| - |t|..] == s[|s| - |t|..];
  }

  /** The hierarchical part starts with "//host/" when there is a host and a path, and ends with the path. */
  lemma HierarchyShape(u: UrlParts)
    ensures EndsWith(Hierarchy(u), u.path)
    ensures u.netloc != "" ==> "//" + u.netloc <= Hierarchy(u)
    ensures u.netloc != "" && u.path != "" ==> |Hierarchy(u)| > 2 + |u.netloc| && Hierarchy(u)[2 + |u.netloc|] == '/'
  {
    var path := if u.netloc != "" && u.path != "" && u.path[0] != '/' then "/" + u.path else u.path;
    assert EndsWith(u.path, u.path);
    if path != u.path {
      EndsWithAppend("/", u.path, u.path);
    }
    if u.netloc != "" {
      EndsWithAppend("//" + u.netloc, path, u.path);
    }
  }

  /** The part before the query starts with "scheme:" and ends with the path. */
  lemma HeadShape(u: UrlParts)
    ensures u.scheme != "" ==> u.scheme + ":" <= Head(u)
    ensures u.scheme != "" && u.netloc != "" ==> u.scheme + "://" + u.netloc <= Head(u)
    ensures u.scheme != "" && u.netloc != "" && u.path != "" ==>
              |Head(u)| > |u.scheme| + 3 + |u.netloc| && Head(u)[|u.scheme| + 3 + |u.netloc|] == '/'
    ensures EndsWith(Head(u), u.path)
  {
    HierarchyShape(u);
    var scheme := if u.scheme != "" then u.scheme + ":" else "";
    EndsWithAppend(scheme, Hierarchy(u), u.path);
    if u.scheme != "" && u.netloc != "" {
      assert u.scheme + "://" + u.netloc == scheme + ("//" + u.netloc);
    }
  }

  /** The query and fragment part ends with the fragment, else with the query, else is empty. */
  lemma TailShape(u: UrlParts)
    ensures u.fragment != "" ==> EndsWith(Tail(u), "#" + u.fragment)
    ensures u.fragment == "" && u.query != "" ==> EndsWith(Tail(u), "?" + u.query)
    ensures u.fragment == "" && u.query == "" ==> Tail(u) == ""
  {
    var q := if u.query != "" then "?" + u.query else "";
    var f := if u.fragment != "" then "#" + u.fragment else "";
    assert EndsWith(f, f) && EndsWith(q, q);
    EndsWithAppend(q, f, f);
    if u.fragment == "" {
      assert Tail(u) == q;
    }
  }

  /**
   * `urlunsplit` starts with "scheme:" when there is a scheme and then
   * "//host" when there is a host, with a "/" put before a path when there
   * is a host. Python writes "scheme://" also for an http(s) URL without a
   * host; such a URL never reaches this code, because the request model
   * types the URL as `HttpUrl`, which always has a host (app/schemas.py:5),
   * so the host-less case is modelled as the generic one.
   */
  lemma UnsplitPrefix(u: UrlParts)
    ensures u.scheme != "" ==> u.scheme + ":" <= Unsplit(u)
    ensures u.scheme != "" && u.netloc != "" && u.path != "" ==> u.scheme + "://" + u.netloc + "/" <= Unsplit(u)
  {
    HeadShape(u);
    var head := Head(u);
    assert head <= Unsplit(u);
    if u.scheme != "" && u.netloc != "" && u.path != "" {
      var p := u.scheme + "://" + u.netloc;
      assert head[..|p|] == p;
      assert head[..|p| + 1] == head[..|p|] + [head[|p|]];
    }
  }

  /**
   * `urlunsplit` ends with "#fragment" when there is a fragment, else with
   * "?query" when there is a query, else with the path.
   */
  lemma UnsplitSuffix(u: UrlParts)
    ensures u.fragment != "" ==> EndsWith(Unsplit(u), "#" + u.fragment)
    ensures u.fragment == "" && u.query != "" ==> EndsWith(Unsplit(u), "?" + u.query)
    ensures u.fragment == "" && u.query == "" ==> EndsWith(Unsplit(u), u.path)
  {
    HeadShape(u);
    TailShape(u);
    var head, tail := Head(u), Tail(u);
    if u.fragment != "" {
      EndsWithAppend(head, tail, "#" + u.fragment);
    } else if u.query != "" {
      EndsWithAppend(head, tail, "?" + u.query);
    } else {
      assert Unsplit(u) == head;
    }
  }

  /**
   * The canonical URL of a URL with a scheme and a host starts with the
   * lower-cased "scheme://host" followed by "/" and carries no fragment:
   * it ends with "?query" when there is a query and with the canonical
   * path otherwise.
   */
  lemma CanonicalUrlShape(u: UrlParts)
    ensures u.scheme != "" && u.netloc != "" ==> Lower(u.scheme) + "://" + Lower(u.netloc) + "/" <= CanonicalizeUrl(u)
    ensures u.query != "" ==> EndsWith(CanonicalizeUrl(u), "?" + u.query)
    ensures u.query == "" ==> EndsWith(CanonicalizeUrl(u), Canonicalize(u).path)
  {
    UnsplitPrefix(Canonicalize(u));
    UnsplitSuffix(Canonicalize(u));
  }

  /**
   * Applying the canonicaliser twice gives the same parts as applying it
   * once exactly when the path does not end in "//" after a first
   * character: only one trailing slash is stripped per application.
   */
  lemma CanonicalizeIdempotentIff(u: UrlParts)
    ensures Canonicalize(Canonicalize(u)) == Canonicalize(u) <==>
            !(|u.path| >= 3 && u.path[|u.path| - 1] == '/' && u.path[|u.path| - 2] == '/')
  {
    var c := Canonicalize(u);
    var cc := Canonicalize(c);
    LowerIdempotent(u.scheme);
    LowerIdempotent(u.netloc);
    var p := u.path;
    if |p| >= 3 && p[|p| - 1] == '/' && p[|p| - 2] == '/' {
      assert c.path == p[..|p| - 1];
      assert EndsWithSlash(c.path) && c.path != "/";
      assert |cc.path| == |c.path| - 1;
    } else {
      assert cc.path == c.path;
      assert cc == c;
    }
  }

  /** The path "/a//" shows the canonicaliser is not idempotent. */
  lemma CanonicalizeNotIdempotent(u: UrlParts)
    requires u.path == "/a//"
    ensures Canonicalize(u).path == "/a/" && Canonicalize(Canonicalize(u)).path == "/a"
    ensures Canonicalize(Canonicalize(u)) != Canonicalize(u)
  {
    assert Canonicalize(u).path == "/a/";
  }

  /**
   * URLs that differ only in the letter case of scheme and host, in the
   * fragment, or in one trailing slash on the path get the same canonical
   * form, so they are one source.
   */
  lemma VariantsAgree(u: UrlParts, v: UrlParts)
    requires Lower(u.scheme) == Lower(v.scheme) && Lower(u.netloc) == Lower(v.netloc)
    requires u.query == v.query
    requires u.path == v.path || (u.path == v.path + "/" && !EndsWithSlash(v.path))
    ensures Canonicalize(u) == Canonicalize(v)
  {
    if u.path != v.path {
      assert u.path[..|u.path| - 1] == v.path;
    }
  }
}
