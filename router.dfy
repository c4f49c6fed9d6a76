/** URL rewriting and the redirect-or-render decision made for every request. */
module Router {
  import opened Strings

  /** An already-parsed URL: the parts the handler reads or assigns. */
  datatype Url = Url(protocol: string, hostname: string, port: string, pathname: string, search: string, hash: string)

  /** `url.href` for a URL without credentials. */
  function Href(u: Url): (href: string)
    ensures u.protocol + "//" + u.hostname <= href
    ensures EndsWith(href, u.pathname + u.search + u.hash)
  {
    var origin := u.protocol + "//" + u.hostname + (if u.port == "" then "" else ":" + u.port);
    var rest := u.pathname + u.search + u.hash;
    assert (origin + rest)[|origin + rest| - |rest|..] == rest;
    origin + rest
  }

  const SecureProtocol: string := "https:"
  const PdfSuffix: string := ".pdf"
  const IndexSuffix: string := "/index"

  /** Points the request URL at the host application: the three field assignments
      `hostname`, `protocol` and `port`, in the order the handler makes them. */
  function Rewrite(u: Url, hostname: string): (r: Url)
    ensures Href(r) == SecureProtocol + "//" + hostname + u.pathname + u.search + u.hash
  {
    u.(hostname := hostname).(protocol := SecureProtocol).(port := "")
  }

  /** Two requests are sent to the same place exactly when their path, query and fragment agree;
      rewriting a rewritten URL changes nothing. */
  lemma RewriteKeeps(u: Url, v: Url, hostname: string)
    ensures Rewrite(u, hostname) == Rewrite(v, hostname) <==>
      u.pathname == v.pathname && u.search == v.search && u.hash == v.hash
    ensures Rewrite(Rewrite(u, hostname), hostname) == Rewrite(u, hostname)
  {
  }

  /** The path rendered for a request path ending in ".pdf": the extension is sliced off,
      then "index" too when what remains ends in "/index" (once, not repeatedly). */
  function RenderPath(pathname: string): (r: string)
    requires EndsWith(pathname, PdfSuffix)
    ensures r <= pathname && |pathname| - 9 <= |r| <= |pathname| - 4
  {
    var stripped := DropLast(pathname, |PdfSuffix|);
    if EndsWith(stripped, IndexSuffix) then DropLast(stripped, |"index"|) else stripped
  }

  /** `t + "index"` ends in "/index" exactly when `t` ends in "/". */
  lemma IndexAfterSlash(t: string)
    ensures EndsWith(t + "index", IndexSuffix) <==> EndsWith(t, "/")
  {
    var s := t + "index";
    if |t| > 0 {
      var last := t[|t| - 1..];
      assert s[|s| - 6..] == last + "index";
      assert last + "index" == IndexSuffix <==> last == "/" by {
        if last + "index" == IndexSuffix {
          assert last[0] == (last + "index")[0] == '/';
        }
      }
    }
  }

  /** `RenderPath` yields `t` exactly for `t + ".pdf"` when `t` does not end in "/index",
      and for `t + "index.pdf"` when `t` ends in "/". */
  lemma RenderPathExactly(pathname: string, t: string)
    requires EndsWith(pathname, PdfSuffix)
    ensures RenderPath(pathname) == t <==>
      (pathname == t + PdfSuffix && !EndsWith(t, IndexSuffix)) ||
      (pathname == t + "index.pdf" && EndsWith(t, "/"))
  {
    var q := DropLast(pathname, |PdfSuffix|);
    SplitSuffix(pathname, t, PdfSuffix);
    assert pathname == t + PdfSuffix <==> q == t;
    assert t + "index.pdf" == (t + "index") + PdfSuffix;
    SplitSuffix(pathname, t + "index", PdfSuffix);
    assert pathname == t + "index.pdf" <==> q == t + "index";
    SplitSuffix(q, t, "index");
    IndexAfterSlash(t);
    if EndsWith(q, IndexSuffix) {
      assert EndsWith(q, "index") by {
        assert q[|q| - 5..] == q[|q| - 6..][1..];
      }
      assert RenderPath(pathname) == DropLast(q, 5);
    } else {
      assert RenderPath(pathname) == q;
    }
  }

  /** "/a/index.pdf" renders "/a/" with its slash; "/a/index/index.pdf" renders "/a/index/". */
  lemma IndexStrippedOnce()
    ensures RenderPath("/a/index.pdf") == "/a/"
    ensures RenderPath("/a/index/index.pdf") == "/a/index/"
  {
    RenderPathExactly("/a/index.pdf", "/a/");
    RenderPathExactly("/a/index/index.pdf", "/a/index/");
  }

  /** Where a request goes: back to the host application, or through the renderer. */
  datatype Route = Redirect(location: Url) | Render(target: Url)

  function RouteFor(u: Url, hostname: string): (r: Route)
    ensures r.Redirect? <==> !EndsWith(u.pathname, PdfSuffix)
    ensures var v := if r.Redirect? then r.location else r.target;
      v.protocol == SecureProtocol && v.hostname == hostname && v.port == "" &&
      v.search == u.search && v.hash == u.hash
    ensures r.Redirect? ==> r.location.pathname == u.pathname
    ensures r.Render? ==>
      (u.pathname == r.target.pathname + PdfSuffix && !EndsWith(r.target.pathname, IndexSuffix)) ||
      (u.pathname == r.target.pathname + "index.pdf" && EndsWith(r.target.pathname, "/"))
  {
    var url := Rewrite(u, hostname);
    if !EndsWith(url.pathname, PdfSuffix) then Redirect(url)
    else
      RenderPathExactly(url.pathname, RenderPath(url.pathname));
      Render(url.(pathname := RenderPath(url.pathname)))
  }

  /** The suffix test is case-sensitive: "/report.PDF" is redirected, not rendered. */
  lemma UpperCaseExtensionRedirects(u: Url, hostname: string)
    requires u.pathname == "/report.PDF"
    ensures RouteFor(u, hostname).Redirect?
  {
    assert u.pathname[|u.pathname| - 4..][1] == 'P';
  }
}
