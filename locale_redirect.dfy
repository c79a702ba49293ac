/**
 * The translation middleware: requests for framework files, the API and
 * anything with a file extension pass through, as do paths already under a
 * locale; every other path is redirected under the locale detected from
 * the Accept-Language header, keeping the query string.
 */
module LocaleRedirect {
  import opened Common
  import opened Text

  const Locales := ["vi", "en"]

  datatype Response = Next | Redirect(pathname: string, search: string)

  /** The first test: framework files, the API, or a dot anywhere. */
  predicate Skipped(pathname: string) {
    StartsWith(pathname, "/_next") || StartsWith(pathname, "/api") || '.' in pathname
  }

  /** The second test: the path is `/vi` or `/en`, or lies under one of them. */
  predicate LocalePrefixed(pathname: string) {
    exists i :: 0 <= i < |Locales| && (pathname == "/" + Locales[i] || StartsWith(pathname, "/" + Locales[i] + "/"))
  }

  /** `acceptLang.toLowerCase().startsWith('vi') ? 'vi' : 'en'`, a missing
      header counting as the empty string. */
  function Detect(acceptLanguage: Option<string>): (locale: string)
    ensures locale in Locales
    ensures locale == "vi" <==> acceptLanguage.Some? && StartsWith(Lower(acceptLanguage.value), "vi")
  {
    var header := if acceptLanguage.Some? then acceptLanguage.value else "";
    if StartsWith(Lower(header), "vi") then "vi" else "en"
  }

  /** `translationMiddleware`. */
  function Middleware(pathname: string, search: string, acceptLanguage: Option<string>): (r: Response)
    ensures r.Next? <==> Skipped(pathname) || LocalePrefixed(pathname)
    ensures r.Redirect? ==> r == Redirect("/" + Detect(acceptLanguage) + pathname, search)
  {
    if Skipped(pathname) then Next
    else if LocalePrefixed(pathname) then Next
    else Redirect("/" + Detect(acceptLanguage) + pathname, search)
  }

  /** The prefix tests have no trailing slash: "/apiary" is let through like
      "/api/stories". */
  lemma ApiaryPasses(search: string, header: Option<string>)
    ensures Middleware("/apiary", search, header) == Next
  {
    assert "/apiary"[..4] == "/api";
  }

  /** "/video" is not taken for the locale "/vi": it is redirected. */
  lemma VideoRedirected(search: string)
    ensures Middleware("/video", search, Some("vi")) == Redirect("/vi/video", search)
  {
    var p := "/video";
    assert p[1] == 'v' && p[3] == 'd';
    assert !StartsWith(p, "/_next") && !StartsWith(p, "/api") by {
      assert "/_next"[1] == '_' && "/api"[1] == 'a';
    }
    assert forall i :: 0 <= i < |p| ==> p[i] != '.';
    assert !LocalePrefixed(p) by {
      assert ("/" + Locales[0] + "/")[3] == '/';
      assert ("/" + Locales[1] + "/")[1] == 'e';
      assert "/" + Locales[0] != p && "/" + Locales[1] != p;
    }
    assert Lower("vi") == "vi";
  }

  /** Paths under a locale pass through. */
  lemma LocalePathsPass(search: string, header: Option<string>)
    ensures Middleware("/vi", search, header) == Next
    ensures Middleware("/en/truyen", search, header) == Next
  {
    assert "/vi" == "/" + Locales[0];
    assert "/en/truyen"[..4] == "/" + Locales[1] + "/";
  }

  /** Only the first two characters of the header matter, whatever their case. */
  lemma DetectByFirstTwo(h: string)
    ensures Detect(Some(h)) == "vi" <==> |h| >= 2 && LowerChar(h[0]) == 'v' && LowerChar(h[1]) == 'i'
  {
    if |h| >= 2 {
      assert Lower(h)[..2] == [LowerChar(h[0]), LowerChar(h[1])];
    }
  }

  /** A missing header, like an empty one, selects English. */
  lemma MissingHeaderIsEnglish()
    ensures Detect(None) == "en" && Detect(Some("")) == "en"
  {
  }

  /** The redirect target of a path that starts with '/' passes through the
      middleware, whatever the header of the second request: there is no
      redirect loop. */
  lemma NoRedirectLoop(pathname: string, search: string, h1: Option<string>, h2: Option<string>)
    requires |pathname| >= 1 && pathname[0] == '/'
    requires Middleware(pathname, search, h1).Redirect?
    ensures var target := Middleware(pathname, search, h1);
      Middleware(target.pathname, target.search, h2) == Next
  {
    var locale := Detect(h1);
    var target := "/" + locale + pathname;
    var i := if locale == "vi" then 0 else 1;
    assert Locales[i] == locale;
    assert target[..|"/" + locale + "/"|] == "/" + locale + "/";
    assert StartsWith(target, "/" + Locales[i] + "/");
  }
}
