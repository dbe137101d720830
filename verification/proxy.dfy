/**
 The request filter of proxy.ts: `isAsset` lists the paths that must not be
 redirected; every other path without a locale prefix is redirected below
 `/hr`.
 */
module Proxy {
  import opened Strings
  import opened LocalePaths
  import RootMiddleware
  import SrcMiddleware

  const RootFiles: seq<string> :=
    ["/favicon.ico", "/apple-touch-icon.png", "/site.webmanifest", "/manifest.json", "/robots.txt", "/sitemap.xml"]

  /** `isAsset(pathname)` */
  predicate IsAsset(path: string) {
    || IsInternal(path)
    || StartsWith(path, "/favicon-")
    || path in RootFiles
    || HasExtension(path)
  }

  /** `proxy(req)` on the request's pathname. */
  function ProxyDecision(path: string): (d: Decision)
    ensures IsAsset(path) || HasLocalePrefix(path) ==> d == Next
    ensures d.Redirect? <==> !IsAsset(path) && !HasLocalePrefix(path)
    ensures d.Redirect? ==> d.path == DefaultLocaleTarget(path)
  {
    if IsAsset(path) then Next
    else if HasLocalePrefix(path) then Next
    else Redirect(DefaultLocaleTarget(path))
  }

  /** Following a redirect of an absolute path never redirects again. */
  lemma NoRedirectLoop(path: string)
    requires StartsWith(path, "/")
    ensures ProxyDecision(path).Redirect? ==> ProxyDecision(ProxyDecision(path).path) == Next
  {
    TargetHasLocale(path);
  }

  /** Off the asset paths the three filters take the same decision; they
      differ only in which static files they exempt. */
  lemma FiltersAgreeOffAssets(path: string)
    requires !IsAsset(path)
    ensures ProxyDecision(path) == RootMiddleware.Middleware(path)
    ensures ProxyDecision(path) == SrcMiddleware.Middleware(path)
  {
  }

  /** A `/favicon-` path without an extension is an asset to this filter
      only: src/middleware.ts redirects it below `/hr`. */
  lemma DashedFaviconsDiffer(path: string)
    requires StartsWith(path, "/favicon-") && !HasExtension(path)
    ensures ProxyDecision(path) == Next
    ensures SrcMiddleware.Middleware(path) == Redirect("/hr" + path)
  {
    assert path[..9][1] == path[1];
    OrdinaryPath(path);
  }

  /** `/favicon.ico` is exempt here and in src/middleware.ts, but the root
      middleware redirects it. */
  lemma FaviconFileDiffers()
    ensures ProxyDecision("/favicon.ico") == Next
    ensures SrcMiddleware.Middleware("/favicon.ico") == Next
    ensures RootMiddleware.Middleware("/favicon.ico") == Redirect("/hr/favicon.ico")
  {
    ExtensionWitness("/favicon.ico", 8);
    RootMiddleware.FaviconRedirected();
  }
}
