/**
 The request filter of src/middleware.ts: internal paths, files with an
 extension and four root metadata files pass; other paths without a
 locale prefix are redirected below `/hr`.
 */
module SrcMiddleware {
  import opened Strings
  import opened LocalePaths

  const MetadataRoutes: seq<string> := ["/robots.txt", "/sitemap.xml", "/manifest.webmanifest", "/site.webmanifest"]

  /** `middleware(req)` on the request's pathname. The metadata exemption
      never decides anything: each of those names has an extension. */
  function Middleware(path: string): (d: Decision)
    ensures IsInternal(path) || HasExtension(path) || path in MetadataRoutes || HasLocalePrefix(path) ==> d == Next
    ensures d.Redirect? <==> !IsInternal(path) && !HasExtension(path) && !HasLocalePrefix(path)
    ensures d.Redirect? ==> d.path == DefaultLocaleTarget(path)
  {
    MetadataRoutesHaveExtension();
    if IsInternal(path) then Next
    else if HasExtension(path) then Next
    else if path in MetadataRoutes then Next
    else if !HasLocalePrefix(path) then Redirect(DefaultLocaleTarget(path))
    else Next
  }

  /** Every listed metadata route already ends in `.` and letters. */
  lemma MetadataRoutesHaveExtension()
    ensures forall r :: r in MetadataRoutes ==> HasExtension(r)
  {
    RobotsHasExtension();
    SitemapHasExtension();
    ManifestHasExtension();
    SiteManifestHasExtension();
  }

  lemma RobotsHasExtension()
    ensures HasExtension("/robots.txt")
  {
    ExtensionWitness("/robots.txt", 7);
  }

  lemma SitemapHasExtension()
    ensures HasExtension("/sitemap.xml")
  {
    ExtensionWitness("/sitemap.xml", 8);
  }

  lemma ManifestHasExtension()
    ensures HasExtension("/manifest.webmanifest")
  {
    ExtensionWitness("/manifest.webmanifest", 9);
  }

  lemma SiteManifestHasExtension()
    ensures HasExtension("/site.webmanifest")
  {
    ExtensionWitness("/site.webmanifest", 5);
  }

  /** Following a redirect of an absolute path never redirects again. */
  lemma NoRedirectLoop(path: string)
    requires StartsWith(path, "/")
    ensures Middleware(path).Redirect? ==> Middleware(Middleware(path).path) == Next
  {
    TargetHasLocale(path);
  }
}
