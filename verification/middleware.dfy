/**
 The root request filter of middleware.ts: internal paths pass, locale
 paths pass, every other path is redirected below `/hr`. Unlike the other
 two filters it has no exemption for static files.
 */
module RootMiddleware {
  import opened Strings
  import opened LocalePaths

  /** `middleware(req)` on the request's pathname. */
  function Middleware(path: string): (d: Decision)
    ensures IsInternal(path) ==> d == Next
    ensures HasLocalePrefix(path) ==> d == Next
    ensures d.Redirect? <==> !IsInternal(path) && !HasLocalePrefix(path)
    ensures d.Redirect? ==> d.path == DefaultLocaleTarget(path)
  {
    if IsInternal(path) then Next
    else if HasLocalePrefix(path) then Next
    else Redirect(DefaultLocaleTarget(path))
  }

  /** Following a redirect of an absolute path never redirects again. */
  lemma NoRedirectLoop(path: string)
    requires StartsWith(path, "/")
    ensures Middleware(path).Redirect? ==> Middleware(Middleware(path).path) == Next
  {
    TargetHasLocale(path);
  }

  /** Unlike the other two filters, this one redirects files too:
      "/favicon.ico" goes to "/hr/favicon.ico". */
  lemma FaviconRedirected()
    ensures Middleware("/favicon.ico") == Redirect("/hr/favicon.ico")
  {
    var p := "/favicon.ico";
    assert p[0] == '/' && p[1] == 'f';
    OrdinaryPath(p);
    assert "/hr" + p == "/hr/favicon.ico";
  }
}
