/**
 The path tests shared by the three request filters (middleware.ts,
 src/middleware.ts and proxy.ts): the internal prefixes, the locale prefix,
 the default-locale redirect target and the "file with an extension" test
 `/\.[a-zA-Z0-9]+$/`.
 */
module LocalePaths {
  import opened Strings

  /** What a filter does with a request: let it through, or redirect it. */
  datatype Decision = Next | Redirect(path: string)

  /** Next.js internals and the API routes. */
  predicate IsInternal(path: string) {
    StartsWith(path, "/_next") || StartsWith(path, "/api")
  }

  /** The path is `/hr` or `/en`, or lies below one of them. A look-alike
      such as `/hrx` does not count. */
  predicate HasLocalePrefix(path: string) {
    || path == "/hr" || StartsWith(path, "/hr/")
    || path == "/en" || StartsWith(path, "/en/")
  }

  /** The redirect to the default locale: `/` becomes `/hr`, every other
      path is kept whole after the `/hr` prefix. */
  function DefaultLocaleTarget(path: string): (target: string)
    ensures StartsWith(target, "/hr")
    ensures path == "/" ==> target == "/hr"
    ensures path != "/" ==> target[3..] == path
  {
    "/hr" + (if path == "/" then "" else path)
  }

  /** For a path that starts with "/", the redirect target is itself a
      locale path, so following the redirect cannot redirect again. */
  lemma TargetHasLocale(path: string)
    requires StartsWith(path, "/")
    ensures HasLocalePrefix(DefaultLocaleTarget(path))
  {
    var target := DefaultLocaleTarget(path);
    if path != "/" {
      assert target[..4] == "/hr/";
    }
  }

  /** A path starting with "/" is never internal after the `/hr` prefix. */
  lemma TargetNotInternal(path: string)
    requires StartsWith(path, "/")
    ensures !IsInternal(DefaultLocaleTarget(path))
  {
    var target := DefaultLocaleTarget(path);
    assert target[1] == 'h';
  }

  /** `/hrx` is not a locale path: it is redirected below `/hr`. */
  lemma LookAlikePrefix()
    ensures !HasLocalePrefix("/hrx")
    ensures DefaultLocaleTarget("/hrx") == "/hr/hrx"
  {
    var p := "/hrx";
    assert p[..4][3] == 'x';
  }

  /** A path whose second character cannot start "_next", "api", "hr" or
      "en" is neither internal nor localised, so the filters send it below
      `/hr`. */
  lemma OrdinaryPath(path: string)
    requires |path| >= 2 && path[0] == '/'
    requires path[1] != '_' && path[1] != 'a' && path[1] != 'h' && path[1] != 'e'
    ensures !IsInternal(path) && !HasLocalePrefix(path)
    ensures DefaultLocaleTarget(path) == "/hr" + path
  {
    if |path| >= 6 { assert path[..6][1] == path[1]; }
    if |path| >= 4 { assert path[..4][1] == path[1]; }
  }

  // ---------------------------------------------------------------------
  // `/\.[a-zA-Z0-9]+$/`
  // ---------------------------------------------------------------------

  predicate IsAsciiAlnum(c: char) {
    ('a' <= c <= 'z') || ('A' <= c <= 'Z') || ('0' <= c <= '9')
  }

  /** The number of ASCII letters and digits at the end of `s`. */
  function TrailingAlnum(s: string): (n: nat)
    ensures n <= |s|
    ensures forall i :: |s| - n <= i < |s| ==> IsAsciiAlnum(s[i])
    ensures n < |s| ==> !IsAsciiAlnum(s[|s| - n - 1])
  {
    if s != [] && IsAsciiAlnum(s[|s| - 1]) then TrailingAlnum(s[..|s| - 1]) + 1 else 0
  }

  /** The filters' extension test, computed from the end of the path: a
      non-empty run of letters and digits, directly after a '.'. */
  predicate HasExtension(path: string) {
    var n := TrailingAlnum(path);
    1 <= n < |path| && path[|path| - n - 1] == '.'
  }

  /** What the regular expression matches: a '.' at `k`, followed by at
      least one character, all of them letters or digits, up to the end. */
  ghost predicate ExtensionAt(path: string, k: int) {
    && 0 <= k < |path| - 1
    && path[k] == '.'
    && forall j :: k < j < |path| ==> IsAsciiAlnum(path[j])
  }

  /** The computed test accepts exactly the paths the regular expression
      matches. */
  lemma HasExtensionMeansMatch(path: string)
    ensures HasExtension(path) <==> exists k :: ExtensionAt(path, k)
  {
    var n := TrailingAlnum(path);
    if HasExtension(path) {
      assert ExtensionAt(path, |path| - n - 1);
    }
    if k :| ExtensionAt(path, k) {
      TrailingAlnumStopsAt(path, k);
    }
  }

  /** The run of letters and digits at the end reaches back exactly to the
      last character that is not one. */
  lemma {:induction false} TrailingAlnumStopsAt(s: string, k: int)
    requires 0 <= k < |s| && !IsAsciiAlnum(s[k])
    requires forall j :: k < j < |s| ==> IsAsciiAlnum(s[j])
    ensures TrailingAlnum(s) == |s| - 1 - k
    decreases |s|
  {
    if k < |s| - 1 {
      var init := s[..|s| - 1];
      assert forall j :: k < j < |init| ==> init[j] == s[j];
      TrailingAlnumStopsAt(init, k);
    }
  }

  /** Any match of the regular expression is enough for the computed test. */
  lemma ExtensionWitness(path: string, k: int)
    requires ExtensionAt(path, k)
    ensures HasExtension(path)
  {
    HasExtensionMeansMatch(path);
  }
}
