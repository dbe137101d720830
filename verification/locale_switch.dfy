/**
 The link target of `LocaleSwitch` (src/components/locale-switch.tsx): the
 current path with its first non-empty segment replaced by the other
 locale. Rendering is left out; `None` stands for the component rendering
 nothing.
 */
module LocaleSwitch {
  import opened Common
  import opened Strings

  /** The locale the switch offers: "en" from "hr", "hr" from anything else. */
  function OtherLocale(locale: string): (other: string)
    ensures other == "en" || other == "hr"
    ensures other == "en" <==> locale == "hr"
  {
    if locale == "hr" then "en" else "hr"
  }

  /** Switching twice returns to a locale one started from. */
  lemma OtherLocaleInvolution(locale: string)
    requires locale == "en" || locale == "hr"
    ensures OtherLocale(OtherLocale(locale)) == locale
  {
  }

  /** `pathname.split("/").filter(Boolean)` */
  function Segments(path: string): (segs: seq<string>)
    ensures forall i :: 0 <= i < |segs| ==> segs[i] != [] && '/' !in segs[i]
  {
    DropEmpty(Split(path, '/'))
  }

  /** The switch's target for the current pathname (`None` when the router
      has none, which the component reads as "/"). */
  function SwitchPath(locale: string, pathname: Option<string>): (r: Option<string>)
    // nothing is rendered exactly when the path has no non-empty segment
    ensures r.None? <==> Segments(OrElse(pathname, "/")) == []
    // the result splits into "", the other locale and the remaining segments in order
    ensures r.Some? ==>
      var segs := Segments(OrElse(pathname, "/"));
      Split(r.value, '/') == [""] + [OtherLocale(locale)] + segs[1..]
    // it starts with "/" and does not end with one
    ensures r.Some? ==> |r.value| >= 2 && r.value[0] == '/' && r.value[|r.value| - 1] != '/'
  {
    var segs := Segments(OrElse(pathname, "/"));
    if segs == [] then None
    else
      var parts := [OtherLocale(locale)] + segs[1..];
      ReplacedFirstIsSegments(locale, segs);
      SplitSwitched(parts);
      Some("/" + Join(parts, '/'))
  }

  /** Replacing the first segment by the other locale keeps a sequence of
      segments. */
  lemma ReplacedFirstIsSegments(locale: string, segs: seq<string>)
    requires |segs| >= 1
    requires forall i :: 0 <= i < |segs| ==> segs[i] != [] && '/' !in segs[i]
    ensures var parts := [OtherLocale(locale)] + segs[1..];
            forall i :: 0 <= i < |parts| ==> parts[i] != [] && '/' !in parts[i]
  {
    var other := OtherLocale(locale);
    assert other != [] && '/' !in other by {
      if other == "en" { assert other == ['e', 'n']; } else { assert other == ['h', 'r']; }
    }
    var parts := [other] + segs[1..];
    forall i | 0 <= i < |parts|
      ensures parts[i] != [] && '/' !in parts[i]
    {
      if i > 0 { assert parts[i] == segs[i]; }
    }
  }

  /** Splitting "/" + the join of non-empty, separator-free parts gives ""
      followed by the parts, and the text does not end with the separator. */
  lemma SplitSwitched(parts: seq<string>)
    requires |parts| >= 1
    requires forall i :: 0 <= i < |parts| ==> parts[i] != [] && '/' !in parts[i]
    ensures Split("/" + Join(parts, '/'), '/') == [""] + parts
    ensures var s := "/" + Join(parts, '/'); |s| >= 2 && s[|s| - 1] != '/'
  {
    var j := Join(parts, '/');
    SplitJoin(parts, '/');
    SplitAfterHead("", j, '/');
    assert "" + ['/'] + j == "/" + j;
    JoinEndsWithLast(parts);
  }

  /** A join ends with its last part. */
  lemma {:induction false} JoinEndsWithLast(parts: seq<string>)
    requires |parts| >= 1
    ensures EndsWith(Join(parts, '/'), parts[|parts| - 1])
    decreases |parts|
  {
    if |parts| > 1 {
      JoinEndsWithLast(parts[1..]);
    }
  }

  /** The first segment is replaced even when it is not a locale. */
  lemma FirstSegmentAlwaysReplaced(locale: string, x: string, rest: string)
    requires x != [] && '/' !in x && rest != [] && '/' !in rest
    ensures SwitchPath(locale, Some("/" + x + "/" + rest)) == Some("/" + OtherLocale(locale) + "/" + rest)
  {
    var p := "/" + x + "/" + rest;
    var other := OtherLocale(locale);
    SegmentsOfTwo(x, rest);
    assert OrElse(Some(p), "/") == p;
    assert [other] + [x, rest][1..] == [other, rest];
    JoinTwo(other, rest);
    assert "/" + (other + "/" + rest) == "/" + other + "/" + rest;
  }

  /** "/x/y" has the segments x and y. */
  lemma SegmentsOfTwo(x: string, y: string)
    requires x != [] && '/' !in x && y != [] && '/' !in y
    ensures Segments("/" + x + "/" + y) == [x, y]
  {
    SplitTwoSegments(x, y, '/');
    assert "/" + x + "/" + y == ['/'] + x + ['/'] + y;
    assert ["", x, y][1..] == [x, y];
    DropEmptyKeepsNonEmpty([x, y]);
  }

  lemma JoinTwo(a: string, b: string)
    ensures Join([a, b], '/') == a + "/" + b
  {
    assert [a, b][1..] == [b];
  }

  /** Switching a path of the current locale and switching back gives the
      path back, with empty segments dropped. */
  lemma SwitchBack(locale: string, pathname: string)
    requires locale == "en" || locale == "hr"
    requires var segs := Segments(pathname); segs != [] && segs[0] == locale
    ensures var there := SwitchPath(locale, Some(pathname));
            there.Some? &&
            SwitchPath(OtherLocale(locale), there) == Some("/" + Join(Segments(pathname), '/'))
  {
    var segs := Segments(pathname);
    var other := OtherLocale(locale);
    var parts := [other] + segs[1..];
    var there := "/" + Join(parts, '/');
    assert SwitchPath(locale, Some(pathname)) == Some(there) by {
      assert OrElse(Some(pathname), "/") == pathname;
    }
    assert Segments(there) == parts by {
      ReplacedFirstIsSegments(locale, segs);
      SegmentsOfJoined(parts);
    }
    assert [OtherLocale(other)] + parts[1..] == segs by {
      OtherLocaleInvolution(locale);
    }
    assert OrElse(Some(there), "/") == there;
  }

  /** The segments of "/" + the join of segments are those segments. */
  lemma SegmentsOfJoined(parts: seq<string>)
    requires |parts| >= 1
    requires forall i :: 0 <= i < |parts| ==> parts[i] != [] && '/' !in parts[i]
    ensures Segments("/" + Join(parts, '/')) == parts
  {
    SplitSwitched(parts);
    assert ([""] + parts)[1..] == parts;
    DropEmptyKeepsNonEmpty(parts);
  }
}
