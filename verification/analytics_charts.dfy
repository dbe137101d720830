/**
 `formatDayLabel` of src/components/analytics-charts.tsx: a `YYYY-MM-DD`
 day becomes the label `DD.MM.`. The parts are copied as they are; a part
 the split does not produce renders as "undefined", as a template literal
 renders a missing array element.
 */
module AnalyticsCharts {
  import opened Strings

  /** `${x}` for an array element that may not exist. */
  function PartOrUndefined(parts: seq<string>, i: nat): string {
    if i < |parts| then parts[i] else "undefined"
  }

  function FormatDayLabel(day: string): string {
    var parts := Split(day, '-');
    PartOrUndefined(parts, 2) + "." + PartOrUndefined(parts, 1) + "."
  }

  /** "Y-M-D" becomes "D.M.", whatever the year; the label is exactly as
      long as the two parts and the two dots. */
  lemma {:induction false} DayMonthOrder(y: string, m: string, d: string)
    requires '-' !in y && '-' !in m && '-' !in d
    ensures FormatDayLabel(y + "-" + m + "-" + d) == d + "." + m + "."
    ensures |FormatDayLabel(y + "-" + m + "-" + d)| == |m| + |d| + 2
  {
    ThreeParts(y, m, d);
  }

  lemma {:induction false} ThreeParts(y: string, m: string, d: string)
    requires '-' !in y && '-' !in m && '-' !in d
    ensures Split(y + "-" + m + "-" + d, '-') == [y, m, d]
  {
    SplitWithoutSep(d, '-');
    SplitAfterHead(m, d, '-');
    SplitAfterHead(y, m + "-" + d, '-');
    assert y + "-" + m + "-" + d == y + ['-'] + (m + ['-'] + d);
  }

  /** The year part never influences the label, whatever follows it. */
  lemma {:induction false} YearIgnored(y1: string, y2: string, rest: string)
    requires '-' !in y1 && '-' !in y2
    ensures FormatDayLabel(y1 + "-" + rest) == FormatDayLabel(y2 + "-" + rest)
  {
    SplitAfterHead(y1, rest, '-');
    SplitAfterHead(y2, rest, '-');
  }

  /** A day without two dashes shows "undefined" for the missing parts. */
  lemma {:induction false} MissingParts(y: string, m: string)
    requires '-' !in y && '-' !in m
    ensures FormatDayLabel(y) == "undefined.undefined."
    ensures FormatDayLabel(y + "-" + m) == "undefined." + m + "."
  {
    SplitWithoutSep(y, '-');
    SplitWithoutSep(m, '-');
    SplitAfterHead(y, m, '-');
  }

  /** The label splits back at its dots into day, month and an empty tail,
      when the parts contain no dot. */
  lemma {:induction false} LabelSplitsBack(y: string, m: string, d: string)
    requires '-' !in y && '-' !in m && '-' !in d && '.' !in m && '.' !in d
    ensures Split(FormatDayLabel(y + "-" + m + "-" + d), '.') == [d, m, ""]
  {
    DayMonthOrder(y, m, d);
    SplitWithoutSep("", '.');
    SplitAfterHead(m, "", '.');
    assert m + "." == m + ['.'] + "";
    assert Split(m + ".", '.') == [m, ""];
    SplitAfterHead(d, m + ".", '.');
    assert d + "." + m + "." == d + ['.'] + (m + ".");
  }
}
