/** The Analytics screen's selectors: which sample series the chart shows, its title, and the metric buttons' captions. */
module Analytics {
  import Strings

  /** One point of a sample series; each metric has its own shape of point. */
  datatype Point =
    | ScreenTimePoint(day: string, hours: real, goal: real)
    | MoodPoint(day: string, mood: real, energy: real)
    | FocusPoint(day: string, sessions: int, duration: int)

  /** The three series of one time range. */
  datatype RangeData = RangeData(screenTime: seq<Point>, mood: seq<Point>, focus: seq<Point>)

  const Week := RangeData(
    [ ScreenTimePoint("Mon", 4.2, 3.5), ScreenTimePoint("Tue", 5.1, 3.5), ScreenTimePoint("Wed", 3.8, 3.5),
      ScreenTimePoint("Thu", 4.5, 3.5), ScreenTimePoint("Fri", 3.2, 3.5), ScreenTimePoint("Sat", 2.1, 3.5),
      ScreenTimePoint("Sun", 1.8, 3.5) ],
    [ MoodPoint("Mon", 7.0, 6.0), MoodPoint("Tue", 8.0, 7.0), MoodPoint("Wed", 6.0, 5.0),
      MoodPoint("Thu", 9.0, 8.0), MoodPoint("Fri", 8.0, 7.0), MoodPoint("Sat", 9.0, 9.0),
      MoodPoint("Sun", 8.0, 8.0) ],
    [ FocusPoint("Mon", 3, 105), FocusPoint("Tue", 2, 80), FocusPoint("Wed", 4, 140),
      FocusPoint("Thu", 3, 95), FocusPoint("Fri", 5, 165), FocusPoint("Sat", 2, 70),
      FocusPoint("Sun", 1, 45) ])

  const Month := RangeData(
    [ ScreenTimePoint("Week 1", 28.5, 24.5), ScreenTimePoint("Week 2", 31.2, 24.5),
      ScreenTimePoint("Week 3", 26.8, 24.5), ScreenTimePoint("Week 4", 23.1, 24.5) ],
    [ MoodPoint("Week 1", 7.2, 6.8), MoodPoint("Week 2", 8.1, 7.5),
      MoodPoint("Week 3", 7.8, 7.2), MoodPoint("Week 4", 8.5, 8.0) ],
    [ FocusPoint("Week 1", 18, 630), FocusPoint("Week 2", 22, 770),
      FocusPoint("Week 3", 25, 875), FocusPoint("Week 4", 20, 700) ])

  /** The sample data by time range; there is no entry for "quarter". */
  const MockData: map<string, RangeData> := map["week" := Week, "month" := Month]

  predicate AllScreenTime(s: seq<Point>) { forall i :: 0 <= i < |s| ==> s[i].ScreenTimePoint? }
  predicate AllMood(s: seq<Point>) { forall i :: 0 <= i < |s| ==> s[i].MoodPoint? }
  predicate AllFocus(s: seq<Point>) { forall i :: 0 <= i < |s| ==> s[i].FocusPoint? }

  lemma SampleShapes()
    ensures AllScreenTime(Week.screenTime) && AllMood(Week.mood) && AllFocus(Week.focus)
    ensures AllScreenTime(Month.screenTime) && AllMood(Month.mood) && AllFocus(Month.focus)
  {
  }

  /** The series of one range for a metric: "mood" and "focus" by name, screen time for any other metric. */
  function Series(data: RangeData, metric: string): seq<Point> {
    if metric == "mood" then data.mood else if metric == "focus" then data.focus else data.screenTime
  }

  /**
   * `getCurrentData`: the series for the selected metric from the selected
   * range, falling back to the week's data for a range with no data. "mood"
   * and "focus" pick their series; any other metric picks screen time.
   */
  function CurrentData(timeRange: string, metric: string): (r: seq<Point>)
    ensures metric == "mood" ==> AllMood(r)
    ensures metric == "focus" ==> AllFocus(r)
    ensures metric != "mood" && metric != "focus" ==> AllScreenTime(r)
    ensures |r| == if timeRange == "month" then 4 else 7
    ensures r == Series(if timeRange == "month" then Month else Week, metric)
  {
    SampleShapes();
    var data := if timeRange in MockData then MockData[timeRange] else MockData["week"];
    match metric
    case "mood" => data.mood
    case "focus" => data.focus
    case _ => data.screenTime
  }

  /** The "quarter" range, and any other range without data, shows the week's series. */
  lemma MissingRangeShowsWeek(timeRange: string, metric: string)
    requires timeRange != "week" && timeRange != "month"
    ensures CurrentData(timeRange, metric) == CurrentData("week", metric)
  {
  }

  function RangeName(timeRange: string): string {
    if timeRange == "week" then "Weekly" else if timeRange == "month" then "Monthly" else "Quarterly"
  }

  function MetricName(metric: string): string {
    if metric == "screen-time" then "Screen Time" else if metric == "mood" then "Mood Trends" else "Focus Sessions"
  }

  /** `getChartTitle`: the range's adjective, a space, and the metric's name. */
  function ChartTitle(timeRange: string, metric: string): (r: string)
    ensures |r| == |RangeName(timeRange)| + 1 + |MetricName(metric)|
    ensures r[..|RangeName(timeRange)|] == RangeName(timeRange)
    ensures r[|RangeName(timeRange)|] == ' '
    ensures r[|RangeName(timeRange)| + 1..] == MetricName(metric)
  {
    var r := RangeName(timeRange) + " " + MetricName(metric);
    assert r[..|RangeName(timeRange)|] == RangeName(timeRange);
    r
  }

  /** The quarter's chart is titled "Quarterly" while it plots the week's points. */
  lemma QuarterTitleVersusData()
    ensures ChartTitle("quarter", "mood") == "Quarterly Mood Trends"
    ensures CurrentData("quarter", "mood") == Week.mood
  {
  }

  // ---------------------------------------------------------------------------
  // Metric button captions
  // ---------------------------------------------------------------------------

  /** `toUpperCase` on one character, for the ASCII letters the metric ids use. */
  function UpperAscii(c: char): char {
    if 'a' <= c <= 'z' then (c as int - 32) as char else c
  }

  /** `word.charAt(0).toUpperCase() + word.slice(1)`. */
  function Capitalize(w: string): string {
    if |w| == 0 then [] else [UpperAscii(w[0])] + w[1..]
  }

  function CapitalizeAll(words: seq<string>): (r: seq<string>)
    ensures |r| == |words|
  {
    if |words| == 0 then [] else [Capitalize(words[0])] + CapitalizeAll(words[1..])
  }

  /** The caption of a metric button: split on '-', capitalise each word, join with spaces. */
  function ButtonLabel(metric: string): (r: string)
    ensures |r| == |metric|
    ensures forall k :: 0 <= k < |metric| && metric[k] == '-' ==> r[k] == ' '
    ensures forall k :: 0 <= k < |metric| && metric[k] != '-' && (k == 0 || metric[k - 1] == '-') ==>
      r[k] == UpperAscii(metric[k])
    ensures forall k :: 0 < k < |metric| && metric[k] != '-' && metric[k - 1] != '-' ==> r[k] == metric[k]
  {
    LabelMatchesCaption(metric, true);
    Strings.Join(CapitalizeAll(Strings.Split(metric, '-')), ' ')
  }

  /**
   * The caption character by character: a dash becomes a space, a character
   * at the start of a word is upper-cased, the rest are kept. `wordStart`
   * says whether the first character starts a word.
   */
  function Caption(s: string, wordStart: bool): (r: string)
    ensures |r| == |s|
    ensures forall k :: 0 <= k < |s| && s[k] == '-' ==> r[k] == ' '
    ensures forall k :: 0 <= k < |s| && s[k] != '-' ==>
      r[k] == if (if k == 0 then wordStart else s[k - 1] == '-') then UpperAscii(s[k]) else s[k]
  {
    if |s| == 0 then []
    else
      var rest := Caption(s[1..], s[0] == '-');
      var c := if s[0] == '-' then ' ' else if wordStart then UpperAscii(s[0]) else s[0];
      assert forall k :: 1 <= k < |s| ==> s[k] == s[1..][k - 1];
      [c] + rest
  }

  /** The caption pieces with only the first one capitalised when `wordStart` holds. */
  function CapitalizeFrom(wordStart: bool, parts: seq<string>): seq<string>
    requires |parts| >= 1
  {
    [if wordStart then Capitalize(parts[0]) else parts[0]] + CapitalizeAll(parts[1..])
  }

  lemma JoinFirstCons(c: char, a: string, rest: seq<string>, sep: char)
    ensures Strings.Join([[c] + a] + rest, sep) == [c] + Strings.Join([a] + rest, sep)
  {
    if |rest| > 0 {
      assert ([[c] + a] + rest)[1..] == rest;
      assert ([a] + rest)[1..] == rest;
    }
  }

  /** Splitting, capitalising and joining computes the character-by-character caption. */
  lemma {:induction false} LabelMatchesCaption(s: string, wordStart: bool)
    ensures Strings.Join(CapitalizeFrom(wordStart, Strings.Split(s, '-')), ' ') == Caption(s, wordStart)
    ensures wordStart ==> CapitalizeFrom(wordStart, Strings.Split(s, '-')) == CapitalizeAll(Strings.Split(s, '-'))
  {
    var parts := Strings.Split(s, '-');
    assert wordStart ==> CapitalizeFrom(wordStart, parts) == CapitalizeAll(parts) by {
      if wordStart {
        assert parts == [parts[0]] + parts[1..];
      }
    }
    if |s| > 0 {
      var rest := Strings.Split(s[1..], '-');
      LabelMatchesCaption(s[1..], s[0] == '-');
      if s[0] == '-' {
        assert parts == [[]] + rest;
        assert parts[1..] == rest;
        var capped := CapitalizeFrom(wordStart, parts);
        assert capped == [[]] + CapitalizeAll(rest);
        assert capped[1..] == CapitalizeAll(rest);
      } else {
        assert parts == [[s[0]] + rest[0]] + rest[1..];
        assert parts[1..] == rest[1..];
        var c := if wordStart then UpperAscii(s[0]) else s[0];
        assert CapitalizeFrom(wordStart, parts) == [[c] + rest[0]] + CapitalizeAll(rest[1..]);
        JoinFirstCons(c, rest[0], CapitalizeAll(rest[1..]), ' ');
        assert CapitalizeFrom(false, rest) == [rest[0]] + CapitalizeAll(rest[1..]);
      }
    }
  }

  /**
   * Each caption character is fixed by the metric's character and whether it
   * starts a word. The metric is a parameter pinned by `requires` rather than
   * a literal argument because the verifier unfolds `Split` and `Join` on
   * literals eagerly, which exhausts its budget.
   */
  lemma CaptionOfScreenTime(m: string)
    requires m == "screen-time"
    ensures ButtonLabel(m) == "Screen Time"
  {
    var r := ButtonLabel(m);
    assert r[0] == 'S' && r[1] == 'c' && r[2] == 'r' && r[3] == 'e' && r[4] == 'e' && r[5] == 'n';
    assert r[6] == ' ' && r[7] == 'T' && r[8] == 'i' && r[9] == 'm' && r[10] == 'e';
  }

  lemma CaptionOfMood(m: string)
    requires m == "mood"
    ensures ButtonLabel(m) == "Mood"
  {
    var r := ButtonLabel(m);
    assert r[0] == 'M' && r[1] == 'o' && r[2] == 'o' && r[3] == 'd';
  }

  lemma CaptionOfFocus(m: string)
    requires m == "focus"
    ensures ButtonLabel(m) == "Focus"
  {
    var r := ButtonLabel(m);
    assert r[0] == 'F' && r[1] == 'o' && r[2] == 'c' && r[3] == 'u' && r[4] == 's';
  }

  /** The chart's metric name starts with the selected button's caption. */
  lemma TitleExtendsCaption(metric: string)
    requires metric == "screen-time" || metric == "mood" || metric == "focus"
    ensures var caption := ButtonLabel(metric);
      |caption| <= |MetricName(metric)| && MetricName(metric)[..|caption|] == caption
  {
    if metric == "screen-time" {
      CaptionOfScreenTime(metric);
    } else if metric == "mood" {
      CaptionOfMood(metric);
      assert MetricName(metric)[..4] == "Mood";
    } else {
      CaptionOfFocus(metric);
      assert MetricName(metric)[..5] == "Focus";
    }
  }
}
