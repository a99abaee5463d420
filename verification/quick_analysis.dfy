/** `perform_quick_analysis`: the answer to each recognised question type,
    computed straight from the usage log as exact grouped sums, maxima and
    minima, with the error payloads of the source. The current day is a
    parameter rather than a clock reading. */
module QuickAnalysis {

  import opened Outcomes
  import opened Strings
  import opened UsageLog
  import QuickQuestions

  /** A float the source obtains by dividing, kept as the exact fraction
      `num / den` (a percentage is this fraction times 100, then rounded);
      `Zero` is the literal `0` the source uses when `den` would be zero. */
  datatype Fraction = Zero | Fraction(num: int, den: nat)

  datatype Trend = Increase | Decrease | Same

  /** The result dictionaries, one constructor per question type, plus the
      `{"error": ...}` payload. */
  datatype Analysis =
    | Failure(error: string)
    | DailyTotal(totalSeconds: nat, totalMinutes: nat, totalHours: nat, remainingMinutes: nat,
                 appCount: nat, mostUsedToday: Option<string>)
    | AppRanking(topApp: string, topMinutes: nat, totalDurationMinutes: nat, percentage: Fraction)
    | YesterdayComparison(todayMinutes: nat, yesterdayMinutes: nat, changeMinutes: int,
                          changePercent: Fraction, trend: Trend)
    | WeeklyTrend(dailyTotals: Series, averageDaily: Fraction, peakDay: int, peakMinutes: nat,
                  lowestDay: int, lowestMinutes: nat)
    | HourlyPattern(hourlyData: Series, peakHour: Hour, peakMinutes: nat, mostActiveHours: Series)
    | WeeklyProductivity(totalSeconds: nat, totalMinutes: nat, totalHours: nat, remainingMinutes: nat,
                         appCount: nat)
    | MostFocusedDay(day: int, totalSeconds: nat, totalMinutes: nat, totalHours: nat, remainingMinutes: nat)

  /** The question type a result answers; an error payload answers none. */
  function Kind(a: Analysis): Option<QuickQuestions.Intent> {
    match a
    case Failure(_) => None
    case DailyTotal(_, _, _, _, _, _) => Some(QuickQuestions.DailyTotal)
    case AppRanking(_, _, _, _) => Some(QuickQuestions.AppRanking)
    case YesterdayComparison(_, _, _, _, _) => Some(QuickQuestions.YesterdayComparison)
    case WeeklyTrend(_, _, _, _, _, _) => Some(QuickQuestions.WeeklyTrend)
    case HourlyPattern(_, _, _, _) => Some(QuickQuestions.HourlyPattern)
    case WeeklyProductivity(_, _, _, _, _) => Some(QuickQuestions.WeeklyProductivity)
    case MostFocusedDay(_, _, _, _, _) => Some(QuickQuestions.MostFocusedDay)
  }

  /** `a` is a result of the kind `kind` asks for. */
  predicate Answers(a: Analysis, kind: QuickQuestions.Intent) {
    && (kind.DailyTotal? ==> a.DailyTotal?)
    && (kind.AppRanking? ==> a.AppRanking?)
    && (kind.YesterdayComparison? ==> a.YesterdayComparison?)
    && (kind.WeeklyTrend? ==> a.WeeklyTrend?)
    && (kind.HourlyPattern? ==> a.HourlyPattern?)
    && (kind.WeeklyProductivity? ==> a.WeeklyProductivity?)
    && (kind.MostFocusedDay? ==> a.MostFocusedDay?)
    && !kind.General?
  }

  lemma AnswersKind(a: Analysis, kind: QuickQuestions.Intent)
    requires Answers(a, kind)
    ensures Kind(a) == Some(kind)
    ensures TypeName(a) == Some(QuickQuestions.Name(kind))
  {
  }

  /** The listed most active hours are keyed by hour of day, as every
      hourly result built here is. */
  predicate WellFormed(a: Analysis) {
    a.HourlyPattern? ==> forall x :: x in a.mostActiveHours ==> x.key.HourKey?
  }

  /** The `'type'` entry of a result dictionary. */
  function TypeName(a: Analysis): Option<string> {
    match Kind(a)
    case None => None
    case Some(i) => Some(QuickQuestions.Name(i))
  }

  // ---------------------------------------------------------------------------
  // Reference quantities, stated directly on the log

  /** Seconds logged on day `d`. */
  function DaySeconds(log: Log, d: int): nat {
    GroupTotal(log, DateKey(d), Seconds)
  }

  /** Seconds logged on day `d` in app `a`. */
  function AppDaySeconds(log: Log, d: int, a: string): nat {
    GroupTotal(log, DateAppKey(d, a), Seconds)
  }

  /** Seconds logged in hour-of-day `h`, over all days. */
  function HourSeconds(log: Log, h: Hour): nat {
    GroupTotal(log, HourKey(h), Seconds)
  }

  predicate LoggedOn(log: Log, d: int) {
    exists r :: r in log && r.date == d
  }

  /** The weekly questions keep every row dated on or after this day; there
      is no upper bound, so rows dated after today count too. */
  function WeekStart(today: int): int {
    today - 7
  }

  /** `m`, `h` and `rem` are the whole minutes of `s`, the whole hours of
      `m` and the minutes left over, as floor division gives them. */
  predicate ClockOf(s: nat, m: nat, h: nat, rem: nat) {
    m * 60 <= s < m * 60 + 60 && h * 60 + rem == m && rem < 60
  }

  /** `a` is used on day `d` and no app used that day has a larger total. */
  predicate TopAppOn(log: Log, d: int, a: string) {
    && (exists r :: r in log && r.date == d && r.app == a)
    && (forall r :: r in log && r.date == d ==> AppDaySeconds(log, d, r.app) <= AppDaySeconds(log, d, a))
  }

  // ---------------------------------------------------------------------------
  // Grouped series and their extrema

  /** Whether a series holds seconds or seconds floored to whole minutes. */
  datatype Unit = InSeconds | InMinutes

  function Per(v: nat, u: Unit): nat {
    match u
    case InSeconds => v
    case InMinutes => v / 60
  }

  /** Flooring to minutes keeps the order of totals. */
  lemma PerMonotone(a: nat, b: nat, u: Unit)
    requires a <= b
    ensures Per(a, u) <= Per(b, u)
  {
  }

  /** `s` lists exactly the groups of `log` under `g`, each with its seconds
      total in unit `u`. */
  ghost predicate Lists(s: Series, log: Log, g: Grouping, u: Unit) {
    forall x :: x in s <==> x.key in Keys(log, g) && x.value == Per(GroupTotal(log, x.key, Seconds), u)
  }

  lemma GroupByLists(log: Log, g: Grouping)
    ensures Lists(GroupBy(log, g, Seconds), log, g, InSeconds)
  {
    GroupByMembers(log, g, Seconds);
  }

  lemma MinutesLists(s: Series, log: Log, g: Grouping)
    requires Lists(s, log, g, InSeconds) && SortedSeries(s)
    ensures Lists(Minutes(s), log, g, InMinutes)
  {
    var t := Minutes(s);
    forall x | x in t ensures x.key in Keys(log, g) && x.value == Per(GroupTotal(log, x.key, Seconds), InMinutes) {
      var i :| 0 <= i < |t| && t[i] == x;
      assert s[i] in s;
    }
    forall x: Entry | x.key in Keys(log, g) && x.value == Per(GroupTotal(log, x.key, Seconds), InMinutes) ensures x in t {
      var y := Entry(x.key, GroupTotal(log, x.key, Seconds));
      assert y in s;
      var i :| 0 <= i < |s| && s[i] == y;
      assert t[i] == x;
    }
  }

  /** `s` holds one entry per day from `start` on with rows, valued by the
      day's seconds in unit `u`. */
  ghost predicate DayListing(s: Series, log: Log, start: int, u: Unit) {
    forall x :: x in s <==>
      x.key.DateKey? && x.key.date >= start && LoggedOn(log, x.key.date) && x.value == Per(DaySeconds(log, x.key.date), u)
  }

  /** `s` holds one entry per hour of day with rows, valued by the hour's
      seconds in unit `u`. */
  ghost predicate HourListing(s: Series, log: Log, u: Unit) {
    forall x :: x in s <==>
      x.key.HourKey? && (exists r :: r in log && r.hour == x.key.hour) && x.value == Per(HourSeconds(log, x.key.hour), u)
  }

  /** `s` holds one entry per app used on day `d`, valued by its seconds. */
  ghost predicate AppListing(s: Series, log: Log, d: int) {
    forall x :: x in s <==>
      x.key.AppKey? && (exists r :: r in log && r.date == d && r.app == x.key.app) && x.value == AppDaySeconds(log, d, x.key.app)
  }

  /** Grouping the rows from `start` on by day lists the logged days. */
  lemma ListsDays(s: Series, log: Log, start: int, u: Unit)
    requires Lists(s, Select(log, Since(start)), ByDate, u)
    ensures DayListing(s, log, start, u)
  {
    var rows := Select(log, Since(start));
    SelectKeys(log, Since(start), ByDate);
    forall x | x in s ensures x.key.DateKey? && x.key.date >= start && LoggedOn(log, x.key.date) {
      var r :| r in log && InWindow(r, Since(start)) && KeyOf(r, ByDate) == x.key;
    }
    forall x: Entry | x.key.DateKey? && x.key.date >= start && LoggedOn(log, x.key.date) ensures x.key in Keys(rows, ByDate) {
      var r :| r in log && r.date == x.key.date;
      assert KeyOf(r, ByDate) == x.key;
    }
    forall d | d >= start ensures GroupTotal(rows, DateKey(d), Seconds) == DaySeconds(log, d) {
      SelectGroupTotal(log, Since(start), DateKey(d), Seconds);
    }
  }

  /** Grouping the log by hour of day lists the hours with rows. */
  lemma ListsHours(s: Series, log: Log, u: Unit)
    requires Lists(s, log, ByHour, u)
    ensures HourListing(s, log, u)
  {
    KeysMembers(log, ByHour);
    forall x: Entry | x.key.HourKey? && (exists r :: r in log && r.hour == x.key.hour) ensures x.key in Keys(log, ByHour) {
      var r :| r in log && r.hour == x.key.hour;
      assert KeyOf(r, ByHour) == x.key;
    }
  }

  /** Grouping one day's rows by app lists the apps used that day. */
  lemma ListsApps(s: Series, log: Log, d: int)
    requires Lists(s, Select(log, OnDate(d)), ByApp, InSeconds)
    ensures AppListing(s, log, d)
  {
    var rows := Select(log, OnDate(d));
    SelectKeys(log, OnDate(d), ByApp);
    forall x | x in s ensures x.key.AppKey? && (exists r :: r in log && r.date == d && r.app == x.key.app) {
      var r :| r in log && InWindow(r, OnDate(d)) && KeyOf(r, ByApp) == x.key;
    }
    forall x: Entry | x.key.AppKey? && (exists r :: r in log && r.date == d && r.app == x.key.app) ensures x.key in Keys(rows, ByApp) {
      var r :| r in log && r.date == d && r.app == x.key.app;
      assert KeyOf(r, ByApp) == x.key;
    }
    forall a ensures GroupTotal(rows, AppKey(a), Seconds) == AppDaySeconds(log, d, a) {
      SelectDayAppTotal(log, d, a, Seconds);
    }
  }

  /** Whether a filtered log is empty. */
  lemma SelectEmpty(log: Log, w: Window)
    ensures |Select(log, w)| == 0 <==> forall r :: r in log ==> !InWindow(r, w)
  {
    var t := Select(log, w);
    if |t| > 0 {
      assert t[0] in t;
    }
  }

  /** The first whole-minute, whole-hour breakdown of a seconds total. */
  lemma Clock(s: nat)
    ensures ClockOf(s, s / 60, s / 60 / 60, s / 60 % 60)
  {
  }

  // ---------------------------------------------------------------------------
  // The branches

  /** `daily_total`: today's seconds with their clock breakdown, the number
      of distinct apps used today, and the top app of today if any. */
  function DailyTotalOf(log: Log, today: int): (r: Analysis)
    ensures r.DailyTotal?
    ensures r.totalSeconds == DaySeconds(log, today)
    ensures ClockOf(r.totalSeconds, r.totalMinutes, r.totalHours, r.remainingMinutes)
    ensures r.appCount == |AppsIn(log, OnDate(today))|
    ensures r.mostUsedToday.None? <==> !LoggedOn(log, today)
    ensures r.mostUsedToday.Some? ==> TopAppOn(log, today, r.mostUsedToday.value)
    ensures r.mostUsedToday.Some? ==> forall x :: x in log && x.date == today && StrLess(x.app, r.mostUsedToday.value)
                                        ==> AppDaySeconds(log, today, x.app) < AppDaySeconds(log, today, r.mostUsedToday.value)
  {
    var rows := Select(log, OnDate(today));
    SelectDateTotal(log, today, Seconds);
    SelectAppNames(log, OnDate(today));
    SelectEmpty(log, OnDate(today));
    var secs := Total(rows, Seconds);
    Clock(secs);
    var most := if |rows| == 0 then None else Some(TopApp(log, today));
    DailyTotal(secs, secs / 60, secs / 60 / 60, secs / 60 % 60, |AppNames(rows)|, most)
  }

  /** The app `groupby('app_name')['duration'].sum().idxmax()` picks among
      today's rows: a top app, the smallest name among tied ones. */
  function TopApp(log: Log, today: int): (a: string)
    requires LoggedOn(log, today)
    ensures TopAppOn(log, today, a)
    ensures forall x :: x in log && x.date == today && StrLess(x.app, a)
                        ==> AppDaySeconds(log, today, x.app) < AppDaySeconds(log, today, a)
  {
    var rows := Select(log, OnDate(today));
    SelectEmpty(log, OnDate(today));
    var s := GroupBy(rows, ByApp, Seconds);
    GroupByLists(rows, ByApp);
    ListsApps(s, log, today);
    assert |s| > 0 by {
      var r :| r in log && r.date == today;
      assert Entry(AppKey(r.app), AppDaySeconds(log, today, r.app)) in s;
    }
    var e := MaxEntry(s);
    TopAppMax(s, log, today, e);
    e.key.app
  }

  /** The largest entry of a sorted app listing is a top app, and beats
      every app with a smaller name. */
  lemma TopAppMax(s: Series, log: Log, d: int, e: Entry)
    requires AppListing(s, log, d) && SortedSeries(s) && |s| > 0 && e == MaxEntry(s)
    ensures e.key.AppKey? && TopAppOn(log, d, e.key.app)
    ensures forall x :: x in log && x.date == d && StrLess(x.app, e.key.app)
                        ==> AppDaySeconds(log, d, x.app) < AppDaySeconds(log, d, e.key.app)
  {
    forall x | x in log && x.date == d ensures Entry(AppKey(x.app), AppDaySeconds(log, d, x.app)) in s { }
  }

  /** `app_ranking`: the top app of today with its minutes, today's minutes,
      and the app's share of today's seconds. The guard on an empty ranking
      after a non-empty day cannot fire. */
  function AppRankingOf(log: Log, today: int): (r: Analysis)
    ensures r.Failure? <==> !LoggedOn(log, today)
    ensures r.Failure? ==> r.error == "No usage data found for today"
    ensures !r.Failure? ==> r.AppRanking?
    ensures r.AppRanking? ==>
      var top := AppDaySeconds(log, today, r.topApp);
      var all := DaySeconds(log, today);
      && TopAppOn(log, today, r.topApp)
      && r.topMinutes * 60 <= top < r.topMinutes * 60 + 60
      && r.totalDurationMinutes * 60 <= all < r.totalDurationMinutes * 60 + 60
      && top <= all
      && r.percentage == (if all > 0 then Fraction(top, all) else Zero)
  {
    var rows := Select(log, OnDate(today));
    SelectEmpty(log, OnDate(today));
    if |rows| == 0 then Failure("No usage data found for today")
    else
      var a := TopApp(log, today);
      var top := AppDaySeconds(log, today, a);
      SelectDateTotal(log, today, Seconds);
      DayAppWithinDay(log, today, a, Seconds);
      var all := Total(rows, Seconds);
      AppRanking(a, top / 60, all / 60, if all > 0 then Fraction(top, all) else Zero)
  }

  /** `yesterday_comparison`: whole minutes of today and of yesterday, each
      floored on its own, their difference and its sign. */
  function YesterdayComparisonOf(log: Log, today: int): (r: Analysis)
    ensures r.YesterdayComparison?
    ensures r.todayMinutes * 60 <= DaySeconds(log, today) < r.todayMinutes * 60 + 60
    ensures r.yesterdayMinutes * 60 <= DaySeconds(log, today - 1) < r.yesterdayMinutes * 60 + 60
    ensures r.todayMinutes == r.yesterdayMinutes + r.changeMinutes
    ensures r.trend == Increase <==> r.todayMinutes > r.yesterdayMinutes
    ensures r.trend == Decrease <==> r.todayMinutes < r.yesterdayMinutes
    ensures r.yesterdayMinutes == 0 <==> r.changePercent == Zero
    ensures r.yesterdayMinutes > 0 ==> r.changePercent == Fraction(r.changeMinutes, r.yesterdayMinutes)
  {
    SelectDateTotal(log, today, Seconds);
    SelectDateTotal(log, today - 1, Seconds);
    var t := Total(Select(log, OnDate(today)), Seconds) / 60;
    var y := Total(Select(log, OnDate(today - 1)), Seconds) / 60;
    var change := t - y;
    YesterdayComparison(t, y, change, if y > 0 then Fraction(change, y) else Zero,
                        if change > 0 then Increase else if change < 0 then Decrease else Same)
  }

  /** `weekly_trend`: whole minutes per day from `WeekStart(today)` on, with
      the first peak day and the first lowest day. `idxmax` on an empty
      series raises, and nothing catches it. */
  function WeeklyTrendOf(log: Log, today: int): (r: Outcome<Analysis>)
    ensures r.Raised? <==> forall x :: x in log ==> x.date < WeekStart(today)
    ensures r.Returned? ==> r.value.WeeklyTrend?
    ensures r.Returned? ==>
      var a := r.value;
      && SortedSeries(a.dailyTotals)
      && DayListing(a.dailyTotals, log, WeekStart(today), InMinutes)
      && Entry(DateKey(a.peakDay), a.peakMinutes) in a.dailyTotals
      && Entry(DateKey(a.lowestDay), a.lowestMinutes) in a.dailyTotals
      && (forall x :: x in a.dailyTotals ==> a.lowestMinutes <= x.value <= a.peakMinutes)
      && (forall x :: x in a.dailyTotals && x.key.DateKey? && x.key.date < a.peakDay ==> x.value < a.peakMinutes)
      && (forall x :: x in a.dailyTotals && x.key.DateKey? && x.key.date < a.lowestDay ==> a.lowestMinutes < x.value)
      && a.averageDaily == Fraction(SeriesSum(a.dailyTotals), |a.dailyTotals|)
  {
    var s := DayMinutesSince(log, WeekStart(today));
    if |s| == 0 then Raised else Returned(TrendOf(s))
  }

  /** `week_data.groupby('date')['duration'].sum() // 60`: one entry per day
      from `start` on with rows, in date order; empty exactly when no row is
      dated from `start` on. */
  function DayMinutesSince(log: Log, start: int): (s: Series)
    ensures SortedSeries(s) && DayListing(s, log, start, InMinutes)
    ensures |s| == 0 <==> forall x :: x in log ==> x.date < start
  {
    var rows := Select(log, Since(start));
    SelectEmpty(log, Since(start));
    var g := GroupBy(rows, ByDate, Seconds);
    GroupByLists(rows, ByDate);
    GroupByMembers(rows, ByDate, Seconds);
    var s := Minutes(g);
    MinutesLists(g, rows, ByDate);
    ListsDays(s, log, start, InMinutes);
    s
  }

  /** The weekly trend of a non-empty day listing: the listing, its mean,
      and its first peak and first lowest day. */
  function TrendOf(s: Series): (a: Analysis)
    requires |s| > 0 && SortedSeries(s) && forall x :: x in s ==> x.key.DateKey?
    ensures a.WeeklyTrend? && a.dailyTotals == s
    ensures Entry(DateKey(a.peakDay), a.peakMinutes) in s && Entry(DateKey(a.lowestDay), a.lowestMinutes) in s
    ensures forall x :: x in s ==> a.lowestMinutes <= x.value <= a.peakMinutes
    ensures forall x :: x in s && x.key.DateKey? && x.key.date < a.peakDay ==> x.value < a.peakMinutes
    ensures forall x :: x in s && x.key.DateKey? && x.key.date < a.lowestDay ==> a.lowestMinutes < x.value
    ensures a.averageDaily == Fraction(SeriesSum(s), |s|)
  {
    FirstDayExtremes(s);
    var peak, low := MaxEntry(s), MinEntry(s);
    WeeklyTrend(s, Fraction(SeriesSum(s), |s|), peak.key.date, peak.value, low.key.date, low.value)
  }

  /** In a listing sorted by day, the first maximiser has every earlier day
      strictly below it and the first minimiser every earlier day strictly
      above it: `idxmax` and `idxmin` break ties towards the earliest day. */
  lemma FirstDayExtremes(s: Series)
    requires |s| > 0 && SortedSeries(s) && forall x :: x in s ==> x.key.DateKey?
    ensures MaxEntry(s).key.DateKey? && MinEntry(s).key.DateKey?
    ensures forall x :: x in s && x.key.date < MaxEntry(s).key.date ==> x.value < MaxEntry(s).value
    ensures forall x :: x in s && x.key.date < MinEntry(s).key.date ==> MinEntry(s).value < x.value
  {
    var hi, lo := MaxEntry(s), MinEntry(s);
    forall x | x in s && x.key.date < hi.key.date ensures x.value < hi.value {
      assert KeyLess(x.key, hi.key);
    }
    forall x | x in s && x.key.date < lo.key.date ensures lo.value < x.value {
      assert KeyLess(x.key, lo.key);
    }
  }

  /** `hourly_pattern`: whole minutes per hour of day over the whole log, the
      first peak hour, and the three largest hours. */
  function HourlyPatternOf(log: Log): (r: Analysis)
    requires |log| > 0
    ensures r.HourlyPattern?
    ensures SortedSeries(r.hourlyData) && HourListing(r.hourlyData, log, InMinutes)
    ensures Entry(HourKey(r.peakHour), r.peakMinutes) in r.hourlyData
    ensures forall x :: x in r.hourlyData ==> x.value <= r.peakMinutes
    ensures forall x :: x in r.hourlyData && x.key.hour < r.peakHour ==> x.value < r.peakMinutes
    ensures forall x :: x in r.mostActiveHours ==> x in r.hourlyData
    ensures WellFormed(r)
  {
    var s := HourlyMinutes(log);
    FirstPeakHour(s);
    var peak := MaxEntry(s);
    HourlyPattern(s, peak.key.hour, peak.value, NLargest(s, 3))
  }

  /** In a listing sorted by hour, the first maximiser has every earlier
      hour strictly below it. */
  lemma FirstPeakHour(s: Series)
    requires |s| > 0 && SortedSeries(s) && forall x :: x in s ==> x.key.HourKey?
    ensures MaxEntry(s).key.HourKey?
    ensures forall x :: x in s && x.key.hour < MaxEntry(s).key.hour ==> x.value < MaxEntry(s).value
  {
    var e := MaxEntry(s);
    forall x | x in s && x.key.hour < e.key.hour ensures x.value < e.value {
      assert KeyLess(x.key, e.key);
    }
  }

  /** `df.groupby('hour')['duration'].sum() // 60`: one entry per hour of
      day with rows, in hour order. */
  function HourlyMinutes(log: Log): (s: Series)
    ensures SortedSeries(s) && HourListing(s, log, InMinutes) && DistinctEntries(s)
    ensures forall x :: x in s ==> x.key.HourKey?
    ensures |log| > 0 ==> |s| > 0
  {
    var g := GroupBy(log, ByHour, Seconds);
    GroupByLists(log, ByHour);
    var s := Minutes(g);
    MinutesLists(g, log, ByHour);
    ListsHours(s, log, InMinutes);
    SortedSeriesDistinct(s);
    assert |log| > 0 ==> Entry(HourKey(log[0].hour), Per(HourSeconds(log, log[0].hour), InMinutes)) in s;
    s
  }

  /** `most_active_hours`: the three largest hours (fewer when fewer hours
      have rows), largest first, none smaller than an hour left out; tied
      hours are settled by hour, earliest first, as `keep='first'` does. */
  lemma MostActiveHours(log: Log)
    requires |log| > 0
    ensures var r := HourlyPatternOf(log);
      && |r.mostActiveHours| == Min(3, |r.hourlyData|)
      && Descending(r.mostActiveHours)
      && (forall x, y :: x in r.hourlyData && x !in r.mostActiveHours && y in r.mostActiveHours ==> x.value <= y.value)
      && TiesKeptFirst(r.hourlyData, r.mostActiveHours)
      && TiesInOrder(r.mostActiveHours)
  {
    var s := HourlyMinutes(log);
    var top := NLargest(s, 3);
    NLargestTies(s, 3);
  }

  /** `weekly_productivity`: the seconds logged from `WeekStart(today)` on,
      their clock breakdown, and the distinct apps among those rows. */
  function WeeklyProductivityOf(log: Log, today: int): (r: Analysis)
    ensures r.WeeklyProductivity?
    ensures r.totalSeconds == Total(Select(log, Since(WeekStart(today))), Seconds)
    ensures r.totalSeconds == SeriesSum(DayTotalsSince(log, WeekStart(today)))
    ensures ClockOf(r.totalSeconds, r.totalMinutes, r.totalHours, r.remainingMinutes)
    ensures r.appCount == |AppsIn(log, Since(WeekStart(today)))|
  {
    var rows := Select(log, Since(WeekStart(today)));
    SelectAppNames(log, Since(WeekStart(today)));
    var secs := Total(rows, Seconds);
    Clock(secs);
    GroupBySum(rows, ByDate, Seconds);
    WeeklyProductivity(secs, secs / 60, secs / 60 / 60, secs / 60 % 60, |AppNames(rows)|)
  }

  /** `most_focused_day`: the first day from `WeekStart(today)` on with the
      largest seconds total, and that total's clock breakdown. */
  function MostFocusedDayOf(log: Log, today: int): (r: Analysis)
    ensures r.Failure? <==> forall x :: x in log ==> x.date < WeekStart(today)
    ensures r.Failure? ==> r.error == "No data for the last week"
    ensures !r.Failure? ==> r.MostFocusedDay?
    ensures r.MostFocusedDay? ==>
      && r.day >= WeekStart(today) && LoggedOn(log, r.day)
      && r.totalSeconds == DaySeconds(log, r.day)
      && ClockOf(r.totalSeconds, r.totalMinutes, r.totalHours, r.remainingMinutes)
      && (forall x :: x in log && x.date >= WeekStart(today) ==> DaySeconds(log, x.date) <= r.totalSeconds)
      && (forall x :: x in log && WeekStart(today) <= x.date < r.day ==> DaySeconds(log, x.date) < r.totalSeconds)
  {
    var start := WeekStart(today);
    var rows := Select(log, Since(start));
    SelectEmpty(log, Since(start));
    if |rows| == 0 then Failure("No data for the last week")
    else
      var e := FocusedEntry(log, start);
      var secs := e.value;
      Clock(secs);
      MostFocusedDay(e.key.date, secs, secs / 60, secs / 60 / 60, secs / 60 % 60)
  }

  /** `week_data.groupby('date')['duration'].sum()`: one entry per day from
      `start` on with rows, in date order. */
  function DayTotalsSince(log: Log, start: int): (s: Series)
    ensures SortedSeries(s) && DayListing(s, log, start, InSeconds)
    ensures (exists x :: x in log && x.date >= start) ==> |s| > 0
  {
    var rows := Select(log, Since(start));
    var s := GroupBy(rows, ByDate, Seconds);
    GroupByLists(rows, ByDate);
    ListsDays(s, log, start, InSeconds);
    assert (exists x :: x in log && x.date >= start) ==> |s| > 0 by {
      if x :| x in log && x.date >= start {
        assert Entry(DateKey(x.date), DaySeconds(log, x.date)) in s;
      }
    }
    s
  }

  /** `daily_totals.idxmax()` with its total: the first day from `start` on
      with the largest seconds. */
  function FocusedEntry(log: Log, start: int): (e: Entry)
    requires exists x :: x in log && x.date >= start
    ensures e.key.DateKey? && e.key.date >= start && LoggedOn(log, e.key.date)
    ensures e.value == DaySeconds(log, e.key.date)
    ensures forall x :: x in log && x.date >= start ==> DaySeconds(log, x.date) <= e.value
    ensures forall x :: x in log && start <= x.date < e.key.date ==> DaySeconds(log, x.date) < e.value
  {
    var s := DayTotalsSince(log, start);
    var e := MaxEntry(s);
    FocusedDayMax(s, log, start, e);
    e
  }

  /** The largest entry of a sorted day listing beats every day before it
      and is never beaten. */
  lemma FocusedDayMax(s: Series, log: Log, start: int, e: Entry)
    requires DayListing(s, log, start, InSeconds) && SortedSeries(s) && |s| > 0 && e == MaxEntry(s)
    ensures forall x :: x in log && x.date >= start ==> DaySeconds(log, x.date) <= e.value
    ensures forall x :: x in log && start <= x.date < e.key.date ==> DaySeconds(log, x.date) < e.value
  {
    forall x | x in log && x.date >= start ensures Entry(DateKey(x.date), DaySeconds(log, x.date)) in s { }
  }

  // ---------------------------------------------------------------------------
  // The dispatcher

  /** The branch for a question type on a non-empty log. */
  function Answer(log: Log, kind: QuickQuestions.Intent, today: int): (r: Outcome<Analysis>)
    requires |log| > 0 && !kind.General?
    ensures r.Raised? <==> kind.WeeklyTrend? && forall x :: x in log ==> x.date < WeekStart(today)
    ensures r.Returned? && r.value.Failure? ==>
      r.value.error in {"No usage data found for today", "No data for the last week"}
    ensures r.Returned? && !r.value.Failure? ==> Answers(r.value, kind)
    ensures r.Returned? ==> WellFormed(r.value)
  {
    if kind.DailyTotal? || kind.AppRanking? || kind.YesterdayComparison? then Returned(AnswerDay(log, kind, today))
    else if kind.WeeklyTrend? then WeeklyTrendOf(log, today)
    else Returned(AnswerWeek(log, kind, today))
  }

  /** The branches about today (and yesterday). */
  function AnswerDay(log: Log, kind: QuickQuestions.Intent, today: int): (r: Analysis)
    requires kind.DailyTotal? || kind.AppRanking? || kind.YesterdayComparison?
    ensures r.Failure? ==> r.error == "No usage data found for today"
    ensures !r.Failure? ==> Answers(r, kind)
    ensures WellFormed(r)
  {
    if kind.DailyTotal? then DailyTotalOf(log, today)
    else if kind.AppRanking? then AppRankingOf(log, today)
    else YesterdayComparisonOf(log, today)
  }

  /** The remaining branches that cannot raise. */
  function AnswerWeek(log: Log, kind: QuickQuestions.Intent, today: int): (r: Analysis)
    requires |log| > 0 && (kind.HourlyPattern? || kind.WeeklyProductivity? || kind.MostFocusedDay?)
    ensures r.Failure? ==> r.error == "No data for the last week"
    ensures !r.Failure? ==> Answers(r, kind)
    ensures WellFormed(r)
  {
    if kind.HourlyPattern? then HourlyPatternOf(log)
    else if kind.WeeklyProductivity? then WeeklyProductivityOf(log, today)
    else MostFocusedDayOf(log, today)
  }

  /** `perform_quick_analysis(df, question_type, question)`: an empty log is
      an error for every type; otherwise the branch named by the type, or
      the unknown-type error. */
  function PerformQuickAnalysis(log: Log, questionType: string, today: int): (r: Outcome<Analysis>)
    ensures |log| == 0 ==> r == Returned(Failure("No data found"))
    ensures r.Raised? <==> |log| > 0 && questionType == "weekly_trend" && forall x :: x in log ==> x.date < WeekStart(today)
    ensures r.Returned? && r.value.Failure? && |log| > 0 ==>
      r.value.error in {"Unknown question type", "No usage data found for today", "No data for the last week"}
    ensures r.Returned? && !r.value.Failure? ==> TypeName(r.value) == Some(questionType)
    ensures |log| > 0 && questionType !in KnownTypes ==> r == Returned(Failure("Unknown question type"))
    ensures r.Returned? ==> WellFormed(r.value)
  {
    if |log| == 0 then Returned(Failure("No data found"))
    else
      var kind := QuickQuestions.ParseIntent(questionType);
      if kind == None || kind.value.General? then Returned(Failure("Unknown question type"))
      else
        var r := Answer(log, kind.value, today);
        if r.Returned? && !r.value.Failure? then AnswersKind(r.value, kind.value); r else r
  }

  /** The branch each question type names: the table the dispatcher's
      `if` chain implements. */
  function Branch(log: Log, kind: QuickQuestions.Intent, today: int): Outcome<Analysis>
    requires |log| > 0 && !kind.General?
  {
    match kind
    case DailyTotal => Returned(DailyTotalOf(log, today))
    case AppRanking => Returned(AppRankingOf(log, today))
    case YesterdayComparison => Returned(YesterdayComparisonOf(log, today))
    case WeeklyTrend => WeeklyTrendOf(log, today)
    case HourlyPattern => Returned(HourlyPatternOf(log))
    case WeeklyProductivity => Returned(WeeklyProductivityOf(log, today))
    case MostFocusedDay => Returned(MostFocusedDayOf(log, today))
  }

  /** On a non-empty log, the type named by an intent other than `general`
      runs that intent's branch. */
  lemma DispatchBranch(log: Log, kind: QuickQuestions.Intent, today: int)
    requires |log| > 0 && !kind.General?
    ensures PerformQuickAnalysis(log, QuickQuestions.Name(kind), today) == Branch(log, kind, today)
  {
    QuickQuestions.ParseName(kind);
  }

  /** The question types with a branch of their own. */
  const KnownTypes: set<string> :=
    {"daily_total", "app_ranking", "yesterday_comparison", "weekly_trend",
     "hourly_pattern", "weekly_productivity", "most_focused_day"}
}
