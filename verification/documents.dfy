/** The text documents the chatbot indexes for retrieval, built from the
    usage log: one per (date, app) pair, one per busy (date, hour) slot and
    one per app, in that order. The three copies of `create_documents` differ
    only in the caption of the average-session field and in a guard on the
    session count; `Build` takes both as parameters. */
module Documents {
  import opened Decimal
  import opened UsageLog

  /** The metadata dictionary stored with a document; its `type` entry is
      determined by the constructor (see `TypeTag`). */
  datatype Meta =
    | DailyMeta(date: string, app: string, duration: nat)
    | HourlyMeta(date: string, hour: Hour, duration: nat)
    | AppMeta(app: string, totalDuration: nat, sessionCount: nat)

  datatype Doc = Doc(text: string, meta: Meta)

  function TypeTag(m: Meta): string {
    match m
    case DailyMeta(_, _, _) => "daily_usage"
    case HourlyMeta(_, _, _) => "hourly_activity"
    case AppMeta(_, _, _) => "app_summary"
  }

  /** Where a kind of document sits in the output. */
  function Stage(m: Meta): nat {
    match m
    case DailyMeta(_, _, _) => 0
    case HourlyMeta(_, _, _) => 1
    case AppMeta(_, _, _) => 2
  }

  /** How a `date` cell prints, both in the text and as `str(date)` in the
      metadata; dates are day numbers in this model. */
  type DateText = int -> string

  /** An hour slot gets a document only when its total exceeds five minutes. */
  const BusySeconds := 300

  const AverageLabel := "Average Session"
  const AvgLabel := "Avg Session"

  // ---------------------------------------------------------------------------
  // Texts

  function DailyText(date: string, app: string, duration: nat): string {
    "Date: " + date + ", App: " + app + ", Duration: " + NatStr(duration / 60) + " minutes "
      + NatStr(duration % 60) + " seconds"
  }

  /** The minutes and seconds a daily text shows add back up to the group's
      duration, and the seconds stay below a minute. */
  lemma DailyTextDuration(date: string, app: string, duration: nat)
    ensures exists ms: string, ss: string ::
      AllDigits(ms) && AllDigits(ss)
      && DailyText(date, app, duration)
         == "Date: " + date + ", App: " + app + ", Duration: " + ms + " minutes " + ss + " seconds"
      && DigitsValue(ms) * 60 + DigitsValue(ss) == duration && DigitsValue(ss) < 60
  {
    var ms, ss := NatStr(duration / 60), NatStr(duration % 60);
    assert DigitsValue(ms) * 60 + DigitsValue(ss) == duration;
  }

  function HourlyText(date: string, hour: Hour, duration: nat): string {
    "Date: " + date + ", Hour: " + NatStr(hour) + ":00, Total Activity: " + NatStr(duration / 60) + " minutes"
  }

  /** `(sum / count) // 60`: the mean session length in whole minutes. */
  function SessionMinutes(total: nat, count: nat): (v: nat)
    requires count > 0
    ensures v * (60 * count) <= total < (v + 1) * (60 * count)
  {
    total / (60 * count)
  }

  /** The float `(sum / count) // 60` prints with a trailing ".0". */
  function AverageSession(total: nat, count: nat): string
    requires count > 0
  {
    NatStr(SessionMinutes(total, count)) + ".0"
  }

  function AppText(caption: string, app: string, total: nat, average: string, count: nat): string {
    "App: " + app + ", Total Usage: " + NatStr(total / 60) + " minutes, " + caption + ": " + average
      + " minutes, Used " + NatStr(count) + " times"
  }

  // ---------------------------------------------------------------------------
  // Documents

  function DailyDoc(date: string, app: string, duration: nat): Doc {
    Doc(DailyText(date, app, duration), DailyMeta(date, app, duration))
  }

  function HourlyDoc(date: string, hour: Hour, duration: nat): Doc {
    Doc(HourlyText(date, hour, duration), HourlyMeta(date, hour, duration))
  }

  /** The summary of one app. With `guarded` the average falls back to `0`
      when the count is zero; without it the count must be positive (the
      division would raise otherwise). */
  function AppDoc(caption: string, guarded: bool, app: string, total: nat, count: nat): Doc
    requires guarded || count > 0
  {
    var average :=
      if !guarded then AverageSession(total, count)
      else if count > 0 then AverageSession(total, count)
      else "0";
    Doc(AppText(caption, app, total, average, count), AppMeta(app, total, count))
  }

  /** The text of an app summary with a positive count, read off its
      metadata. */
  function SummaryText(caption: string, m: Meta): string
    requires m.AppMeta? && m.sessionCount > 0
  {
    AppText(caption, m.app, m.totalDuration, AverageSession(m.totalDuration, m.sessionCount), m.sessionCount)
  }

  /** The two captions in use give different summaries of the same app: the
      texts part at the third character of the caption. */
  lemma CaptionsDiffer(m: Meta)
    requires m.AppMeta? && m.sessionCount > 0
    ensures SummaryText(AvgLabel, m) != SummaryText(AverageLabel, m)
  {
    var prefix := "App: " + m.app + ", Total Usage: " + NatStr(m.totalDuration / 60) + " minutes, ";
    var rest := ": " + AverageSession(m.totalDuration, m.sessionCount) + " minutes, Used " + NatStr(m.sessionCount) + " times";
    assert SummaryText(AvgLabel, m) == prefix + (AvgLabel + rest);
    assert SummaryText(AverageLabel, m) == prefix + (AverageLabel + rest);
    assert (prefix + (AvgLabel + rest))[|prefix| + 2] == 'g';
    assert (prefix + (AverageLabel + rest))[|prefix| + 2] == 'e';
  }

  predicate DateAppSeries(s: Series) {
    forall i :: 0 <= i < |s| ==> s[i].key.DateAppKey?
  }

  predicate DateHourSeries(s: Series) {
    forall i :: 0 <= i < |s| ==> s[i].key.DateHourKey?
  }

  predicate AppKeys(log: Log, ks: seq<Key>) {
    forall i :: 0 <= i < |ks| ==> ks[i].AppKey? && ks[i] in Keys(log, ByApp)
  }

  function DailyDocOf(show: DateText, e: Entry): Doc
    requires e.key.DateAppKey?
  {
    DailyDoc(show(e.key.date), e.key.app, e.value)
  }

  /** One daily document per row of `groupby(['date', 'app_name']).sum()`. */
  function DailyDocs(show: DateText, s: Series): (r: seq<Doc>)
    requires DateAppSeries(s)
    ensures |r| == |s|
    ensures forall i :: 0 <= i < |s| ==> r[i] == DailyDocOf(show, s[i])
  {
    seq(|s|, i requires 0 <= i < |s| => DailyDocOf(show, s[i]))
  }

  function HourlyDocOf(show: DateText, e: Entry): Doc
    requires e.key.DateHourKey?
  {
    HourlyDoc(show(e.key.date), e.key.hour, e.value)
  }

  /** The rows of `groupby(['date', 'hour']).sum()` above the threshold. */
  function HourlyDocs(show: DateText, s: Series): (r: seq<Doc>)
    requires DateHourSeries(s)
    ensures forall d :: d in r ==> d.meta.HourlyMeta? && d.meta.duration > BusySeconds
    ensures forall d :: d in r ==> exists e :: e in s && e.value > BusySeconds && d == HourlyDocOf(show, e)
    ensures forall e :: e in s && e.value > BusySeconds ==> HourlyDocOf(show, e) in r
  {
    if |s| == 0 then []
    else
      var rest := HourlyDocs(show, s[1..]);
      assert forall e :: e in s <==> e == s[0] || e in s[1..];
      (if s[0].value > BusySeconds then [HourlyDocOf(show, s[0])] else []) + rest
  }

  /** The labels of the entries above the threshold. */
  function BusyKeys(s: Series): set<Key> {
    set e | e in s && e.value > BusySeconds :: e.key
  }

  /** With distinct labels, the hourly documents are as many as the labels
      above the threshold. */
  lemma {:induction false} HourlyDocsCount(show: DateText, s: Series)
    requires DateHourSeries(s) && SortedSeries(s)
    ensures |HourlyDocs(show, s)| == |BusyKeys(s)|
    decreases |s|
  {
    if |s| > 0 {
      HourlyDocsCount(show, s[1..]);
      BusyKeysCons(s);
    }
  }

  /** The busy labels of a sorted series: its first label when that entry is
      busy, and, apart from it, the busy labels of the rest. */
  lemma BusyKeysCons(s: Series)
    requires |s| > 0 && SortedSeries(s)
    ensures BusyKeys(s) == (if s[0].value > BusySeconds then {s[0].key} else {}) + BusyKeys(s[1..])
    ensures s[0].key !in BusyKeys(s[1..])
  {
    var head := if s[0].value > BusySeconds then {s[0].key} else {};
    forall k ensures k in BusyKeys(s) <==> k in head + BusyKeys(s[1..]) {
      if k in BusyKeys(s) {
        var e :| e in s && e.value > BusySeconds && e.key == k;
        if e != s[0] {
          assert e in s[1..];
        }
      }
      if k in BusyKeys(s[1..]) {
        var e :| e in s[1..] && e.value > BusySeconds && e.key == k;
        assert e in s;
      }
    }
    forall e | e in s[1..] ensures e.key != s[0].key {
      var j :| 0 <= j < |s[1..]| && s[1..][j] == e;
      assert KeyLess(s[0].key, s[j + 1].key);
      KeyLessIrreflexive(s[0].key);
    }
  }

  function AppDocOf(log: Log, k: Key, caption: string, guarded: bool): (d: Doc)
    requires k.AppKey? && k in Keys(log, ByApp)
    ensures d.meta == AppMeta(k.app, GroupTotal(log, k, Seconds), GroupTotal(log, k, Rows))
    ensures d.meta.sessionCount >= 1
    ensures d.text == SummaryText(caption, d.meta)
  {
    PresentGroupNonEmpty(log, k);
    AppDoc(caption, guarded, k.app, GroupTotal(log, k, Seconds), GroupTotal(log, k, Rows))
  }

  /** The rows of `groupby('app_name').agg(['sum', 'count'])`, one per key. */
  function AppDocs(log: Log, ks: seq<Key>, caption: string, guarded: bool): (r: seq<Doc>)
    requires AppKeys(log, ks)
    ensures |r| == |ks|
    ensures forall i :: 0 <= i < |ks| ==> r[i] == AppDocOf(log, ks[i], caption, guarded)
  {
    seq(|ks|, i requires 0 <= i < |ks| => AppDocOf(log, ks[i], caption, guarded))
  }

  /** The labels of each grouping have that grouping's shape. */
  lemma KeyShapes(log: Log)
    ensures forall k :: k in Keys(log, ByDateApp) ==> k.DateAppKey?
    ensures forall k :: k in Keys(log, ByDateHour) ==> k.DateHourKey?
    ensures forall k :: k in Keys(log, ByApp) ==> k.AppKey?
  {
  }

  /** What `GroupBy` promises of a grouped series: its labels are the
      present ones, each with its group's total. */
  predicate GroupsOf(log: Log, g: Grouping, s: Series) {
    (forall i :: 0 <= i < |s| ==> s[i].key in Keys(log, g) && s[i].value == GroupTotal(log, s[i].key, Seconds))
    && (forall k :: k in Keys(log, g) ==> exists i :: 0 <= i < |s| && s[i].key == k)
  }

  // ---------------------------------------------------------------------------
  // Sums over the app summaries

  function SummaryWeight(m: Meta, measure: Measure): nat {
    match m
    case AppMeta(_, total, count) => if measure.Seconds? then total else count
    case _ => 0
  }

  /** The `total_duration` (or `session_count`) entries of the app summaries,
      added up. */
  function SummaryTotal(docs: seq<Doc>, measure: Measure): nat {
    if |docs| == 0 then 0 else SummaryWeight(docs[0].meta, measure) + SummaryTotal(docs[1..], measure)
  }

  lemma {:induction false} SummaryTotalAppend(a: seq<Doc>, b: seq<Doc>, measure: Measure)
    ensures SummaryTotal(a + b, measure) == SummaryTotal(a, measure) + SummaryTotal(b, measure)
    decreases |a|
  {
    if |a| > 0 {
      assert (a + b)[1..] == a[1..] + b;
      SummaryTotalAppend(a[1..], b, measure);
    } else {
      assert a + b == b;
    }
  }

  lemma {:induction false} SummaryTotalNone(docs: seq<Doc>, measure: Measure)
    requires forall d :: d in docs ==> !d.meta.AppMeta?
    ensures SummaryTotal(docs, measure) == 0
    decreases |docs|
  {
    if |docs| > 0 {
      assert docs[0] in docs;
      SummaryTotalNone(docs[1..], measure);
    }
  }

  /** Summaries whose weights follow a series add up to the series' sum. */
  lemma {:induction false} SummaryTotalSeries(docs: seq<Doc>, s: Series, measure: Measure)
    requires |docs| == |s|
    requires forall i :: 0 <= i < |s| ==> SummaryWeight(docs[i].meta, measure) == s[i].value
    ensures SummaryTotal(docs, measure) == SeriesSum(s)
    decreases |s|
  {
    if |s| > 0 {
      SummaryTotalSeries(docs[1..], s[1..], measure);
    }
  }

  lemma {:induction false} RowsTotal(log: Log)
    ensures Total(log, Rows) == |log|
    decreases |log|
  {
    if |log| > 0 {
      RowsTotal(log[1..]);
    }
  }

  // ---------------------------------------------------------------------------
  // The three parts of the output

  // ---------------------------------------------------------------------------
  // Counting documents by kind

  /** How many documents of `docs` sit at stage `stage` of the output. */
  function CountStage(docs: seq<Doc>, stage: nat): nat {
    if |docs| == 0 then 0 else (if Stage(docs[0].meta) == stage then 1 else 0) + CountStage(docs[1..], stage)
  }

  lemma {:induction false} CountStageAppend(a: seq<Doc>, b: seq<Doc>, stage: nat)
    ensures CountStage(a + b, stage) == CountStage(a, stage) + CountStage(b, stage)
    decreases |a|
  {
    if |a| > 0 {
      assert (a + b)[1..] == a[1..] + b;
      CountStageAppend(a[1..], b, stage);
    } else {
      assert a + b == b;
    }
  }

  /** Counting one stage over a list made of one stage only. */
  lemma {:induction false} CountStageUniform(docs: seq<Doc>, stage: nat, other: nat)
    requires forall d :: d in docs ==> Stage(d.meta) == other
    ensures CountStage(docs, stage) == if stage == other then |docs| else 0
    decreases |docs|
  {
    if |docs| > 0 {
      assert docs[0] in docs;
      CountStageUniform(docs[1..], stage, other);
    }
  }

  /** Stage `stage` of three parts of stages 0, 1 and 2. */
  lemma CountStageParts(a: seq<Doc>, b: seq<Doc>, c: seq<Doc>, stage: nat)
    requires forall d :: d in a ==> Stage(d.meta) == 0
    requires forall d :: d in b ==> Stage(d.meta) == 1
    requires forall d :: d in c ==> Stage(d.meta) == 2
    ensures CountStage(a + b + c, stage) == if stage == 0 then |a| else if stage == 1 then |b| else if stage == 2 then |c| else 0
  {
    CountStageAppend(a + b, c, stage);
    CountStageAppend(a, b, stage);
    CountStageUniform(a, stage, 0);
    CountStageUniform(b, stage, 1);
    CountStageUniform(c, stage, 2);
  }

  /** The (date, hour) groups whose total exceeds the threshold. */
  function BusySlots(log: Log): set<Key> {
    set k | k in Keys(log, ByDateHour) && GroupTotal(log, k, Seconds) > BusySeconds
  }

  /** The daily document of the (date, app) group. */
  function DailyDocFor(log: Log, show: DateText, date: int, app: string): Doc {
    DailyDoc(show(date), app, GroupTotal(log, DateAppKey(date, app), Seconds))
  }

  function HourSeconds(log: Log, date: int, hour: Hour): nat {
    GroupTotal(log, DateHourKey(date, hour), Seconds)
  }

  /** The hourly document of the (date, hour) group. */
  function HourlyDocFor(log: Log, show: DateText, date: int, hour: Hour): Doc {
    HourlyDoc(show(date), hour, HourSeconds(log, date, hour))
  }

  /** The metadata of an app's summary: its total seconds and row count. */
  function SummaryMeta(log: Log, app: string): Meta {
    AppMeta(app, GroupTotal(log, AppKey(app), Seconds), GroupTotal(log, AppKey(app), Rows))
  }

  lemma DailyDocsGroups(log: Log, show: DateText, s: Series)
    requires DateAppSeries(s) && GroupsOf(log, ByDateApp, s)
    ensures forall d :: d in DailyDocs(show, s) ==> d.meta.DailyMeta?
    ensures forall date, app :: DateAppKey(date, app) in Keys(log, ByDateApp) ==>
      DailyDocFor(log, show, date, app) in DailyDocs(show, s)
    ensures forall d :: d in DailyDocs(show, s) ==>
      exists date, app :: DateAppKey(date, app) in Keys(log, ByDateApp) && d == DailyDocFor(log, show, date, app)
  {
    var r := DailyDocs(show, s);
    forall date, app | DateAppKey(date, app) in Keys(log, ByDateApp) ensures DailyDocFor(log, show, date, app) in r {
      var i :| 0 <= i < |s| && s[i].key == DateAppKey(date, app);
      assert r[i] in r;
    }
    forall d | d in r
      ensures d.meta.DailyMeta?
      ensures exists date, app :: DateAppKey(date, app) in Keys(log, ByDateApp) && d == DailyDocFor(log, show, date, app)
    {
      var i :| 0 <= i < |r| && r[i] == d;
      assert s[i].key in Keys(log, ByDateApp);
      assert d == DailyDocFor(log, show, s[i].key.date, s[i].key.app);
    }
  }

  lemma HourlyDocsGroups(log: Log, show: DateText, s: Series)
    requires DateHourSeries(s) && GroupsOf(log, ByDateHour, s)
    ensures forall date, hour :: DateHourKey(date, hour) in Keys(log, ByDateHour) && HourSeconds(log, date, hour) > BusySeconds ==>
      HourlyDocFor(log, show, date, hour) in HourlyDocs(show, s)
    ensures forall d :: d in HourlyDocs(show, s) ==>
      exists date, hour :: DateHourKey(date, hour) in Keys(log, ByDateHour) && HourSeconds(log, date, hour) > BusySeconds
                           && d == HourlyDocFor(log, show, date, hour)
  {
    var r := HourlyDocs(show, s);
    forall date, hour | DateHourKey(date, hour) in Keys(log, ByDateHour) && HourSeconds(log, date, hour) > BusySeconds
      ensures HourlyDocFor(log, show, date, hour) in r
    {
      var i :| 0 <= i < |s| && s[i].key == DateHourKey(date, hour);
      assert s[i] in s && HourlyDocOf(show, s[i]) == HourlyDocFor(log, show, date, hour);
    }
    forall d | d in r
      ensures exists date, hour :: DateHourKey(date, hour) in Keys(log, ByDateHour) && HourSeconds(log, date, hour) > BusySeconds
                                   && d == HourlyDocFor(log, show, date, hour)
    {
      var e :| e in s && e.value > BusySeconds && d == HourlyDocOf(show, e);
      var i :| 0 <= i < |s| && s[i] == e;
      assert e.key in Keys(log, ByDateHour);
      assert d == HourlyDocFor(log, show, e.key.date, e.key.hour);
    }
  }

  lemma AppDocsGroups(log: Log, ks: seq<Key>, caption: string, guarded: bool)
    requires AppKeys(log, ks)
    requires forall k :: k in Keys(log, ByApp) ==> k in ks
    ensures forall app :: AppKey(app) in Keys(log, ByApp) ==>
      exists d :: d in AppDocs(log, ks, caption, guarded) && d.meta == SummaryMeta(log, app)
    ensures forall d :: d in AppDocs(log, ks, caption, guarded) ==>
      d.meta.AppMeta? && d.meta.sessionCount >= 1
      && exists app :: AppKey(app) in Keys(log, ByApp) && d.meta == SummaryMeta(log, app)
  {
    var r := AppDocs(log, ks, caption, guarded);
    forall app | AppKey(app) in Keys(log, ByApp) ensures exists d: Doc :: d in r && d.meta == SummaryMeta(log, app) {
      var i :| 0 <= i < |ks| && ks[i] == AppKey(app);
      assert r[i] in r;
    }
    forall d | d in r
      ensures d.meta.AppMeta? && d.meta.sessionCount >= 1
      ensures exists app :: AppKey(app) in Keys(log, ByApp) && d.meta == SummaryMeta(log, app)
    {
      var i :| 0 <= i < |r| && r[i] == d;
      assert ks[i] in Keys(log, ByApp) && d.meta == SummaryMeta(log, ks[i].app);
    }
  }

  /** The daily documents: exactly one per (date, app) group. */
  function DailyPart(log: Log, show: DateText): (r: seq<Doc>)
    ensures forall d :: d in r ==> d.meta.DailyMeta?
    ensures forall date, app :: DateAppKey(date, app) in Keys(log, ByDateApp) ==> DailyDocFor(log, show, date, app) in r
    ensures forall d :: d in r ==>
      exists date, app :: DateAppKey(date, app) in Keys(log, ByDateApp) && d == DailyDocFor(log, show, date, app)
  {
    KeyShapes(log);
    var s := GroupBy(log, ByDateApp, Seconds);
    DailyDocsGroups(log, show, s);
    DailyDocs(show, s)
  }

  /** The hourly documents: one per (date, hour) group above the threshold. */
  function HourlyPart(log: Log, show: DateText): (r: seq<Doc>)
    ensures forall d :: d in r ==> d.meta.HourlyMeta? && d.meta.duration > BusySeconds
    ensures forall date, hour :: DateHourKey(date, hour) in Keys(log, ByDateHour) && HourSeconds(log, date, hour) > BusySeconds ==>
      HourlyDocFor(log, show, date, hour) in r
    ensures forall d :: d in r ==>
      exists date, hour :: DateHourKey(date, hour) in Keys(log, ByDateHour) && HourSeconds(log, date, hour) > BusySeconds
                           && d == HourlyDocFor(log, show, date, hour)
  {
    KeyShapes(log);
    var s := GroupBy(log, ByDateHour, Seconds);
    HourlyDocsGroups(log, show, s);
    HourlyDocs(show, s)
  }

  /** The app summaries: one per app, carrying its group's seconds and row
      count. */
  function AppPart(log: Log, caption: string, guarded: bool): (r: seq<Doc>)
    ensures forall d :: d in r ==>
      d.meta.AppMeta? && d.meta.sessionCount >= 1
      && exists app :: AppKey(app) in Keys(log, ByApp) && d.meta == SummaryMeta(log, app)
    ensures forall app :: AppKey(app) in Keys(log, ByApp) ==> exists d :: d in r && d.meta == SummaryMeta(log, app)
  {
    KeyShapes(log);
    var ks := SortedKeys(log, ByApp);
    AppDocsGroups(log, ks, caption, guarded);
    AppDocs(log, ks, caption, guarded)
  }

  /** One daily document per (date, app) group. */
  lemma DailyPartCount(log: Log, show: DateText)
    ensures |DailyPart(log, show)| == |Keys(log, ByDateApp)|
  {
    KeyShapes(log);
    GroupByCount(log, ByDateApp, Seconds);
  }

  /** One hourly document per busy (date, hour) group. */
  lemma HourlyPartCount(log: Log, show: DateText)
    ensures |HourlyPart(log, show)| == |BusySlots(log)|
  {
    KeyShapes(log);
    var s := GroupBy(log, ByDateHour, Seconds);
    HourlyDocsCount(show, s);
    BusyKeysOfGroups(log, s);
  }

  /** One summary per app. */
  lemma AppPartCount(log: Log, caption: string, guarded: bool)
    ensures |AppPart(log, caption, guarded)| == |Keys(log, ByApp)|
  {
    KeyShapes(log);
    SortedCard(SortedKeys(log, ByApp), Keys(log, ByApp));
  }

  /** The busy labels of the (date, hour) series are the busy slots. */
  lemma BusyKeysOfGroups(log: Log, s: Series)
    requires GroupsOf(log, ByDateHour, s)
    ensures BusyKeys(s) == BusySlots(log)
  {
    forall k | k in BusySlots(log) ensures k in BusyKeys(s) {
      var i :| 0 <= i < |s| && s[i].key == k;
      assert s[i] in s;
    }
  }

  /** The app summaries' weights add up to the whole log's. */
  lemma AppPartTotals(log: Log, caption: string, guarded: bool, measure: Measure)
    ensures SummaryTotal(AppPart(log, caption, guarded), measure) == Total(log, measure)
  {
    KeyShapes(log);
    var ks := SortedKeys(log, ByApp);
    assert AppPart(log, caption, guarded) == AppDocs(log, ks, caption, guarded);
    AppDocsTotal(log, ks, caption, guarded, measure);
    assert AllOfGrouping(ks, ByApp);
    TabulateSum(log, ks, ByApp, measure);
  }

  /** Each summary row weighs what its group does. */
  lemma AppDocsTotal(log: Log, ks: seq<Key>, caption: string, guarded: bool, measure: Measure)
    requires AppKeys(log, ks)
    ensures SummaryTotal(AppDocs(log, ks, caption, guarded), measure) == SeriesSum(Tabulate(log, ks, measure))
  {
    var r := AppDocs(log, ks, caption, guarded);
    var s := Tabulate(log, ks, measure);
    forall i | 0 <= i < |s| ensures SummaryWeight(r[i].meta, measure) == s[i].value {
    }
    SummaryTotalSeries(r, s, measure);
  }

  /** `create_documents`: daily documents, then hourly ones, then app
      summaries. */
  function Build(log: Log, show: DateText, caption: string, guarded: bool): seq<Doc> {
    DailyPart(log, show) + HourlyPart(log, show) + AppPart(log, caption, guarded)
  }

  // ---------------------------------------------------------------------------
  // Properties of the built document list

  lemma StagesOrdered(a: seq<Doc>, b: seq<Doc>, c: seq<Doc>)
    requires forall d :: d in a ==> Stage(d.meta) == 0
    requires forall d :: d in b ==> Stage(d.meta) == 1
    requires forall d :: d in c ==> Stage(d.meta) == 2
    ensures forall i, j :: 0 <= i < j < |a + b + c| ==> Stage((a + b + c)[i].meta) <= Stage((a + b + c)[j].meta)
  {
    var r := a + b + c;
    forall i | 0 <= i < |r| ensures Stage(r[i].meta) == if i < |a| then 0 else if i < |a| + |b| then 1 else 2 {
      if i < |a| {
        assert r[i] == a[i] && a[i] in a;
      } else if i < |a| + |b| {
        assert r[i] == b[i - |a|] && b[i - |a|] in b;
      } else {
        assert r[i] == c[i - |a| - |b|] && c[i - |a| - |b|] in c;
      }
    }
  }

  /** Daily documents come first, then hourly ones, then app summaries. */
  lemma BuildOrdered(log: Log, show: DateText, caption: string, guarded: bool)
    ensures var r := Build(log, show, caption, guarded);
      forall i, j :: 0 <= i < j < |r| ==> Stage(r[i].meta) <= Stage(r[j].meta)
  {
    StagesOrdered(DailyPart(log, show), HourlyPart(log, show), AppPart(log, caption, guarded));
  }

  /** Every (date, app) group has its daily document, and every daily
      document belongs to such a group. */
  lemma BuildDaily(log: Log, show: DateText, caption: string, guarded: bool)
    ensures var r := Build(log, show, caption, guarded);
      (forall date, app :: DateAppKey(date, app) in Keys(log, ByDateApp) ==> DailyDocFor(log, show, date, app) in r)
      && (forall d :: d in r && d.meta.DailyMeta? ==>
            exists date, app :: DateAppKey(date, app) in Keys(log, ByDateApp) && d == DailyDocFor(log, show, date, app))
  {
    var a, b, c := DailyPart(log, show), HourlyPart(log, show), AppPart(log, caption, guarded);
    assert forall d: Doc :: d in a + b + c && d.meta.DailyMeta? ==> d in a;
  }

  /** A (date, hour) group has its hourly document exactly when its total
      exceeds the threshold; every hourly document belongs to such a group. */
  lemma BuildHourly(log: Log, show: DateText, caption: string, guarded: bool)
    ensures var r := Build(log, show, caption, guarded);
      (forall date, hour :: DateHourKey(date, hour) in Keys(log, ByDateHour) ==>
         (HourlyDocFor(log, show, date, hour) in r <==> HourSeconds(log, date, hour) > BusySeconds))
      && (forall d :: d in r && d.meta.HourlyMeta? ==>
            exists date, hour :: DateHourKey(date, hour) in Keys(log, ByDateHour) && HourSeconds(log, date, hour) > BusySeconds
                                 && d == HourlyDocFor(log, show, date, hour))
  {
    var a, b, c := DailyPart(log, show), HourlyPart(log, show), AppPart(log, caption, guarded);
    assert forall d: Doc :: d in a + b + c && d.meta.HourlyMeta? ==> d in b;
  }

  /** Every app has its summary, with the total seconds and row count of its
      group, and every summary belongs to an app; counts are at least one. */
  lemma BuildApps(log: Log, show: DateText, caption: string, guarded: bool)
    ensures var r := Build(log, show, caption, guarded);
      (forall app :: AppKey(app) in Keys(log, ByApp) ==> exists d :: d in r && d.meta == SummaryMeta(log, app))
      && (forall d :: d in r && d.meta.AppMeta? ==>
            d.meta.sessionCount >= 1 && exists app :: AppKey(app) in Keys(log, ByApp) && d.meta == SummaryMeta(log, app))
  {
    AppsOfStages(log, DailyPart(log, show), HourlyPart(log, show), AppPart(log, caption, guarded));
  }

  /** The app facts of the summary stage carry over to the whole list when
      the other two stages hold no summary. */
  lemma AppsOfStages(log: Log, a: seq<Doc>, b: seq<Doc>, c: seq<Doc>)
    requires forall d :: d in a ==> d.meta.DailyMeta?
    requires forall d :: d in b ==> d.meta.HourlyMeta?
    requires forall d :: d in c ==>
      d.meta.AppMeta? && d.meta.sessionCount >= 1
      && exists app :: AppKey(app) in Keys(log, ByApp) && d.meta == SummaryMeta(log, app)
    requires forall app :: AppKey(app) in Keys(log, ByApp) ==> exists d :: d in c && d.meta == SummaryMeta(log, app)
    ensures forall app :: AppKey(app) in Keys(log, ByApp) ==> exists d :: d in a + b + c && d.meta == SummaryMeta(log, app)
    ensures forall d :: d in a + b + c && d.meta.AppMeta? ==>
      d.meta.sessionCount >= 1 && exists app :: AppKey(app) in Keys(log, ByApp) && d.meta == SummaryMeta(log, app)
  {
    var r := a + b + c;
    forall app | AppKey(app) in Keys(log, ByApp) ensures exists d: Doc :: d in r && d.meta == SummaryMeta(log, app) {
      var d :| d in c && d.meta == SummaryMeta(log, app);
      assert d in r;
    }
    assert forall d: Doc :: d in r && d.meta.AppMeta? ==> d in c;
  }

  /** There are as many daily documents as (date, app) groups, as many
      hourly documents as busy (date, hour) groups and as many summaries as
      apps: with the three lemmas above, every group has exactly one. */
  lemma BuildCounts(log: Log, show: DateText, caption: string, guarded: bool)
    ensures CountStage(Build(log, show, caption, guarded), 0) == |Keys(log, ByDateApp)|
    ensures CountStage(Build(log, show, caption, guarded), 1) == |BusySlots(log)|
    ensures CountStage(Build(log, show, caption, guarded), 2) == |Keys(log, ByApp)|
  {
    var a, b, c := DailyPart(log, show), HourlyPart(log, show), AppPart(log, caption, guarded);
    DailyPartCount(log, show);
    HourlyPartCount(log, show);
    AppPartCount(log, caption, guarded);
    CountStageParts(a, b, c, 0);
    CountStageParts(a, b, c, 1);
    CountStageParts(a, b, c, 2);
  }

  /** The app summaries' `total_duration` entries add up to all recorded
      seconds and their `session_count` entries to the number of rows. */
  lemma BuildTotals(log: Log, show: DateText, caption: string, guarded: bool)
    ensures SummaryTotal(Build(log, show, caption, guarded), Seconds) == Total(log, Seconds)
    ensures SummaryTotal(Build(log, show, caption, guarded), Rows) == |log|
  {
    BuildTotal(log, show, caption, guarded, Seconds);
    BuildTotal(log, show, caption, guarded, Rows);
    RowsTotal(log);
  }

  /** Only the app summaries carry weight, and they carry the whole log's. */
  lemma BuildTotal(log: Log, show: DateText, caption: string, guarded: bool, measure: Measure)
    ensures SummaryTotal(Build(log, show, caption, guarded), measure) == Total(log, measure)
  {
    var a, b, c := DailyPart(log, show), HourlyPart(log, show), AppPart(log, caption, guarded);
    SummaryTotalAppend(a + b, c, measure);
    SummaryTotalAppend(a, b, measure);
    SummaryTotalNone(a, measure);
    SummaryTotalNone(b, measure);
    AppPartTotals(log, caption, guarded, measure);
  }

  // ---------------------------------------------------------------------------
  // The copies compared

  /** The app summaries of two builds, side by side: same metadata, and each
      text is its caption's summary of that metadata. */
  lemma AppPartsAlign(log: Log, caption1: string, guarded1: bool, caption2: string, guarded2: bool)
    ensures var p, q := AppPart(log, caption1, guarded1), AppPart(log, caption2, guarded2);
      |p| == |q|
      && forall i :: 0 <= i < |p| ==>
           p[i].meta == q[i].meta && p[i].meta.AppMeta? && p[i].meta.sessionCount > 0
           && p[i].text == SummaryText(caption1, p[i].meta) && q[i].text == SummaryText(caption2, q[i].meta)
  {
    KeyShapes(log);
    var ks := SortedKeys(log, ByApp);
    assert AppPart(log, caption1, guarded1) == AppDocs(log, ks, caption1, guarded1);
    assert AppPart(log, caption2, guarded2) == AppDocs(log, ks, caption2, guarded2);
  }

  /** The `count > 0` guard never fires: every app group has a row, so the
      guarded and unguarded builds agree. */
  lemma GuardUnreachable(log: Log, show: DateText, caption: string)
    ensures Build(log, show, caption, true) == Build(log, show, caption, false)
  {
    var p, q := AppPart(log, caption, true), AppPart(log, caption, false);
    AppPartsAlign(log, caption, true, caption, false);
    assert p == q;
  }

  /** Two builds with different captions agree everywhere except in the
      caption inside each app summary's text. */
  lemma CaptionOnly(log: Log, show: DateText, caption1: string, caption2: string)
    ensures var p, q := Build(log, show, caption1, false), Build(log, show, caption2, false);
      |p| == |q|
      && (forall i :: 0 <= i < |p| ==> p[i].meta == q[i].meta)
      && (forall i :: 0 <= i < |p| && !p[i].meta.AppMeta? ==> p[i].text == q[i].text)
      && (forall i :: 0 <= i < |p| && p[i].meta.AppMeta? ==>
            p[i].meta.sessionCount > 0
            && p[i].text == SummaryText(caption1, p[i].meta) && q[i].text == SummaryText(caption2, q[i].meta))
  {
    AppPartsAlign(log, caption1, false, caption2, false);
    SharedHead(DailyPart(log, show) + HourlyPart(log, show),
               AppPart(log, caption1, false), AppPart(log, caption2, false), caption1, caption2);
  }

  lemma SharedHead(h: seq<Doc>, c1: seq<Doc>, c2: seq<Doc>, caption1: string, caption2: string)
    requires forall d :: d in h ==> !d.meta.AppMeta?
    requires |c1| == |c2|
    requires forall i :: 0 <= i < |c1| ==>
      c1[i].meta == c2[i].meta && c1[i].meta.AppMeta? && c1[i].meta.sessionCount > 0
      && c1[i].text == SummaryText(caption1, c1[i].meta) && c2[i].text == SummaryText(caption2, c2[i].meta)
    ensures var p, q := h + c1, h + c2;
      |p| == |q|
      && (forall i :: 0 <= i < |p| ==> p[i].meta == q[i].meta)
      && (forall i :: 0 <= i < |p| && !p[i].meta.AppMeta? ==> p[i].text == q[i].text)
      && (forall i :: 0 <= i < |p| && p[i].meta.AppMeta? ==>
            p[i].meta.sessionCount > 0
            && p[i].text == SummaryText(caption1, p[i].meta) && q[i].text == SummaryText(caption2, q[i].meta))
  {
    var p, q := h + c1, h + c2;
    forall i | 0 <= i < |p|
      ensures p[i].meta == q[i].meta
      ensures !p[i].meta.AppMeta? ==> p[i].text == q[i].text
      ensures p[i].meta.AppMeta? ==>
        p[i].meta.sessionCount > 0
        && p[i].text == SummaryText(caption1, p[i].meta) && q[i].text == SummaryText(caption2, q[i].meta)
    {
      if i < |h| {
        assert p[i] == h[i] == q[i] && h[i] in h;
      } else {
        assert p[i] == c1[i - |h|] && q[i] == c2[i - |h|];
      }
    }
  }
}
