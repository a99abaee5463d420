/** `UsageDataRAG`: the chatbot's front door. A question is classified; a
    recognised question type is answered from the quick analysis of the log
    through a fixed template (or, for three types, through the language
    model), and anything else is answered by the language model from the
    documents the vector store retrieves. The store's search, the model and
    the printing of dates, floats and dictionaries are parameters. */
module UsageDataRag {
  import opened Outcomes
  import opened Strings
  import opened Decimal
  import opened UsageLog
  import opened RawRows
  import opened Documents
  import QuickQuestions
  import opened QuickAnalysis
  import LlmHandler
  import VectorStoreManager

  // ---------------------------------------------------------------------------
  // Loading

  /** `_load_usage_data`: the rows with a numeric duration, converted to
      records; a missing file or an unreadable timestamp gives an empty
      table. */
  function LoadUsageData(csv: Csv): (r: Log)
    ensures csv.None? ==> r == []
    ensures csv.Some? && (exists x :: x in csv.value && x.duration.Whole? && x.stamp.Unparsable?) ==> r == []
    ensures forall x :: x in r ==> exists y :: y in csv.value && y.duration.Whole? && y.stamp.At? && x == Convert(y)
    ensures csv.Some? && (forall y :: y in csv.value && y.duration.Whole? ==> y.stamp.At?) ==>
      var kept := KeepNumeric(csv.value);
      && |r| == |kept|
      && (forall i :: 0 <= i < |kept| ==> kept[i].stamp.At? && r[i] == Convert(kept[i]))
      && (forall y :: y in csv.value && y.duration.Whole? ==> Convert(y) in r)
  {
    match csv
    case None => []
    case Some(rows) =>
      var kept := KeepNumeric(rows);
      var loaded := ToLog(kept);
      assert loaded.Returned? ==> forall x :: x in loaded.value ==> exists y :: y in kept && x == Convert(y) by {
        if loaded.Returned? {
          forall x | x in loaded.value ensures exists y :: y in kept && x == Convert(y) {
            var i :| 0 <= i < |loaded.value| && loaded.value[i] == x;
            assert kept[i] in kept;
          }
        }
      }
      assert loaded.Returned? ==> forall y :: y in kept ==> Convert(y) in loaded.value by {
        if loaded.Returned? {
          forall y | y in kept ensures Convert(y) in loaded.value {
            var i :| 0 <= i < |kept| && kept[i] == y;
            assert loaded.value[i] == Convert(y);
          }
        }
      }
      OrEmpty(loaded)
  }

  // ---------------------------------------------------------------------------
  // Documents

  /** `_create_documents`: the unguarded build with the "Average Session"
      caption. */
  function CreateDocuments(log: Log, show: DateText): (r: seq<Doc>)
    ensures forall i :: 0 <= i < |r| && r[i].meta.AppMeta? ==>
      r[i].meta.sessionCount > 0 && r[i].text == SummaryText(AverageLabel, r[i].meta)
    ensures SummaryTotal(r, Seconds) == Total(log, Seconds) && SummaryTotal(r, Rows) == |log|
  {
    CaptionOnly(log, show, AverageLabel, AverageLabel);
    BuildTotals(log, show, AverageLabel, false);
    Build(log, show, AverageLabel, false)
  }

  // ---------------------------------------------------------------------------
  // Explaining a quick analysis

  /** How values without a fixed decimal form print: a date, a float share
      rounded to one decimal, and a whole result dictionary. */
  datatype Renderer = Renderer(date: int -> string, percent: Fraction -> string, result: Analysis -> string)

  const GeneralApology := "Sorry, an error occurred " + "while answering the general question."

  /** The prompt for the question types without a template. */
  function AnalysisPrompt(question: string, result: string): string {
    "\nUser asked the question: \"" + question + "\"\n\n"
    + "Python analysis gave the following result: " + result + "\n\n"
    + "Based on this data, generate a clear, friendly, and informative answer in English.\n"
    + "Express numbers in natural language and add extra comments if needed. \n"
  }

  /** One entry of the most-active-hours listing. */
  function HourItem(e: Entry): string
    requires e.key.HourKey?
  {
    NatStr(e.key.hour) + ":00 (" + NatStr(e.value) + " minutes)"
  }

  /** `", ".join(...)` over the listed hours, in the order listed. */
  function HourItems(s: Series): (r: string)
    requires forall x :: x in s ==> x.key.HourKey?
    ensures |s| == 0 <==> r == ""
    ensures |s| == 1 ==> r == HourItem(s[0])
  {
    if |s| == 0 then ""
    else if |s| == 1 then HourItem(s[0])
    else HourItem(s[0]) + ", " + HourItems(s[1..])
  }

  /** Every listed hour's entry appears in the listing. */
  lemma {:induction false} HourItemsContain(s: Series)
    requires forall x :: x in s ==> x.key.HourKey?
    ensures forall x :: x in s ==> Contains(HourItems(s), HourItem(x))
  {
    if |s| > 0 {
      var head, r := HourItem(s[0]), HourItems(s);
      assert OccursAt(head, head, 0);
      if |s| > 1 {
        var rest := HourItems(s[1..]);
        HourItemsContain(s[1..]);
        assert r == (head + ", ") + rest;
        ContainsPrefix(head, ", " + rest, head);
        assert head + (", " + rest) == r;
        forall x | x in s[1..] ensures Contains(r, HourItem(x)) {
          ContainsAfter(head + ", ", rest, HourItem(x));
        }
        assert forall x :: x in s ==> x == s[0] || x in s[1..];
      }
    }
  }

  /** The listing of `s + t` is the listing of `s`, a `", "` separator and
      the listing of `t`: with the one-entry case, every entry appears once,
      in the order listed, separated by `", "`. */
  lemma {:induction false} HourItemsAppend(s: Series, t: Series)
    requires forall x :: x in s ==> x.key.HourKey?
    requires forall x :: x in t ==> x.key.HourKey?
    requires |s| > 0 && |t| > 0
    ensures HourItems(s + t) == HourItems(s) + ", " + HourItems(t)
  {
    var st := s + t;
    assert st[0] == s[0];
    if |s| == 1 {
      assert st[1..] == t;
    } else {
      assert st[1..] == s[1..] + t;
      HourItemsAppend(s[1..], t);
    }
  }

  /** The result types answered by a template rather than by the model. */
  predicate Templated(a: Analysis) {
    a.Failure? || a.AppRanking? || a.HourlyPattern? || a.WeeklyProductivity? || a.MostFocusedDay?
  }

  /** `_generate_explanation_from_analysis`: an error payload becomes an
      apology quoting it, four types fill a template, and the other three are
      handed to the model with the printed result. */
  function Explain(a: Analysis, question: string, llm: LlmHandler.Backend, render: Renderer): (r: string)
    requires WellFormed(a)
    ensures a.Failure? ==> r == "Sorry, " + a.error
    ensures !Templated(a) ==>
      r == LlmHandler.GenerateSimpleResponse(llm, AnalysisPrompt(question, render.result(a)))
    ensures !Templated(a) && llm(LlmHandler.Prompt("", AnalysisPrompt(question, render.result(a)))).Raised? ==>
      r == LlmHandler.Apology
    ensures a.HourlyPattern? ==> forall x :: x in a.mostActiveHours ==> Contains(r, HourItem(x))
  {
    if a.Failure? then "Sorry, " + a.error
    else if Templated(a) then Template(a, render)
    else LlmHandler.GenerateSimpleResponse(llm, AnalysisPrompt(question, render.result(a)))
  }

  /** The four templates, each filled from its result's fields. */
  function Template(a: Analysis, render: Renderer): (r: string)
    requires WellFormed(a) && Templated(a) && !a.Failure?
    ensures a.HourlyPattern? ==> forall x :: x in a.mostActiveHours ==> Contains(r, HourItem(x))
  {
    match a
    case AppRanking(app, minutes, _, share) => RankingText(app, minutes, render.percent(share))
    case HourlyPattern(_, hour, minutes, active) => PatternText(hour, minutes, active)
    case WeeklyProductivity(_, _, hours, rem, apps) => ProductivityText(hours, rem, apps)
    case MostFocusedDay(day, _, _, hours, rem) => FocusedText(render.date(day), hours, rem)
  }

  function RankingText(app: string, minutes: nat, share: string): string {
    "You used " + app + " the most today, for about " + NatStr(minutes) + " minutes, which is "
    + share + "% of your total usage."
  }

  /** The hourly answer: the peak hour, then every listed hour. */
  function PatternText(hour: Hour, minutes: nat, active: Series): (r: string)
    requires forall x :: x in active ==> x.key.HourKey?
    ensures forall x :: x in active ==> Contains(r, HourItem(x))
  {
    var items := HourItems(active);
    var head := "Your most active hour was " + NatStr(hour) + ":00 with " + NatStr(minutes)
      + " minutes of usage. Other active hours include: ";
    var r := head + (items + ".");
    HourItemsContain(active);
    forall x | x in active ensures Contains(r, HourItem(x)) {
      ContainsPrefix(items, ".", HourItem(x));
      ContainsSuffix(r, |head|, HourItem(x));
    }
    r
  }

  function ProductivityText(hours: nat, rem: nat, apps: nat): string {
    "This week, you were productive for " + NatStr(hours) + " hours and " + NatStr(rem) + " minutes, using "
    + NatStr(apps) + " different apps."
  }

  function FocusedText(day: string, hours: nat, rem: nat): string {
    "You were most focused on " + day + ", spending " + NatStr(hours) + " hours and "
    + NatStr(rem) + " minutes working."
  }

  /** Templated answers never consult the model. */
  lemma TemplatesIgnoreModel(a: Analysis, question: string, llm1: LlmHandler.Backend, llm2: LlmHandler.Backend, render: Renderer)
    requires WellFormed(a) && Templated(a)
    ensures Explain(a, question, llm1, render) == Explain(a, question, llm2, render)
  {
  }

  /** The ranking answer reads back the top app and its whole minutes. */
  lemma RankingReadBack(a: Analysis, question: string, llm: LlmHandler.Backend, render: Renderer)
    requires a.AppRanking?
    ensures exists ms: string ::
      AllDigits(ms) && DigitsValue(ms) == a.topMinutes
      && Explain(a, question, llm, render)
         == "You used " + a.topApp + " the most today, for about " + ms + " minutes, which is "
            + render.percent(a.percentage) + "% of your total usage."
  {
    var ms := NatStr(a.topMinutes);
    assert DigitsValue(ms) == a.topMinutes;
  }

  /** The hourly answer reads back the peak hour and its minutes, then the
      listing of the most active hours. */
  lemma PatternReadBack(a: Analysis, question: string, llm: LlmHandler.Backend, render: Renderer)
    requires a.HourlyPattern? && WellFormed(a)
    ensures exists hs: string, ms: string ::
      AllDigits(hs) && AllDigits(ms) && DigitsValue(hs) == a.peakHour && DigitsValue(ms) == a.peakMinutes
      && Explain(a, question, llm, render)
         == "Your most active hour was " + hs + ":00 with " + ms + " minutes of usage. Other active hours include: "
            + HourItems(a.mostActiveHours) + "."
  {
    var hs, ms := NatStr(a.peakHour), NatStr(a.peakMinutes);
    assert DigitsValue(hs) == a.peakHour && DigitsValue(ms) == a.peakMinutes;
  }

  /** The productivity answer reads back hours and minutes that add up to
      the week's whole minutes, and the number of apps. */
  lemma ProductivityReadBack(a: Analysis, question: string, llm: LlmHandler.Backend, render: Renderer)
    requires a.WeeklyProductivity? && ClockOf(a.totalSeconds, a.totalMinutes, a.totalHours, a.remainingMinutes)
    ensures exists hs: string, ms: string, cs: string ::
      AllDigits(hs) && AllDigits(ms) && AllDigits(cs)
      && Explain(a, question, llm, render)
         == "This week, you were productive for " + hs + " hours and " + ms + " minutes, using " + cs + " different apps."
      && DigitsValue(hs) * 60 + DigitsValue(ms) == a.totalMinutes && DigitsValue(ms) < 60
      && DigitsValue(cs) == a.appCount
  {
    var hs, ms, cs := NatStr(a.totalHours), NatStr(a.remainingMinutes), NatStr(a.appCount);
    assert DigitsValue(hs) * 60 + DigitsValue(ms) == a.totalMinutes;
  }

  /** The focused-day answer names the day and reads back hours and minutes
      that add up to that day's whole minutes. */
  lemma FocusedReadBack(a: Analysis, question: string, llm: LlmHandler.Backend, render: Renderer)
    requires a.MostFocusedDay? && ClockOf(a.totalSeconds, a.totalMinutes, a.totalHours, a.remainingMinutes)
    ensures exists hs: string, ms: string ::
      AllDigits(hs) && AllDigits(ms)
      && Explain(a, question, llm, render)
         == "You were most focused on " + render.date(a.day) + ", spending " + hs + " hours and " + ms + " minutes working."
      && DigitsValue(hs) * 60 + DigitsValue(ms) == a.totalMinutes && DigitsValue(ms) < 60
  {
    var hs, ms := NatStr(a.totalHours), NatStr(a.remainingMinutes);
    assert DigitsValue(hs) * 60 + DigitsValue(ms) == a.totalMinutes;
  }

  // ---------------------------------------------------------------------------
  // Answering

  /** The quick path of `answer_question` for a recognised question type
      `kind`: only an empty weekly trend raises, and every answer is
      stripped. */
  function QuickAnswer(question: string, kind: QuickQuestions.Intent, log: Log, today: int,
                       llm: LlmHandler.Backend, render: Renderer): (r: Outcome<string>)
    requires kind != QuickQuestions.General
    ensures r.Returned? ==> Trimmed(r.value)
    ensures r.Raised? <==> kind == QuickQuestions.WeeklyTrend && |log| > 0 && forall x :: x in log ==> x.date < WeekStart(today)
    ensures |log| == 0 ==> r == Returned("Sorry, No data found")
    ensures r.Returned? ==>
      var a := PerformQuickAnalysis(log, QuickQuestions.Name(kind), today);
      a.Returned? && WellFormed(a.value) && r.value == Strip(Explain(a.value, question, llm, render))
  {
    QuickRaises(log, kind, today);
    match PerformQuickAnalysis(log, QuickQuestions.Name(kind), today)
    case Raised => Raised
    case Returned(a) =>
      NoDataAnswer(question, llm, render);
      Returned(Strip(Explain(a, question, llm, render)))
  }

  /** Of the recognised types, only `weekly_trend` can make the analysis
      raise. */
  lemma QuickRaises(log: Log, kind: QuickQuestions.Intent, today: int)
    requires kind != QuickQuestions.General
    ensures PerformQuickAnalysis(log, QuickQuestions.Name(kind), today).Raised? <==>
      kind == QuickQuestions.WeeklyTrend && |log| > 0 && forall x :: x in log ==> x.date < WeekStart(today)
  {
    if QuickQuestions.Name(kind) == "weekly_trend" {
      QuickQuestions.NameInjective(kind, QuickQuestions.WeeklyTrend);
    }
  }

  /** The general path of `answer_question`: retrieval, then the model with
      the retrieved text as context; a failing search becomes an apology. */
  function GeneralAnswer(question: string, search: VectorStoreManager.Search, llm: LlmHandler.Backend): (r: string)
    ensures Trimmed(r)
    ensures search(question, VectorStoreManager.DefaultResults).Raised? ==> r == GeneralApology
    ensures search(question, VectorStoreManager.DefaultResults).Returned? ==>
      var context := VectorStoreManager.QueryRelevantDocs(search, question);
      context.Returned? && r == Strip(LlmHandler.GenerateResponse(llm, context.value, question))
  {
    match VectorStoreManager.QueryRelevantDocs(search, question)
    case Raised =>
      ApologyFixed();
      GeneralApology
    case Returned(context) => Strip(LlmHandler.GenerateResponse(llm, context, question))
  }

  /** `answer_question(question)`: `log` is what the loader returned, and
      `today` the current day. A recognised question takes the quick path,
      which lets the exception of an empty weekly trend through; any other
      question takes the general path, which never raises. */
  function AnswerQuestion(question: string, log: Log, today: int, search: VectorStoreManager.Search,
                          llm: LlmHandler.Backend, render: Renderer): (r: Outcome<string>)
    ensures r.Returned? ==> Trimmed(r.value)
    ensures r.Raised? <==>
      QuickQuestions.Classify(question) == QuickQuestions.WeeklyTrend
      && |log| > 0 && forall x :: x in log ==> x.date < WeekStart(today)
    ensures QuickQuestions.Classify(question) != QuickQuestions.General ==>
      r == QuickAnswer(question, QuickQuestions.Classify(question), log, today, llm, render)
    ensures QuickQuestions.Classify(question) == QuickQuestions.General ==>
      r == Returned(GeneralAnswer(question, search, llm))
  {
    var intent := QuickQuestions.Classify(question);
    if intent != QuickQuestions.General then QuickAnswer(question, intent, log, today, llm, render)
    else Returned(GeneralAnswer(question, search, llm))
  }

  lemma ApologyFixed()
    ensures Strip(GeneralApology) == GeneralApology
  {
    assert GeneralApology[0] == 'S' && GeneralApology[|GeneralApology| - 1] == '.';
    StripFixed(GeneralApology);
  }

  /** The answer to any recognised question about an empty log. */
  lemma NoDataAnswer(question: string, llm: LlmHandler.Backend, render: Renderer)
    ensures Strip(Explain(Failure("No data found"), question, llm, render)) == "Sorry, No data found"
  {
    var s := "Sorry, No data found";
    assert "Sorry, " + "No data found" == s;
    assert s[0] == 'S' && s[|s| - 1] == 'd';
    StripFixed(s);
  }

  /** A fixed message that starts and ends with a visible character is left
      alone by `strip()`. */
  lemma StripFixed(s: string)
    requires |s| > 0 && !IsSpace(s[0]) && !IsSpace(s[|s| - 1])
    ensures Strip(s) == s
  {
    var i, j :| 0 <= i <= j <= |s| && Strip(s) == s[i..j] && AllSpace(s[..i]) && AllSpace(s[j..]);
    if i > 0 {
      assert s[..i][0] == s[0];
    }
    if j < |s| {
      assert s[j..][|s| - 1 - j] == s[|s| - 1];
    }
  }

  /** A recognised question never reaches the vector store: the answer is
      the same whatever the search would return. */
  lemma QuickPathIgnoresStore(question: string, log: Log, today: int, search1: VectorStoreManager.Search,
                              search2: VectorStoreManager.Search, llm: LlmHandler.Backend, render: Renderer)
    requires QuickQuestions.Classify(question) != QuickQuestions.General
    ensures AnswerQuestion(question, log, today, search1, llm, render)
         == AnswerQuestion(question, log, today, search2, llm, render)
  {
  }

  /** A recognised question whose analysis is an error payload is answered
      by the apology quoting it, and the model is not consulted. */
  lemma ErrorAnswer(question: string, log: Log, today: int, search: VectorStoreManager.Search,
                    llm: LlmHandler.Backend, render: Renderer)
    requires QuickQuestions.Classify(question) != QuickQuestions.General
    requires var a := PerformQuickAnalysis(log, QuickQuestions.Name(QuickQuestions.Classify(question)), today);
      a.Returned? && a.value.Failure?
    ensures var a := PerformQuickAnalysis(log, QuickQuestions.Name(QuickQuestions.Classify(question)), today);
      AnswerQuestion(question, log, today, search, llm, render) == Returned(Strip("Sorry, " + a.value.error))
  {
  }
}
