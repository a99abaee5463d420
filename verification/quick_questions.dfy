/** The question classifier: an ordered table of intents, each owning a list
    of regular-expression patterns, tested in a fixed priority order against
    the lower-cased question. */
module QuickQuestions {

  import opened Outcomes
  import opened Strings

  datatype Intent =
    | MostFocusedDay
    | DailyTotal
    | AppRanking
    | YesterdayComparison
    | WeeklyTrend
    | HourlyPattern
    | WeeklyProductivity
    | General

  /** The category string the source passes around for each intent. */
  function Name(i: Intent): string {
    match i
    case MostFocusedDay => "most_focused_day"
    case DailyTotal => "daily_total"
    case AppRanking => "app_ranking"
    case YesterdayComparison => "yesterday_comparison"
    case WeeklyTrend => "weekly_trend"
    case HourlyPattern => "hourly_pattern"
    case WeeklyProductivity => "weekly_productivity"
    case General => "general"
  }

  /** The intent a category string names, if any. */
  function ParseIntent(s: string): (r: Option<Intent>)
    ensures r.Some? ==> Name(r.value) == s
    ensures r.None? ==> forall i: Intent :: Name(i) != s
  {
    if s == "most_focused_day" then Some(MostFocusedDay)
    else if s == "daily_total" then Some(DailyTotal)
    else if s == "app_ranking" then Some(AppRanking)
    else if s == "yesterday_comparison" then Some(YesterdayComparison)
    else if s == "weekly_trend" then Some(WeeklyTrend)
    else if s == "hourly_pattern" then Some(HourlyPattern)
    else if s == "weekly_productivity" then Some(WeeklyProductivity)
    else if s == "general" then Some(General)
    else None
  }

  lemma ParseName(i: Intent)
    ensures ParseIntent(Name(i)) == Some(i)
  {
  }

  /** Distinct intents have distinct category strings. */
  lemma NameInjective(i: Intent, j: Intent)
    requires Name(i) == Name(j)
    ensures i == j
  {
    ParseName(i);
    ParseName(j);
  }

  /** A pattern `p0.*p1.*...` as its literal pieces. None of the table's
      patterns uses any other regular-expression operator. */
  type Pattern = seq<string>

  /** `quick_question_patterns`: the table of patterns per intent; `general`
      owns none (`patterns.get(category, [])`). */
  function Patterns(i: Intent): seq<Pattern> {
    match i
    case MostFocusedDay => [
      ["which day", "most focused"],
      ["most focused day"],
      ["focus", "day"],
      ["most productive day"],
      ["best focused day"]]
    case DailyTotal => [
      ["today", "total"],
      ["daily", "total"],
      ["today", "how many minutes"],
      ["how much", "today"]]
    case AppRanking => [
      ["most", "used"],
      ["which app", "most"],
      ["top", "app"],
      ["most", "frequent"],
      ["most used app"],
      ["which app did i use most"],
      ["what app", "most"],
      ["what", "top", "app"]]
    case YesterdayComparison => [
      ["yesterday", "today"],
      ["compare", "yesterday"],
      ["difference", "yesterday"],
      ["change", "yesterday"]]
    case WeeklyTrend => [
      ["week", "trend"],
      ["weekly", "usage"],
      ["last", "week"],
      ["past", "week"],
      ["weekly", "pattern"]]
    case HourlyPattern => [
      ["which hour", "most"],
      ["peak", "hour"],
      ["time", "active"],
      ["hour", "usage"],
      ["most active hour"],
      ["active hours"]]
    case WeeklyProductivity => [
      ["productive", "week"],
      ["how productive", "week"],
      ["weekly", "productivity"],
      ["week", "usage"]]
    case General => []
  }

  /** `priority_order`: the order in which intents are tried. */
  const PriorityOrder: seq<Intent> :=
    [MostFocusedDay, DailyTotal, AppRanking, YesterdayComparison,
     WeeklyTrend, HourlyPattern, WeeklyProductivity]

  function Priority(i: Intent): nat {
    match i
    case MostFocusedDay => 0
    case DailyTotal => 1
    case AppRanking => 2
    case YesterdayComparison => 3
    case WeeklyTrend => 4
    case HourlyPattern => 5
    case WeeklyProductivity => 6
    case General => 7
  }

  lemma PriorityOrderIndex(i: Intent)
    ensures i != General ==> Priority(i) < |PriorityOrder| && PriorityOrder[Priority(i)] == i
    ensures i == General <==> i !in PriorityOrder
  {
  }

  // ---------------------------------------------------------------------------
  // What `re.search` means for a pattern of pieces

  /** No newline among the first `k` characters of `s`. */
  predicate LineFree(s: string, k: nat) {
    forall j :: 0 <= j < k && j < |s| ==> s[j] != '\n'
  }

  /** The remaining pieces occur in order in `s`, the first of them after a
      newline-free stretch (`.` does not match a newline), and so on. */
  ghost predicate Gapped(s: string, ps: Pattern)
    decreases |ps|, 1
  {
    |ps| == 0 || exists k: nat | k <= |s| :: PieceAt(s, ps, k)
  }

  /** The first piece occurs at `k` after a newline-free stretch, and the
      remaining pieces follow it. */
  ghost predicate PieceAt(s: string, ps: Pattern, k: nat)
    requires |ps| > 0
    decreases |ps|, 0
  {
    k <= |s| && LineFree(s, k) && OccursAt(s, ps[0], k) && Gapped(s[k + |ps[0]|..], ps[1..])
  }

  /** A match of the whole pattern whose first piece starts at `i`. */
  ghost predicate StartsAt(q: string, ps: Pattern, i: nat)
    requires |ps| > 0
  {
    OccursAt(q, ps[0], i) && Gapped(q[i + |ps[0]|..], ps[1..])
  }

  /** `re.search(pattern, q)` succeeds: the first piece occurs anywhere and
      the rest follow it on the same line. */
  ghost predicate Search(q: string, ps: Pattern) {
    |ps| == 0 || exists i: nat | i <= |q| :: StartsAt(q, ps, i)
  }

  // ---------------------------------------------------------------------------
  // Executable matching, trying every start position as a backtracking
  // regular-expression engine does

  /** The remaining pieces match `s`, skipping only non-newline characters
      before each piece. */
  function GappedMatch(s: string, ps: Pattern): bool
    decreases |ps|, |s|
  {
    if |ps| == 0 then true
    else
      (OccursAt(s, ps[0], 0) && GappedMatch(s[|ps[0]|..], ps[1..]))
      || (|s| > 0 && s[0] != '\n' && GappedMatch(s[1..], ps))
  }

  lemma GappedWitness(s: string, ps: Pattern)
    requires |ps| > 0 && Gapped(s, ps)
    ensures exists k: nat | k <= |s| :: PieceAt(s, ps, k)
  {
  }

  /** A match of the pieces at position `k` of `s[1..]` is a match at
      position `k + 1` of `s`, when `s[0]` is not a newline. */
  lemma {:induction false} GappedShift(s: string, ps: Pattern)
    requires |ps| > 0 && |s| > 0 && s[0] != '\n'
    ensures Gapped(s[1..], ps) ==> Gapped(s, ps)
  {
    if Gapped(s[1..], ps) {
      var p, t := ps[0], s[1..];
      GappedWitness(t, ps);
      var k: nat :| k <= |t| && PieceAt(t, ps, k);
      SliceOfSuffix(s, 1, k, k + |p|);
      SuffixOfSuffix(s, 1, k + |p|);
      assert PieceAt(s, ps, k + 1);
    }
  }

  /** A match that does not start at position 0 skips a non-newline first
      character. */
  lemma {:induction false} GappedUnshift(s: string, ps: Pattern, k: nat)
    requires |ps| > 0 && 0 < k <= |s|
    requires PieceAt(s, ps, k)
    ensures s[0] != '\n' && Gapped(s[1..], ps)
  {
    var p, t := ps[0], s[1..];
    SliceOfSuffix(s, 1, k - 1, k - 1 + |p|);
    SuffixOfSuffix(s, 1, k - 1 + |p|);
    assert PieceAt(t, ps, k - 1);
  }

  lemma {:induction false} GappedMatchCorrect(s: string, ps: Pattern)
    ensures GappedMatch(s, ps) <==> Gapped(s, ps)
    decreases |ps|, |s|
  {
    if |ps| > 0 {
      var p := ps[0];
      if OccursAt(s, p, 0) {
        GappedMatchCorrect(s[|p|..], ps[1..]);
        if GappedMatch(s[|p|..], ps[1..]) {
          assert PieceAt(s, ps, 0);
        }
      }
      if |s| > 0 && s[0] != '\n' {
        GappedMatchCorrect(s[1..], ps);
        GappedShift(s, ps);
      }
      if Gapped(s, ps) {
        GappedWitness(s, ps);
        var k: nat :| k <= |s| && PieceAt(s, ps, k);
        if k > 0 {
          GappedUnshift(s, ps, k);
        }
      }
    }
  }

  /** `re.search(pattern, q) is not None`, trying start positions left to
      right. */
  function Matches(q: string, ps: Pattern): bool
    decreases |q|
  {
    if |ps| == 0 then true
    else if OccursAt(q, ps[0], 0) && GappedMatch(q[|ps[0]|..], ps[1..]) then true
    else if |q| == 0 then false
    else Matches(q[1..], ps)
  }

  lemma SearchWitness(q: string, ps: Pattern)
    requires |ps| > 0 && Search(q, ps)
    ensures exists i: nat | i <= |q| :: StartsAt(q, ps, i)
  {
  }

  lemma {:induction false} SearchShift(q: string, ps: Pattern)
    requires |ps| > 0 && |q| > 0
    ensures Search(q[1..], ps) ==> Search(q, ps)
  {
    if Search(q[1..], ps) {
      var p, t := ps[0], q[1..];
      SearchWitness(t, ps);
      var i: nat :| i <= |t| && StartsAt(t, ps, i);
      SliceOfSuffix(q, 1, i, i + |p|);
      SuffixOfSuffix(q, 1, i + |p|);
      assert StartsAt(q, ps, i + 1);
    }
  }

  lemma {:induction false} SearchUnshift(q: string, ps: Pattern, i: nat)
    requires |ps| > 0 && 0 < i <= |q|
    requires StartsAt(q, ps, i)
    ensures Search(q[1..], ps)
  {
    var p, t := ps[0], q[1..];
    SliceOfSuffix(q, 1, i - 1, i - 1 + |p|);
    SuffixOfSuffix(q, 1, i - 1 + |p|);
    assert StartsAt(t, ps, i - 1);
  }

  lemma {:induction false} MatchesCorrect(q: string, ps: Pattern)
    ensures Matches(q, ps) <==> Search(q, ps)
    decreases |q|
  {
    if |ps| > 0 {
      var p := ps[0];
      if OccursAt(q, p, 0) {
        GappedMatchCorrect(q[|p|..], ps[1..]);
        if GappedMatch(q[|p|..], ps[1..]) {
          assert StartsAt(q, ps, 0);
        }
      }
      if |q| > 0 {
        MatchesCorrect(q[1..], ps);
        SearchShift(q, ps);
      }
      if Search(q, ps) {
        SearchWitness(q, ps);
        var i: nat :| i <= |q| && StartsAt(q, ps, i);
        if i > 0 {
          SearchUnshift(q, ps, i);
        }
      }
    }
  }

  // ---------------------------------------------------------------------------
  // What a match implies

  /** `x.*y` matches exactly when `y` starts at or after the end of an
      occurrence of `x`, with no newline in between. */
  ghost predicate Follows(q: string, x: string, y: string, i: nat, k: nat) {
    i + |x| <= k && OccursAt(q, x, i) && OccursAt(q, y, k) && NoChar(q[i + |x|..k], '\n')
  }

  lemma TwoPieceSearch(q: string, x: string, y: string)
    ensures Search(q, [x, y]) <==> exists i: nat, k: nat | k <= |q| :: Follows(q, x, y, i, k)
  {
    if Search(q, [x, y]) {
      SearchFollows(q, x, y);
    }
    if exists i: nat, k: nat | k <= |q| :: Follows(q, x, y, i, k) {
      var i: nat, k: nat :| k <= |q| && Follows(q, x, y, i, k);
      FollowsSearch(q, x, y, i, k);
    }
  }

  lemma SearchFollows(q: string, x: string, y: string)
    requires Search(q, [x, y])
    ensures exists i: nat, k: nat | k <= |q| :: Follows(q, x, y, i, k)
  {
    var ps := [x, y];
    SearchWitness(q, ps);
    var i: nat :| i <= |q| && StartsAt(q, ps, i);
    var t := q[i + |x|..];
    assert Gapped(t, [y]) by { assert ps[1..] == [y]; }
    GappedWitness(t, [y]);
    var m: nat :| m <= |t| && PieceAt(t, [y], m);
    SliceOfSuffix(q, i + |x|, m, m + |y|);
    SliceOfSuffix(q, i + |x|, 0, m);
    assert Follows(q, x, y, i, i + |x| + m);
  }

  lemma FollowsSearch(q: string, x: string, y: string, i: nat, k: nat)
    requires k <= |q| && Follows(q, x, y, i, k)
    ensures Search(q, [x, y])
  {
    var ps := [x, y];
    var t, m := q[i + |x|..], k - (i + |x|);
    SliceOfSuffix(q, i + |x|, m, m + |y|);
    SliceOfSuffix(q, i + |x|, 0, m);
    assert PieceAt(t, [y], m);
    assert ps[1..] == [y];
    assert StartsAt(q, ps, i);
  }

  /** Every piece of a gapped match occurs in the text. */
  lemma {:induction false} GappedContains(s: string, ps: Pattern, j: nat)
    requires Gapped(s, ps) && j < |ps|
    ensures Contains(s, ps[j])
    decreases j
  {
    GappedWitness(s, ps);
    var k: nat :| k <= |s| && PieceAt(s, ps, k);
    if j == 0 {
      assert OccursAt(s, ps[0], k);
    } else {
      GappedContains(s[k + |ps[0]|..], ps[1..], j - 1);
      ContainsSuffix(s, k + |ps[0]|, ps[j]);
    }
  }

  /** Every piece of a matching pattern occurs in the question. */
  lemma SearchContains(q: string, ps: Pattern, j: nat)
    requires Search(q, ps) && j < |ps|
    ensures Contains(q, ps[j])
  {
    SearchWitness(q, ps);
    var i: nat :| i <= |q| && StartsAt(q, ps, i);
    if j == 0 {
      assert OccursAt(q, ps[0], i);
    } else {
      GappedContains(q[i + |ps[0]|..], ps[1..], j - 1);
      ContainsSuffix(q, i + |ps[0]|, ps[j]);
    }
  }

  /** A pattern cannot match a question lacking one of its characters. */
  lemma AbsentCharNoSearch(q: string, ps: Pattern, j: nat, c: char)
    requires j < |ps| && c in ps[j] && c !in q
    ensures !Search(q, ps)
  {
    if Search(q, ps) {
      SearchContains(q, ps, j);
      ContainsChar(q, ps[j], c);
    }
  }

  // ---------------------------------------------------------------------------
  // Classification

  /** Some pattern of the intent matches the lower-cased question. */
  ghost predicate IntentMatches(q: string, i: Intent) {
    exists j :: 0 <= j < |Patterns(i)| && Search(Lower(q), Patterns(i)[j])
  }

  /** Some pattern in the list matches. */
  function AnyMatches(q: string, pats: seq<Pattern>): bool {
    exists j :: 0 <= j < |pats| && Matches(q, pats[j])
  }

  lemma AnyMatchesCorrect(q: string, i: Intent)
    ensures AnyMatches(Lower(q), Patterns(i)) <==> IntentMatches(q, i)
  {
    forall j | 0 <= j < |Patterns(i)| ensures Matches(Lower(q), Patterns(i)[j]) <==> Search(Lower(q), Patterns(i)[j]) {
      MatchesCorrect(Lower(q), Patterns(i)[j]);
    }
  }

  /** The first intent of `order` with a matching pattern, else `general`. */
  function FirstMatch(ql: string, order: seq<Intent>): Intent {
    if |order| == 0 then General
    else if AnyMatches(ql, Patterns(order[0])) then order[0]
    else FirstMatch(ql, order[1..])
  }

  /** Scanning `order` returns the first listed intent that matches. */
  lemma {:induction false} FirstMatchSpec(question: string, order: seq<Intent>)
    requires General !in order
    ensures var r := FirstMatch(Lower(question), order);
      && (r == General <==> forall j :: 0 <= j < |order| ==> !IntentMatches(question, order[j]))
      && (r != General ==> exists k :: 0 <= k < |order| && order[k] == r && IntentMatches(question, r)
                                       && forall j :: 0 <= j < k ==> !IntentMatches(question, order[j]))
    decreases |order|
  {
    if |order| > 0 {
      AnyMatchesCorrect(question, order[0]);
      FirstMatchSpec(question, order[1..]);
      var r := FirstMatch(Lower(question), order);
      if r != General && r != order[0] {
        var k :| 0 <= k < |order[1..]| && order[1..][k] == r && IntentMatches(question, r)
                 && forall j :: 0 <= j < k ==> !IntentMatches(question, order[1..][j]);
        assert order[k + 1] == r;
        assert forall j :: 0 <= j < k + 1 ==> !IntentMatches(question, order[j]) by {
          forall j | 0 <= j < k + 1 ensures !IntentMatches(question, order[j]) {
            if j > 0 { assert order[j] == order[1..][j - 1]; }
          }
        }
      }
    }
  }

  /** `classify_question`: the first intent in priority order owning a pattern
      that matches the lower-cased question; `general` when none does. */
  function Classify(question: string): (r: Intent)
    ensures r == General <==> forall j :: 0 <= j < |PriorityOrder| ==> !IntentMatches(question, PriorityOrder[j])
    ensures r != General ==> IntentMatches(question, r)
    ensures r != General ==> forall j :: 0 <= j < Priority(r) ==> !IntentMatches(question, PriorityOrder[j])
  {
    FirstMatchSpec(question, PriorityOrder);
    PriorityOrderDistinct();
    FirstMatch(Lower(question), PriorityOrder)
  }

  /** The priority order lists each intent once. */
  lemma PriorityOrderDistinct()
    ensures forall k :: 0 <= k < |PriorityOrder| ==> Priority(PriorityOrder[k]) == k
  {
  }

  // ---------------------------------------------------------------------------
  // Consequences of the table and the priority order

  /** Lower-casing the question first changes nothing. */
  lemma ClassifyCaseInsensitive(question: string)
    ensures Classify(Lower(question)) == Classify(question)
  {
    LowerIdempotent(question);
  }

  /** A pattern whose first piece is non-empty cannot match the empty text. */
  lemma EmptyNoSearch(ps: Pattern)
    requires |ps| > 0 && |ps[0]| > 0
    ensures !Search("", ps)
  {
    if Search("", ps) {
      SearchWitness("", ps);
    }
  }

  /** Every pattern of the table has a non-empty first piece. */
  lemma TableFirstPieces(i: Intent)
    ensures forall j :: 0 <= j < |Patterns(i)| ==> |Patterns(i)[j]| > 0 && |Patterns(i)[j][0]| > 0
  {
  }

  /** No pattern matches the empty question. */
  lemma EmptyQuestionGeneral()
    ensures Classify("") == General
  {
    assert Lower("") == "";
    forall i | i in PriorityOrder ensures !IntentMatches("", i) {
      TableFirstPieces(i);
      forall j | 0 <= j < |Patterns(i)| ensures !Search("", Patterns(i)[j]) {
        EmptyNoSearch(Patterns(i)[j]);
      }
    }
  }

  /** Intents earlier in the order than `i` do not match, and `i` does: then
      the question is classified as `i`. */
  lemma ClassifyAs(question: string, i: Intent)
    requires i != General && IntentMatches(question, i)
    requires forall j :: 0 <= j < Priority(i) ==> !IntentMatches(question, PriorityOrder[j])
    ensures Classify(question) == i
  {
    PriorityOrderIndex(i);
    PriorityOrderIndex(Classify(question));
  }

  /** "weekly ... usage" is listed under both `weekly_trend` and, through
      "week ... usage", `weekly_productivity`; the priority order makes the
      trend win. */
  lemma WeeklyUsagePrefersTrend(question: string)
    requires Search(Lower(question), ["weekly", "usage"])
    ensures IntentMatches(question, WeeklyTrend) && IntentMatches(question, WeeklyProductivity)
    ensures Classify(question) != General && Classify(question) != WeeklyProductivity
    ensures Priority(Classify(question)) <= Priority(WeeklyTrend)
    ensures (forall j :: 0 <= j < Priority(WeeklyTrend) ==> !IntentMatches(question, PriorityOrder[j]))
            ==> Classify(question) == WeeklyTrend
  {
    var ql := Lower(question);
    assert Patterns(WeeklyTrend)[1] == ["weekly", "usage"];
    assert IntentMatches(question, WeeklyTrend);
    WeeklyUsageWeekUsage(ql);
    assert Patterns(WeeklyProductivity)[3] == ["week", "usage"];
    assert IntentMatches(question, WeeklyProductivity);
    var r := Classify(question);
    if r == General || Priority(WeeklyTrend) < Priority(r) {
      assert !IntentMatches(question, PriorityOrder[Priority(WeeklyTrend)]);
    }
    if forall j :: 0 <= j < Priority(WeeklyTrend) ==> !IntentMatches(question, PriorityOrder[j]) {
      ClassifyAs(question, WeeklyTrend);
    }
  }

  /** Wherever "weekly.*usage" matches, so does "week.*usage". */
  lemma WeeklyUsageWeekUsage(q: string)
    requires Search(q, ["weekly", "usage"])
    ensures Search(q, ["week", "usage"])
  {
    var ps, ws := ["weekly", "usage"], ["week", "usage"];
    SearchWitness(q, ps);
    var i: nat :| i <= |q| && StartsAt(q, ps, i);
    assert q[i..i + 6] == "weekly";
    assert q[i..i + 4] == q[i..i + 6][..4] == "week";
    assert q[i + 4] == 'l' && q[i + 5] == 'y' by {
      assert q[i + 4] == q[i..i + 6][4] && q[i + 5] == q[i..i + 6][5];
    }
    assert ps[1..] == ws[1..] == ["usage"];
    SuffixOfSuffix(q, i + 5, 1);
    GappedShift(q[i + 5..], ["usage"]);
    SuffixOfSuffix(q, i + 4, 1);
    GappedShift(q[i + 4..], ["usage"]);
    assert StartsAt(q, ws, i);
  }

  /** The lower-cased first suggested question of the chat page. */
  const WhatApp: string := "what app did i use most today?"

  /** Lower-casing a question whose only capitals are at two known places. */
  lemma LowerTwoCapitals(x: char, a: string, y: char, b: string)
    requires forall c: char | 'A' <= c <= 'Z' :: c !in a
    requires forall c: char | 'A' <= c <= 'Z' :: c !in b
    ensures Lower([x] + a + [y] + b) == [LowerChar(x)] + a + [LowerChar(y)] + b
  {
    LowerNoCapitals(a);
    LowerNoCapitals(b);
    LowerAppend([x], a);
    LowerAppend([x] + a, [y]);
    LowerAppend([x] + a + [y], b);
  }

  lemma NoCapitalsWhatApp()
    ensures forall c: char | 'A' <= c <= 'Z' :: c !in "hat app did "
    ensures forall c: char | 'A' <= c <= 'Z' :: c !in " use most today?"
    ensures forall c: char | 'A' <= c <= 'Z' :: c !in WhatApp
  {
  }

  lemma WhatAppPieces()
    ensures "What app did I use most today?" == ['W'] + "hat app did " + ['I'] + " use most today?"
  {
  }

  lemma WhatAppLowerPieces()
    ensures ['w'] + "hat app did " + ['i'] + " use most today?" == WhatApp
  {
  }

  lemma WhatAppLower()
    ensures Lower("What app did I use most today?") == WhatApp
  {
    NoCapitalsWhatApp();
    LowerTwoCapitals('W', "hat app did ", 'I', " use most today?");
    WhatAppPieces();
    WhatAppLowerPieces();
  }

  lemma WhatAppLowerFixed()
    ensures Lower(WhatApp) == WhatApp
  {
    NoCapitalsWhatApp();
    LowerNoCapitals(WhatApp);
  }

  /** Letters of the `most_focused_day` patterns missing from the question. */
  lemma WhatAppMissingLetters()
    ensures 'c' !in WhatApp && 'f' !in WhatApp && 'r' !in WhatApp && 'b' !in WhatApp
  {
    WhatAppMissingCF();
    WhatAppMissingRB();
  }

  lemma WhatAppMissingCF()
    ensures 'c' !in WhatApp && 'f' !in WhatApp
  {
  }

  lemma WhatAppMissingRB()
    ensures 'r' !in WhatApp && 'b' !in WhatApp
  {
  }

  lemma FocusPatternLetters()
    ensures 'c' in Patterns(MostFocusedDay)[0][0] && 'f' in Patterns(MostFocusedDay)[1][0]
    ensures 'f' in Patterns(MostFocusedDay)[2][0] && 'r' in Patterns(MostFocusedDay)[3][0]
    ensures 'b' in Patterns(MostFocusedDay)[4][0]
  {
  }

  lemma WhatAppNotFocused()
    ensures !IntentMatches(WhatApp, MostFocusedDay)
  {
    WhatAppLowerFixed();
    WhatAppMissingLetters();
    FocusPatternLetters();
    var pats := Patterns(MostFocusedDay);
    assert |pats| == 5;
    forall j | 0 <= j < 5 ensures !Search(WhatApp, pats[j]) {
      var c := ['c', 'f', 'f', 'r', 'b'][j];
      AbsentCharNoSearch(WhatApp, pats[j], 0, c);
    }
  }

  lemma WhatAppNotDaily()
    ensures !IntentMatches(WhatApp, DailyTotal)
  {
    WhatAppLowerFixed();
    WhatAppMissesDaily01();
    WhatAppMissesDaily23();
  }

  lemma WhatAppMissesDaily01()
    ensures !Search(WhatApp, Patterns(DailyTotal)[0]) && !Search(WhatApp, Patterns(DailyTotal)[1])
  {
    var pats := Patterns(DailyTotal);
    AbsentCharNoSearch(WhatApp, pats[0], 1, 'l');
    AbsentCharNoSearch(WhatApp, pats[1], 1, 'l');
  }

  lemma WhatAppMissesDaily23()
    ensures !Search(WhatApp, Patterns(DailyTotal)[2]) && !Search(WhatApp, Patterns(DailyTotal)[3])
  {
    var pats := Patterns(DailyTotal);
    AbsentCharNoSearch(WhatApp, pats[2], 1, 'n');
    AbsentCharNoSearch(WhatApp, pats[3], 0, 'c');
  }

  lemma WhatAppRanking()
    ensures IntentMatches(WhatApp, AppRanking)
  {
    WhatAppLowerFixed();
    var ps := Patterns(AppRanking)[6];
    assert ps == ["what app", "most"];
    var t := WhatApp[8..];
    assert OccursAt(t, "most", 11) && LineFree(t, 11);
    assert PieceAt(t, ps[1..], 11);
    assert StartsAt(WhatApp, ps, 0);
  }

  /** The first suggested question of the chat page: "what app.*most" is the
      first pattern to match, after the two higher intents miss. */
  lemma ClassifyWhatAppExample()
    ensures Classify("What app did I use most today?") == AppRanking
  {
    WhatAppLower();
    WhatAppNotFocused();
    WhatAppNotDaily();
    WhatAppRanking();
    ClassifyAs(WhatApp, AppRanking);
    ClassifyCaseInsensitive("What app did I use most today?");
  }

  /** The lower-cased focus question of the chat page. */
  const FocusedDay: string := "which day was i most focused?"

  lemma NoCapitalsFocusedDay()
    ensures forall c: char | 'A' <= c <= 'Z' :: c !in "hich day was "
    ensures forall c: char | 'A' <= c <= 'Z' :: c !in " most focused?"
  {
  }

  lemma FocusedDayLower()
    ensures Lower("Which day was I most focused?") == FocusedDay
  {
    NoCapitalsFocusedDay();
    LowerTwoCapitals('W', "hich day was ", 'I', " most focused?");
    FocusedDayPieces();
    FocusedDayLowerPieces();
  }

  lemma FocusedDayPieces()
    ensures "Which day was I most focused?" == ['W'] + "hich day was " + ['I'] + " most focused?"
  {
  }

  lemma FocusedDayLowerPieces()
    ensures ['w'] + "hich day was " + ['i'] + " most focused?" == FocusedDay
  {
  }

  /** The focus question of the chat page hits the highest-priority intent
      through "which day.*most focused". */
  lemma ClassifyFocusedDayExample()
    ensures Classify("Which day was I most focused?") == MostFocusedDay
  {
    FocusedDayLower();
    FocusedDayFocused();
    ClassifyAs("Which day was I most focused?", MostFocusedDay);
  }

  lemma FocusedDayFocused()
    ensures Search(FocusedDay, Patterns(MostFocusedDay)[0])
  {
    var ps := Patterns(MostFocusedDay)[0];
    assert ps == ["which day", "most focused"];
    var t := FocusedDay[9..];
    FocusedDayHead();
    FocusedDayTail();
    assert PieceAt(t, ps[1..], 7);
    assert StartsAt(FocusedDay, ps, 0);
  }

  lemma FocusedDayHead()
    ensures OccursAt(FocusedDay, "which day", 0)
  {
  }

  lemma FocusedDayTail()
    ensures OccursAt(FocusedDay[9..], "most focused", 7) && LineFree(FocusedDay[9..], 7)
  {
  }
}
