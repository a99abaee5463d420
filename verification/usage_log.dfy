/** The usage log and the pandas-style aggregation the chatbot performs on it:
    row filters on the date column, `groupby(...).sum()` / `.count()` series
    with sorted keys, and `idxmax`, `idxmin`, `max`, `min`, `nlargest` on a
    series. */
module UsageLog {

  import opened Strings

  type Hour = h: nat | h < 24

  /** One parsed row of the log: the `date` column is a day number and `hour`
      is the hour of day, both derived from the row's timestamp. */
  datatype Record = Record(app: string, duration: nat, date: int, hour: Hour)

  type Log = seq<Record>

  /** The column sets the source groups by. */
  datatype Grouping = ByDateApp | ByDateHour | ByApp | ByDate | ByHour

  /** A group label, one shape per grouping. */
  datatype Key =
    | DateAppKey(date: int, app: string)
    | DateHourKey(date: int, hour: Hour)
    | AppKey(app: string)
    | DateKey(date: int)
    | HourKey(hour: Hour)

  /** What a group aggregates: `sum` of durations or `count` of rows. */
  datatype Measure = Seconds | Rows

  function KeyOf(r: Record, g: Grouping): (k: Key)
    ensures GroupingOf(k) == g
  {
    match g
    case ByDateApp => DateAppKey(r.date, r.app)
    case ByDateHour => DateHourKey(r.date, r.hour)
    case ByApp => AppKey(r.app)
    case ByDate => DateKey(r.date)
    case ByHour => HourKey(r.hour)
  }

  function GroupingOf(k: Key): Grouping {
    match k
    case DateAppKey(_, _) => ByDateApp
    case DateHourKey(_, _) => ByDateHour
    case AppKey(_) => ByApp
    case DateKey(_) => ByDate
    case HourKey(_) => ByHour
  }

  function Weight(r: Record, m: Measure): nat {
    match m
    case Seconds => r.duration
    case Rows => 1
  }

  /** `df['duration'].sum()` (or `len(df)` for `Rows`). */
  function Total(log: Log, m: Measure): nat {
    if |log| == 0 then 0 else Weight(log[0], m) + Total(log[1..], m)
  }

  predicate InGroup(r: Record, k: Key) {
    KeyOf(r, GroupingOf(k)) == k
  }

  /** The aggregate of one group: the weights of exactly the rows whose key
      is `k`. */
  function GroupTotal(log: Log, k: Key, m: Measure): nat {
    if |log| == 0 then 0
    else (if InGroup(log[0], k) then Weight(log[0], m) else 0) + GroupTotal(log[1..], k, m)
  }

  /** The group labels present in the log. */
  function Keys(log: Log, g: Grouping): set<Key> {
    set i | 0 <= i < |log| :: KeyOf(log[i], g)
  }

  // ---------------------------------------------------------------------------
  // Ordering of group labels (pandas sorts group keys)

  predicate KeyLess(a: Key, b: Key) {
    match (a, b)
    case (DateAppKey(d1, a1), DateAppKey(d2, a2)) => d1 < d2 || (d1 == d2 && StrLess(a1, a2))
    case (DateHourKey(d1, h1), DateHourKey(d2, h2)) => d1 < d2 || (d1 == d2 && h1 < h2)
    case (AppKey(a1), AppKey(a2)) => StrLess(a1, a2)
    case (DateKey(d1), DateKey(d2)) => d1 < d2
    case (HourKey(h1), HourKey(h2)) => h1 < h2
    case _ => Rank(a) < Rank(b)
  }

  function Rank(k: Key): nat {
    match k
    case DateAppKey(_, _) => 0
    case DateHourKey(_, _) => 1
    case AppKey(_) => 2
    case DateKey(_) => 3
    case HourKey(_) => 4
  }

  lemma KeyLessIrreflexive(a: Key)
    ensures !KeyLess(a, a)
  {
    match a
    case DateAppKey(_, s) => StrLessIrreflexive(s);
    case AppKey(s) => StrLessIrreflexive(s);
    case _ =>
  }

  lemma KeyLessTransitive(a: Key, b: Key, c: Key)
    requires KeyLess(a, b) && KeyLess(b, c)
    ensures KeyLess(a, c)
  {
    if a.DateAppKey? && b.DateAppKey? && c.DateAppKey? && a.date == b.date == c.date {
      StrLessTransitive(a.app, b.app, c.app);
    } else if a.AppKey? && b.AppKey? && c.AppKey? {
      StrLessTransitive(a.app, b.app, c.app);
    }
  }

  lemma KeyLessTotal(a: Key, b: Key)
    ensures a == b || KeyLess(a, b) || KeyLess(b, a)
  {
    if a.DateAppKey? && b.DateAppKey? {
      StrLessTotal(a.app, b.app);
    } else if a.AppKey? && b.AppKey? {
      StrLessTotal(a.app, b.app);
    }
  }

  lemma KeyLessAsymmetric(a: Key, b: Key)
    requires KeyLess(a, b)
    ensures !KeyLess(b, a)
  {
    if KeyLess(b, a) {
      KeyLessTransitive(a, b, a);
      KeyLessIrreflexive(a);
    }
  }

  predicate StrictlySorted(ks: seq<Key>) {
    forall i, j :: 0 <= i < j < |ks| ==> KeyLess(ks[i], ks[j])
  }

  lemma SortedDistinct(ks: seq<Key>, i: int, j: int)
    requires StrictlySorted(ks)
    requires 0 <= i < |ks| && 0 <= j < |ks| && i != j
    ensures ks[i] != ks[j]
  {
    if i < j { KeyLessIrreflexive(ks[i]); } else { KeyLessIrreflexive(ks[j]); }
  }

  /** Adds one label to a sorted, duplicate-free label list. */
  function Insert(ks: seq<Key>, k: Key): (r: seq<Key>)
    requires StrictlySorted(ks)
    ensures StrictlySorted(r)
    ensures forall x :: x in r <==> x in ks || x == k
  {
    if |ks| == 0 then [k]
    else if k == ks[0] then ks
    else if KeyLess(k, ks[0]) then
      forall j | 0 < j < |ks| ensures KeyLess(k, ks[j]) {
        KeyLessTransitive(k, ks[0], ks[j]);
      }
      [k] + ks
    else
      KeyLessTotal(k, ks[0]);
      var rest := Insert(ks[1..], k);
      assert forall x :: x in rest ==> KeyLess(ks[0], x);
      [ks[0]] + rest
  }

  /** The sorted distinct group labels of `log[..n]`. */
  function SortedKeysOf(log: Log, g: Grouping, n: nat): (ks: seq<Key>)
    requires n <= |log|
    ensures StrictlySorted(ks)
    ensures forall x :: x in ks <==> exists i :: 0 <= i < n && KeyOf(log[i], g) == x
  {
    if n == 0 then [] else Insert(SortedKeysOf(log, g, n - 1), KeyOf(log[n - 1], g))
  }

  /** The keys pandas iterates over after `groupby`: every label present in
      the log, once each, in ascending order. */
  function SortedKeys(log: Log, g: Grouping): (ks: seq<Key>)
    ensures StrictlySorted(ks)
    ensures forall x :: x in ks <==> x in Keys(log, g)
  {
    SortedKeysOf(log, g, |log|)
  }

  // ---------------------------------------------------------------------------
  // Series

  /** One row of a pandas series indexed by group label. */
  datatype Entry = Entry(key: Key, value: nat)

  type Series = seq<Entry>

  predicate SortedSeries(s: Series) {
    forall i, j :: 0 <= i < j < |s| ==> KeyLess(s[i].key, s[j].key)
  }

  function Tabulate(log: Log, ks: seq<Key>, m: Measure): (s: Series)
    ensures |s| == |ks|
    ensures forall i :: 0 <= i < |ks| ==> s[i] == Entry(ks[i], GroupTotal(log, ks[i], m))
  {
    if |ks| == 0 then [] else [Entry(ks[0], GroupTotal(log, ks[0], m))] + Tabulate(log, ks[1..], m)
  }

  /** `df.groupby(g)['duration'].sum()` (or `.count()` for `Rows`). */
  function GroupBy(log: Log, g: Grouping, m: Measure): (s: Series)
    ensures SortedSeries(s)
    ensures forall i :: 0 <= i < |s| ==> s[i].key in Keys(log, g) && s[i].value == GroupTotal(log, s[i].key, m)
    ensures forall k :: k in Keys(log, g) ==> exists i :: 0 <= i < |s| && s[i].key == k
  {
    var ks := SortedKeys(log, g);
    var s := Tabulate(log, ks, m);
    assert forall k :: k in Keys(log, g) ==> exists i :: 0 <= i < |s| && s[i].key == k by {
      forall k | k in Keys(log, g) ensures exists i :: 0 <= i < |s| && s[i].key == k {
        assert k in ks;
        var i :| 0 <= i < |ks| && ks[i] == k;
        assert s[i].key == k;
      }
    }
    s
  }

  /** A strictly sorted list of labels holds as many labels as the set of
      its members. */
  lemma {:induction false} SortedCard(ks: seq<Key>, keys: set<Key>)
    requires StrictlySorted(ks) && forall x :: x in ks <==> x in keys
    ensures |ks| == |keys|
    decreases |ks|
  {
    if |ks| == 0 {
      assert keys == {};
    } else {
      var rest := keys - {ks[0]};
      forall x ensures x in ks[1..] <==> x in rest {
        if x in ks[1..] {
          var j :| 0 <= j < |ks[1..]| && ks[1..][j] == x;
          SortedDistinct(ks, 0, j + 1);
        }
        if x in rest {
          assert x in ks && x != ks[0];
          var j :| 0 <= j < |ks| && ks[j] == x;
          assert ks[1..][j - 1] == x;
        }
      }
      SortedCard(ks[1..], rest);
    }
  }

  /** A grouped series has one entry per present label. */
  lemma GroupByCount(log: Log, g: Grouping, m: Measure)
    ensures |GroupBy(log, g, m)| == |Keys(log, g)|
  {
    SortedCard(SortedKeys(log, g), Keys(log, g));
  }

  /** The entries of a grouped series are exactly the present labels, each
      paired with its group's aggregate. */
  lemma GroupByMembers(log: Log, g: Grouping, m: Measure)
    ensures forall x :: x in GroupBy(log, g, m) <==> x.key in Keys(log, g) && x.value == GroupTotal(log, x.key, m)
    ensures |GroupBy(log, g, m)| == 0 <==> |log| == 0
  {
    var s := GroupBy(log, g, m);
    if |log| > 0 {
      assert KeyOf(log[0], g) in Keys(log, g);
    }
  }

  /** A label is present exactly when some row carries it. */
  lemma KeysMembers(log: Log, g: Grouping)
    ensures forall k :: k in Keys(log, g) <==> exists r :: r in log && KeyOf(r, g) == k
  {
    forall k | k in Keys(log, g) ensures exists r :: r in log && KeyOf(r, g) == k {
      var i :| 0 <= i < |log| && KeyOf(log[i], g) == k;
      assert log[i] in log;
    }
  }

  /** Labels of a strictly sorted series are distinct, so are its entries. */
  lemma SortedSeriesDistinct(s: Series)
    requires SortedSeries(s)
    ensures DistinctEntries(s)
  {
    forall i, j | 0 <= i < |s| && 0 <= j < |s| && i != j ensures s[i] != s[j] {
      if i < j { KeyLessIrreflexive(s[i].key); } else { KeyLessIrreflexive(s[j].key); }
    }
  }

  /** `series // 60`: every value floored to whole minutes. */
  function Minutes(s: Series): (r: Series)
    ensures |r| == |s|
    ensures forall i :: 0 <= i < |s| ==> r[i] == Entry(s[i].key, s[i].value / 60)
    ensures SortedSeries(s) ==> SortedSeries(r)
  {
    seq(|s|, i requires 0 <= i < |s| => Entry(s[i].key, s[i].value / 60))
  }

  function SeriesSum(s: Series): nat {
    if |s| == 0 then 0 else s[0].value + SeriesSum(s[1..])
  }

  /** `series.idxmax()` as a position: the first entry holding the maximum. */
  function ArgMax(s: Series): (i: nat)
    requires |s| > 0
    ensures i < |s|
    ensures forall j :: 0 <= j < |s| ==> s[j].value <= s[i].value
    ensures forall j :: 0 <= j < i ==> s[j].value < s[i].value
  {
    if |s| == 1 then 0
    else
      var j := ArgMax(s[..|s| - 1]);
      if s[|s| - 1].value > s[j].value then |s| - 1 else j
  }

  /** `series.idxmin()` as a position: the first entry holding the minimum. */
  function ArgMin(s: Series): (i: nat)
    requires |s| > 0
    ensures i < |s|
    ensures forall j :: 0 <= j < |s| ==> s[i].value <= s[j].value
    ensures forall j :: 0 <= j < i ==> s[i].value < s[j].value
  {
    if |s| == 1 then 0
    else
      var j := ArgMin(s[..|s| - 1]);
      if s[|s| - 1].value < s[j].value then |s| - 1 else j
  }

  /** `series.idxmax()` paired with `series.max()`: an entry holding the
      largest value; on a sorted series, every entry with a smaller label
      holds strictly less, so ties go to the smallest label. */
  function MaxEntry(s: Series): (e: Entry)
    requires |s| > 0
    ensures e in s
    ensures forall x :: x in s ==> x.value <= e.value
    ensures SortedSeries(s) ==> forall x :: x in s && KeyLess(x.key, e.key) ==> x.value < e.value
  {
    var i := ArgMax(s);
    assert SortedSeries(s) ==> forall x :: x in s && KeyLess(x.key, s[i].key) ==> x.value < s[i].value by {
      if SortedSeries(s) {
        forall x | x in s && KeyLess(x.key, s[i].key) ensures x.value < s[i].value {
          var j :| 0 <= j < |s| && s[j] == x;
          KeyLessIrreflexive(x.key);
          if j > i { KeyLessAsymmetric(s[i].key, s[j].key); }
        }
      }
    }
    s[i]
  }

  /** `series.idxmin()` paired with `series.min()`, ties to the smallest label. */
  function MinEntry(s: Series): (e: Entry)
    requires |s| > 0
    ensures e in s
    ensures forall x :: x in s ==> e.value <= x.value
    ensures SortedSeries(s) ==> forall x :: x in s && KeyLess(x.key, e.key) ==> e.value < x.value
  {
    var i := ArgMin(s);
    assert SortedSeries(s) ==> forall x :: x in s && KeyLess(x.key, s[i].key) ==> s[i].value < x.value by {
      if SortedSeries(s) {
        forall x | x in s && KeyLess(x.key, s[i].key) ensures s[i].value < x.value {
          var j :| 0 <= j < |s| && s[j] == x;
          KeyLessIrreflexive(x.key);
          if j > i { KeyLessAsymmetric(s[i].key, s[j].key); }
        }
      }
    }
    s[i]
  }

  function Min(a: nat, b: nat): nat {
    if a <= b then a else b
  }

  predicate DistinctEntries(s: Series) {
    forall i, j :: 0 <= i < |s| && 0 <= j < |s| && i != j ==> s[i] != s[j]
  }

  /** The series without its `i`-th entry. */
  function Remove(s: Series, i: nat): (r: Series)
    requires DistinctEntries(s)
    requires i < |s|
    ensures |r| == |s| - 1
    ensures DistinctEntries(r)
    ensures forall x :: x in r <==> x in s && x != s[i]
  {
    var r := s[..i] + s[i + 1..];
    forall a | 0 <= a < |r| ensures r[a] == s[if a < i then a else a + 1] && r[a] != s[i] { }
    forall x | x in s && x != s[i] ensures x in r {
      var j :| 0 <= j < |s| && s[j] == x;
      if j < i { assert r[j] == x; } else { assert r[j - 1] == x; }
    }
    r
  }

  predicate Descending(s: Series) {
    forall a, b :: 0 <= a < b < |s| ==> s[a].value >= s[b].value
  }

  /** Putting a maximal entry in front of the largest entries of the rest
      gives the largest entries of the whole. */
  lemma ConsLargest(s: Series, i: nat, rest: Series, tail: Series)
    requires i < |s|
    requires forall j :: 0 <= j < |s| ==> s[j].value <= s[i].value
    requires forall x :: x in rest <==> x in s && x != s[i]
    requires DistinctEntries(tail) && Descending(tail)
    requires forall x :: x in tail ==> x in rest
    requires forall x, y :: x in rest && x !in tail && y in tail ==> x.value <= y.value
    ensures DistinctEntries([s[i]] + tail) && Descending([s[i]] + tail)
    ensures forall x, y :: x in s && x !in [s[i]] + tail && y in [s[i]] + tail ==> x.value <= y.value
  {
    var r := [s[i]] + tail;
    forall a, b | 0 <= a < |r| && 0 <= b < |r| && a != b ensures r[a] != r[b] {
      if a > 0 && b > 0 { assert r[a] == tail[a - 1] && r[b] == tail[b - 1]; }
      else if a == 0 { assert r[b] in tail; }
      else { assert r[a] in tail; }
    }
    forall a, b | 0 <= a < b < |r| ensures r[a].value >= r[b].value {
      assert r[b] == tail[b - 1];
      assert r[b] in s;
      if a > 0 { assert r[a] == tail[a - 1]; }
    }
    forall x, y | x in s && x !in r && y in r ensures x.value <= y.value {
      assert x in rest && x !in tail;
      if y != s[i] { assert y in tail; }
    }
  }

  /** `series.nlargest(n)` with pandas' default `keep='first'`: the `n`
      largest entries in descending order of value, ties in series order. */
  function NLargest(s: Series, n: nat): (r: Series)
    requires DistinctEntries(s)
    ensures |r| == Min(n, |s|)
    ensures DistinctEntries(r) && Descending(r)
    ensures forall x :: x in r ==> x in s
    ensures forall x, y :: x in s && x !in r && y in r ==> x.value <= y.value
    decreases n
  {
    if n == 0 || |s| == 0 then []
    else
      var i := ArgMax(s);
      var rest := Remove(s, i);
      var tail := NLargest(rest, n - 1);
      ConsLargest(s, i, rest, tail);
      [s[i]] + tail
  }

  /** Among entries of equal value, the ones kept come before the ones left
      out, in the key order of the series. */
  predicate TiesKeptFirst(s: Series, r: Series) {
    forall x, y :: x in s && x !in r && y in r && x.value == y.value ==> KeyLess(y.key, x.key)
  }

  /** Entries of equal value are listed in key order. */
  predicate TiesInOrder(r: Series) {
    forall a, b :: 0 <= a < b < |r| && r[a].value == r[b].value ==> KeyLess(r[a].key, r[b].key)
  }

  /** Removing an entry from a key-sorted series leaves it key-sorted. */
  lemma RemoveSorted(s: Series, i: nat)
    requires DistinctEntries(s) && SortedSeries(s) && i < |s|
    ensures SortedSeries(Remove(s, i))
  {
    var r := Remove(s, i);
    assert r == s[..i] + s[i + 1..];
    forall a, b | 0 <= a < b < |r| ensures KeyLess(r[a].key, r[b].key) {
      assert r[a] == s[if a < i then a else a + 1];
      assert r[b] == s[if b < i then b else b + 1];
    }
  }

  /** In a key-sorted series, an entry tied with the first maximum lies
      after it. */
  lemma TiedAfterMax(s: Series)
    requires |s| > 0 && SortedSeries(s)
    ensures forall x :: x in s && x != s[ArgMax(s)] && x.value == s[ArgMax(s)].value ==> KeyLess(s[ArgMax(s)].key, x.key)
  {
    var i := ArgMax(s);
    forall x | x in s && x != s[i] && x.value == s[i].value ensures KeyLess(s[i].key, x.key) {
      var j :| 0 <= j < |s| && s[j] == x;
      if j < i { assert s[j].value < s[i].value; }
    }
  }

  /** Putting the first maximum in front of a tie-respecting selection from
      the rest gives a tie-respecting selection from the whole. */
  lemma ConsTies(s: Series, m: Entry, rest: Series, tail: Series)
    requires forall x :: x in rest <==> x in s && x != m
    requires forall x :: x in s && x != m && x.value == m.value ==> KeyLess(m.key, x.key)
    requires forall x :: x in tail ==> x in rest
    requires TiesKeptFirst(rest, tail) && TiesInOrder(tail)
    ensures TiesKeptFirst(s, [m] + tail) && TiesInOrder([m] + tail)
  {
    var r := [m] + tail;
    forall x, y | x in s && x !in r && y in r && x.value == y.value ensures KeyLess(y.key, x.key) {
      if y != m {
        assert y in tail && x in rest;
      }
    }
    forall a, b | 0 <= a < b < |r| && r[a].value == r[b].value ensures KeyLess(r[a].key, r[b].key) {
      assert r[b] == tail[b - 1] && r[b] in rest;
      if a > 0 { assert r[a] == tail[a - 1]; }
    }
  }

  /** On a key-sorted series, `nlargest` with `keep='first'` settles ties
      by key: of two entries with equal value, the earlier one is kept
      when only one is, and is listed first when both are. */
  lemma {:induction false} NLargestTies(s: Series, n: nat)
    requires DistinctEntries(s) && SortedSeries(s)
    ensures TiesKeptFirst(s, NLargest(s, n))
    ensures TiesInOrder(NLargest(s, n))
    decreases n
  {
    if n > 0 && |s| > 0 {
      var i := ArgMax(s);
      var rest := Remove(s, i);
      var k: nat := n - 1;
      RemoveSorted(s, i);
      NLargestTies(rest, k);
      var tail := NLargest(rest, k);
      TiedAfterMax(s);
      ConsTies(s, s[i], rest, tail);
      NLargestStep(s, n, k);
    }
  }

  /** One step of `NLargest`: the first maximum, then the largest of the
      rest. */
  lemma NLargestStep(s: Series, n: nat, k: nat)
    requires DistinctEntries(s) && |s| > 0 && n == k + 1
    ensures NLargest(s, n) == [s[ArgMax(s)]] + NLargest(Remove(s, ArgMax(s)), k)
  {
  }

  // ---------------------------------------------------------------------------
  // Group totals add up to the column total

  predicate AllOfGrouping(ks: seq<Key>, g: Grouping) {
    forall i :: 0 <= i < |ks| ==> GroupingOf(ks[i]) == g
  }

  lemma {:induction false} TabulateEmpty(ks: seq<Key>, m: Measure)
    ensures SeriesSum(Tabulate([], ks, m)) == 0
    decreases |ks|
  {
    if |ks| > 0 {
      TabulateEmpty(ks[1..], m);
    }
  }

  /** Adding one row in front of the log adds its weight to exactly the one
      group it belongs to, if that group is listed. */
  lemma {:induction false} TabulateCons(r: Record, rest: Log, ks: seq<Key>, g: Grouping, m: Measure)
    requires StrictlySorted(ks) && AllOfGrouping(ks, g)
    ensures SeriesSum(Tabulate([r] + rest, ks, m))
         == SeriesSum(Tabulate(rest, ks, m)) + (if KeyOf(r, g) in ks then Weight(r, m) else 0)
    decreases |ks|
  {
    if |ks| > 0 {
      assert ([r] + rest)[1..] == rest;
      assert InGroup(r, ks[0]) <==> KeyOf(r, g) == ks[0];
      TabulateCons(r, rest, ks[1..], g, m);
      if KeyOf(r, g) == ks[0] {
        forall j | 0 <= j < |ks[1..]| ensures ks[1..][j] != ks[0] {
          SortedDistinct(ks, 0, j + 1);
        }
      }
      assert KeyOf(r, g) in ks <==> KeyOf(r, g) == ks[0] || KeyOf(r, g) in ks[1..];
    }
  }

  lemma {:induction false} TabulateSum(log: Log, ks: seq<Key>, g: Grouping, m: Measure)
    requires StrictlySorted(ks) && AllOfGrouping(ks, g)
    requires forall k :: k in Keys(log, g) ==> k in ks
    ensures SeriesSum(Tabulate(log, ks, m)) == Total(log, m)
    decreases |log|
  {
    if |log| == 0 {
      TabulateEmpty(ks, m);
    } else {
      var rest := log[1..];
      assert log == [log[0]] + rest;
      forall k | k in Keys(rest, g) ensures k in ks {
        var i :| 0 <= i < |rest| && KeyOf(rest[i], g) == k;
        assert KeyOf(log[i + 1], g) == k;
      }
      TabulateSum(rest, ks, g, m);
      TabulateCons(log[0], rest, ks, g, m);
      assert KeyOf(log[0], g) in Keys(log, g);
    }
  }

  /** The values of a `groupby(...).sum()` (or `.count()`) series add up to
      the column total (or the row count): no row is lost or counted twice. */
  lemma GroupBySum(log: Log, g: Grouping, m: Measure)
    ensures SeriesSum(GroupBy(log, g, m)) == Total(log, m)
  {
    var ks := SortedKeys(log, g);
    forall i | 0 <= i < |ks| ensures GroupingOf(ks[i]) == g {
      assert ks[i] in Keys(log, g);
    }
    TabulateSum(log, ks, g, m);
  }

  /** Every group present in the log holds at least one row. */
  lemma {:induction false} PresentGroupNonEmpty(log: Log, k: Key)
    requires k in Keys(log, GroupingOf(k))
    ensures GroupTotal(log, k, Rows) >= 1
    decreases |log|
  {
    if !InGroup(log[0], k) {
      var i :| 0 <= i < |log| && KeyOf(log[i], GroupingOf(k)) == k;
      assert KeyOf(log[1..][i - 1], GroupingOf(k)) == k;
      PresentGroupNonEmpty(log[1..], k);
    }
  }

  // ---------------------------------------------------------------------------
  // Row filters on the date column

  /** `df['date'] == day` and `df['date'] >= day`. */
  datatype Window = OnDate(day: int) | Since(day: int)

  predicate InWindow(r: Record, w: Window) {
    match w
    case OnDate(d) => r.date == d
    case Since(d) => r.date >= d
  }

  /** `df[mask]`: the rows inside the window, in log order. */
  function Select(log: Log, w: Window): (r: Log)
    ensures |r| <= |log|
    ensures forall x :: x in r <==> x in log && InWindow(x, w)
  {
    if |log| == 0 then []
    else
      var rest := Select(log[1..], w);
      assert forall x :: x in log <==> x == log[0] || x in log[1..];
      if InWindow(log[0], w) then [log[0]] + rest else rest
  }

  /** Filtering on a date and summing gives that date's group total. */
  lemma {:induction false} SelectDateTotal(log: Log, d: int, m: Measure)
    ensures Total(Select(log, OnDate(d)), m) == GroupTotal(log, DateKey(d), m)
    decreases |log|
  {
    if |log| > 0 {
      SelectDateTotal(log[1..], d, m);
      var rest := Select(log[1..], OnDate(d));
      if InWindow(log[0], OnDate(d)) {
        assert ([log[0]] + rest)[1..] == rest;
      }
    }
  }

  /** Python's `len(set(df['app_name']))`, i.e. `nunique()`. */
  function AppNames(log: Log): set<string> {
    set i | 0 <= i < |log| :: log[i].app
  }

  /** A filter that keeps every row of a group keeps the group's total. */
  lemma {:induction false} SelectGroupTotal(log: Log, w: Window, k: Key, m: Measure)
    requires forall r: Record :: InGroup(r, k) ==> InWindow(r, w)
    ensures GroupTotal(Select(log, w), k, m) == GroupTotal(log, k, m)
    decreases |log|
  {
    if |log| > 0 {
      SelectGroupTotal(log[1..], w, k, m);
      var rest := Select(log[1..], w);
      if InWindow(log[0], w) {
        assert ([log[0]] + rest)[1..] == rest;
      }
    }
  }

  /** Grouping one day's rows by app gives that day's (date, app) groups. */
  lemma {:induction false} SelectDayAppTotal(log: Log, d: int, a: string, m: Measure)
    ensures GroupTotal(Select(log, OnDate(d)), AppKey(a), m) == GroupTotal(log, DateAppKey(d, a), m)
    decreases |log|
  {
    if |log| > 0 {
      SelectDayAppTotal(log[1..], d, a, m);
      var rest := Select(log[1..], OnDate(d));
      if InWindow(log[0], OnDate(d)) {
        assert ([log[0]] + rest)[1..] == rest;
      }
    }
  }

  /** One app's share of a day never exceeds the day's total. */
  lemma {:induction false} DayAppWithinDay(log: Log, d: int, a: string, m: Measure)
    ensures GroupTotal(log, DateAppKey(d, a), m) <= GroupTotal(log, DateKey(d), m)
    decreases |log|
  {
    if |log| > 0 {
      DayAppWithinDay(log[1..], d, a, m);
    }
  }

  /** The labels of a filtered log are those of the rows the filter keeps. */
  lemma SelectKeys(log: Log, w: Window, g: Grouping)
    ensures forall k :: k in Keys(Select(log, w), g) <==> exists r :: r in log && InWindow(r, w) && KeyOf(r, g) == k
  {
    KeysMembers(Select(log, w), g);
  }

  /** The apps of the rows inside a window. */
  function AppsIn(log: Log, w: Window): set<string> {
    set r | r in log && InWindow(r, w) :: r.app
  }

  /** The distinct apps of a filtered log. */
  lemma SelectAppNames(log: Log, w: Window)
    ensures AppNames(Select(log, w)) == AppsIn(log, w)
  {
    var t := Select(log, w);
    forall a | a in AppNames(t) ensures a in AppsIn(log, w) {
      var i :| 0 <= i < |t| && t[i].app == a;
      assert t[i] in t;
    }
    forall a | a in AppsIn(log, w) ensures a in AppNames(t) {
      var r :| r in log && InWindow(r, w) && r.app == a;
      assert r in t;
      var i :| 0 <= i < |t| && t[i] == r;
    }
  }
}
