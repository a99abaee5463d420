/** The window tracker: once per check interval it reads the title of the
    foreground window, and each time the title changes it logs how long the
    previous one was active. Here the polled titles are a finite trace, and
    the log is what the tracker appends to the usage file, in order. */
module ActiveWindowsTracker {
  import opened Outcomes
  import opened Strings
  import opened Decimal

  // ---------------------------------------------------------------------------
  // Durations

  /** The numbers a duration text shows: hours, minutes and seconds. */
  datatype Fields = Fields(hours: nat, minutes: nat, secs: nat)

  function FieldsSeconds(f: Fields): nat {
    f.hours * 3600 + f.minutes * 60 + f.secs
  }

  /** Minutes and seconds each below sixty, as on a clock. */
  predicate Normal(f: Fields) {
    f.minutes < 60 && f.secs < 60
  }

  /** The text of `format_duration(seconds)`: hours only when there are
      some, minutes only when there are hours or minutes, and the fields
      read back as a clock reading of exactly `seconds`. */
  function FormatDuration(seconds: nat): (r: string)
    ensures ParseDuration(r).Some? && Normal(ParseDuration(r).value)
    ensures FieldsSeconds(ParseDuration(r).value) == seconds
    ensures |Split(r, ' ')| == if seconds >= 3600 then 3 else if seconds >= 60 then 2 else 1
  {
    var minutes, sec := seconds / 60, seconds % 60;
    var hours, mins := minutes / 60, minutes % 60;
    DurationArith(seconds);
    if hours > 0 then
      ThreeFields(hours, mins, sec);
      NatStr(hours) + "h " + NatStr(mins) + "m " + NatStr(sec) + "s"
    else if mins > 0 then
      TwoFields(mins, sec);
      NatStr(mins) + "m " + NatStr(sec) + "s"
    else
      OneField(sec);
      NatStr(sec) + "s"
  }

  /** The hours, minutes and seconds `format_duration` computes add back up,
      and which of them are non-zero depends on the size of the total. */
  lemma DurationArith(seconds: nat)
    ensures var minutes := seconds / 60;
      seconds == minutes / 60 * 3600 + minutes % 60 * 60 + seconds % 60
      && (minutes / 60 > 0 <==> seconds >= 3600)
      && (minutes / 60 == 0 ==> (minutes % 60 > 0 <==> seconds >= 60))
  {
    var minutes := seconds / 60;
    assert seconds == minutes * 60 + seconds % 60;
    assert minutes == minutes / 60 * 60 + minutes % 60;
  }

  /** A number in canonical digits followed by its unit letter, such as
      `12m`. */
  function Field(p: string, unit: char): Option<nat> {
    if |p| >= 2 && p[|p| - 1] == unit && Canonical(p[..|p| - 1]) then Some(DigitsValue(p[..|p| - 1])) else None
  }

  /** Reads a duration in the shape `format_duration` writes back to its
      fields; a missing field reads as zero. */
  function ParseDuration(s: string): Option<Fields> {
    var parts := Split(s, ' ');
    if |parts| == 3 then
      match (Field(parts[0], 'h'), Field(parts[1], 'm'), Field(parts[2], 's'))
      case (Some(h), Some(m), Some(x)) => Some(Fields(h, m, x))
      case _ => None
    else if |parts| == 2 then
      match (Field(parts[0], 'm'), Field(parts[1], 's'))
      case (Some(m), Some(x)) => Some(Fields(0, m, x))
      case _ => None
    else
      match Field(parts[0], 's')
      case Some(x) => Some(Fields(0, 0, x))
      case None => None
  }

  /** A number of seconds has one clock reading: two normal readings of the
      same total are the same (`divmod`'s quotient and remainder). */
  lemma NormalUnique(f: Fields, g: Fields)
    requires Normal(f) && Normal(g) && FieldsSeconds(f) == FieldsSeconds(g)
    ensures f == g
  {
    var a, b := f.minutes * 60 + f.secs, g.minutes * 60 + g.secs;
    assert 0 <= a < 3600 && 0 <= b < 3600;
    assert f.hours * 3600 + a == g.hours * 3600 + b;
    assert f.hours == g.hours;
    assert f.minutes == g.minutes;
  }

  lemma FieldOf(v: nat, unit: char)
    requires !IsDigit(unit) && unit != ' '
    ensures Field(NatStr(v) + [unit], unit) == Some(v)
    ensures NoChar(NatStr(v) + [unit], ' ')
  {
    var p := NatStr(v) + [unit];
    assert p[..|p| - 1] == NatStr(v);
  }

  lemma ThreeFields(h: nat, m: nat, x: nat)
    ensures var r := NatStr(h) + "h " + NatStr(m) + "m " + NatStr(x) + "s";
      ParseDuration(r) == Some(Fields(h, m, x)) && |Split(r, ' ')| == 3
  {
    var hs, ms, xs := NatStr(h) + "h", NatStr(m) + "m", NatStr(x) + "s";
    FieldOf(h, 'h');
    FieldOf(m, 'm');
    FieldOf(x, 's');
    LayoutThree(NatStr(h), NatStr(m), NatStr(x));
    ParseThree(hs, ms, xs, h, m, x);
  }

  /** The text of three fields is their join on spaces. */
  lemma LayoutThree(a: string, b: string, c: string)
    ensures a + "h " + b + "m " + c + "s" == Join([a + "h", b + "m", c + "s"], ' ')
  {
    var hs, ms, xs := a + "h", b + "m", c + "s";
    assert [hs, ms, xs][1..] == [ms, xs];
    assert Join([ms, xs], ' ') == ms + [' '] + xs;
    assert Join([hs, ms, xs], ' ') == hs + [' '] + (ms + [' '] + xs);
  }

  /** The text of two fields is their join on a space. */
  lemma LayoutTwo(b: string, c: string)
    ensures b + "m " + c + "s" == Join([b + "m", c + "s"], ' ')
  {
    assert Join([b + "m", c + "s"], ' ') == b + "m" + [' '] + (c + "s");
  }

  lemma ParseThree(hs: string, ms: string, xs: string, h: nat, m: nat, x: nat)
    requires Field(hs, 'h') == Some(h) && Field(ms, 'm') == Some(m) && Field(xs, 's') == Some(x)
    requires NoChar(hs, ' ') && NoChar(ms, ' ') && NoChar(xs, ' ')
    ensures ParseDuration(Join([hs, ms, xs], ' ')) == Some(Fields(h, m, x))
    ensures |Split(Join([hs, ms, xs], ' '), ' ')| == 3
  {
    SplitJoin([hs, ms, xs], ' ');
  }

  lemma TwoFields(m: nat, x: nat)
    ensures var r := NatStr(m) + "m " + NatStr(x) + "s";
      ParseDuration(r) == Some(Fields(0, m, x)) && |Split(r, ' ')| == 2
  {
    var ms, xs := NatStr(m) + "m", NatStr(x) + "s";
    FieldOf(m, 'm');
    FieldOf(x, 's');
    LayoutTwo(NatStr(m), NatStr(x));
    ParseTwo(ms, xs, m, x);
  }

  lemma ParseTwo(ms: string, xs: string, m: nat, x: nat)
    requires Field(ms, 'm') == Some(m) && Field(xs, 's') == Some(x)
    requires NoChar(ms, ' ') && NoChar(xs, ' ')
    ensures ParseDuration(Join([ms, xs], ' ')) == Some(Fields(0, m, x))
    ensures |Split(Join([ms, xs], ' '), ' ')| == 2
  {
    SplitJoin([ms, xs], ' ');
  }

  lemma OneField(x: nat)
    ensures ParseDuration(NatStr(x) + "s") == Some(Fields(0, 0, x)) && |Split(NatStr(x) + "s", ' ')| == 1
  {
    FieldOf(x, 's');
    SplitJoin([NatStr(x) + "s"], ' ');
  }

  /** A field that parses is the rendering of its value and its unit. */
  lemma FieldText(p: string, unit: char, v: nat)
    requires Field(p, unit) == Some(v)
    ensures p == NatStr(v) + [unit]
  {
    CanonicalNatStr(p[..|p| - 1]);
    assert p == p[..|p| - 1] + [unit];
  }

  /** The contract of `FormatDuration` fixes its text: a text whose fields
      parse as a clock reading of `seconds`, laid out in as many fields as
      `format_duration` uses for that total, is `format_duration(seconds)`. */
  lemma DurationTextDetermined(t: string, seconds: nat)
    requires ParseDuration(t).Some? && Normal(ParseDuration(t).value)
    requires FieldsSeconds(ParseDuration(t).value) == seconds
    requires |Split(t, ' ')| == if seconds >= 3600 then 3 else if seconds >= 60 then 2 else 1
    ensures t == FormatDuration(seconds)
  {
    var parts, f := Split(t, ' '), ParseDuration(t).value;
    var minutes := seconds / 60;
    DurationArith(seconds);
    NormalUnique(f, Fields(minutes / 60, minutes % 60, seconds % 60));
    if |parts| == 3 {
      TextOfThree(t, f.hours, f.minutes, f.secs);
    } else if |parts| == 2 {
      TextOfTwo(t, f.minutes, f.secs);
    } else {
      TextOfOne(t, f.secs);
    }
  }

  lemma TextOfThree(t: string, h: nat, m: nat, x: nat)
    requires var parts := Split(t, ' ');
      |parts| == 3 && Field(parts[0], 'h') == Some(h) && Field(parts[1], 'm') == Some(m) && Field(parts[2], 's') == Some(x)
    ensures t == NatStr(h) + "h " + NatStr(m) + "m " + NatStr(x) + "s"
  {
    var parts := Split(t, ' ');
    JoinSplit(t, ' ');
    FieldText(parts[0], 'h', h);
    FieldText(parts[1], 'm', m);
    FieldText(parts[2], 's', x);
    assert parts == [parts[0], parts[1], parts[2]];
    LayoutThree(NatStr(h), NatStr(m), NatStr(x));
  }

  lemma TextOfTwo(t: string, m: nat, x: nat)
    requires var parts := Split(t, ' ');
      |parts| == 2 && Field(parts[0], 'm') == Some(m) && Field(parts[1], 's') == Some(x)
    ensures t == NatStr(m) + "m " + NatStr(x) + "s"
  {
    var parts := Split(t, ' ');
    JoinSplit(t, ' ');
    FieldText(parts[0], 'm', m);
    FieldText(parts[1], 's', x);
    assert parts == [parts[0], parts[1]];
    LayoutTwo(NatStr(m), NatStr(x));
  }

  lemma TextOfOne(t: string, x: nat)
    requires var parts := Split(t, ' ');
      |parts| == 1 && Field(parts[0], 's') == Some(x)
    ensures t == NatStr(x) + "s"
  {
    var parts := Split(t, ' ');
    JoinSplit(t, ' ');
    FieldText(parts[0], 's', x);
    assert parts == [parts[0]];
  }

  // ---------------------------------------------------------------------------
  // Sessions

  const CheckInterval: nat := 1

  /** Titles that are skipped as if the poll had not happened: no title, the
      Start menu and the Task Manager of a Turkish Windows. */
  const IgnoredTitles: seq<string> := ["", "Ba\U{015F}lat", "G\U{00F6}rev Y\U{00F6}neticisi"]

  /** One row appended to the usage file: a title and its active seconds. */
  datatype Session = Session(title: string, seconds: nat)

  /** The loop's variables: the current title (`None` before the first
      counted poll), its active time so far, and the rows logged. */
  datatype State = State(last: Option<string>, activeTime: nat, logged: seq<Session>)

  const Start := State(None, 0, [])

  /** Python truthiness of `last_title`. */
  predicate Truthy(t: Option<string>) {
    t.Some? && t.value != ""
  }

  /** One iteration of the loop. An ignored title changes nothing; the
      current title extends its session; a new title closes the previous
      session, if any, and opens its own. Rows are only ever appended. */
  function Poll(st: State, title: string): (r: State)
    ensures title in IgnoredTitles ==> r == st
    ensures title !in IgnoredTitles ==> r.last == Some(title)
    ensures |st.logged| <= |r.logged| <= |st.logged| + 1 && r.logged[..|st.logged|] == st.logged
  {
    if title in IgnoredTitles then st
    else if st.last == Some(title) then st.(activeTime := st.activeTime + CheckInterval)
    else
      var logged := if Truthy(st.last) then st.logged + [Session(st.last.value, st.activeTime)] else st.logged;
      assert logged[..|st.logged|] == st.logged;
      State(Some(title), CheckInterval, logged)
  }

  /** The state after polling every title of the trace, in order. */
  function Trace(ts: seq<string>): State {
    if |ts| == 0 then Start else Poll(Trace(ts[..|ts| - 1]), ts[|ts| - 1])
  }

  /** The `KeyboardInterrupt` handler: the open session, if any, is logged
      too. */
  function Interrupt(st: State): (r: seq<Session>)
    ensures |st.logged| <= |r| <= |st.logged| + 1 && r[..|st.logged|] == st.logged
  {
    if Truthy(st.last) then st.logged + [Session(st.last.value, st.activeTime)] else st.logged
  }

  /** Everything the tracker logs over a trace that ends in an interrupt:
      one row per maximal run of equal titles among the counted polls, with
      the run's length as its seconds. */
  function Track(ts: seq<string>): (r: seq<Session>)
    ensures r == Runs(Kept(ts)) && Expand(r) == Kept(ts)
    ensures forall i :: 0 <= i < |r| ==> r[i].seconds >= 1 && r[i].title !in IgnoredTitles
    ensures forall i :: 0 <= i < |r| - 1 ==> r[i].title != r[i + 1].title
    ensures SessionsTotal(r) == |Kept(ts)|
  {
    TraceRuns(ts);
    Interrupt(Trace(ts))
  }

  // ---------------------------------------------------------------------------
  // The reference: runs of equal titles

  /** The polls that count, in order. */
  function Kept(ts: seq<string>): (r: seq<string>)
    ensures forall i :: 0 <= i < |r| ==> r[i] !in IgnoredTitles
  {
    if |ts| == 0 then []
    else if ts[|ts| - 1] in IgnoredTitles then Kept(ts[..|ts| - 1])
    else Kept(ts[..|ts| - 1]) + [ts[|ts| - 1]]
  }

  function SessionsTotal(rs: seq<Session>): nat {
    if |rs| == 0 then 0 else SessionsTotal(rs[..|rs| - 1]) + rs[|rs| - 1].seconds
  }

  /** One more poll of `x` after the runs `rs`. */
  function Extend(rs: seq<Session>, x: string): seq<Session> {
    if |rs| > 0 && rs[|rs| - 1].title == x then rs[..|rs| - 1] + [Session(x, rs[|rs| - 1].seconds + 1)]
    else rs + [Session(x, 1)]
  }

  /** The polls a row stands for: its title once per second. */
  function Repeat(t: string, n: nat): (r: seq<string>)
    ensures |r| == n && forall i :: 0 <= i < n ==> r[i] == t
  {
    seq(n, _ => t)
  }

  /** The polls a list of rows stands for, in order: the decoding of a
      run-length encoding. */
  function Expand(rs: seq<Session>): seq<string> {
    if |rs| == 0 then [] else Expand(rs[..|rs| - 1]) + Repeat(rs[|rs| - 1].title, rs[|rs| - 1].seconds)
  }

  /** The maximal runs of equal titles in `xs`: they decode back to `xs`,
      neighbouring runs differ and none is empty, which leaves only one
      choice. */
  function Runs(xs: seq<string>): (r: seq<Session>)
    ensures Expand(r) == xs
    ensures |r| == 0 <==> |xs| == 0
    ensures |r| > 0 ==> r[|r| - 1].title == xs[|xs| - 1]
    ensures forall i :: 0 <= i < |r| ==> r[i].seconds >= 1 && r[i].title in xs
    ensures forall i :: 0 <= i < |r| - 1 ==> r[i].title != r[i + 1].title
    ensures SessionsTotal(r) == |xs|
  {
    if |xs| == 0 then []
    else
      var init, x := xs[..|xs| - 1], xs[|xs| - 1];
      var rs := Runs(init);
      assert xs == init + [x];
      ExtendTotal(rs, x);
      ExtendRuns(rs, init, x);
      ExtendExpand(rs, x);
      Extend(rs, x)
  }

  /** Rows that decode to `xs`, with no empty row and no two neighbours
      sharing a title, are the runs of `xs`. */
  lemma {:induction false} RunsUnique(rs: seq<Session>, xs: seq<string>)
    requires Expand(rs) == xs
    requires forall i :: 0 <= i < |rs| ==> rs[i].seconds >= 1
    requires forall i :: 0 <= i < |rs| - 1 ==> rs[i].title != rs[i + 1].title
    ensures rs == Runs(xs)
    decreases |xs|
  {
    if |rs| > 0 {
      var x := rs[|rs| - 1].title;
      var shorter := ShortenRun(rs);
      RunsUnique(shorter, Expand(shorter));
      RunsSnoc(Expand(shorter), x);
    }
  }

  /** The rows before the last poll: the last row one second shorter, or
      gone when it lasted one second. */
  lemma ShortenRun(rs: seq<Session>) returns (shorter: seq<Session>)
    requires |rs| > 0
    requires forall i :: 0 <= i < |rs| ==> rs[i].seconds >= 1
    requires forall i :: 0 <= i < |rs| - 1 ==> rs[i].title != rs[i + 1].title
    ensures Expand(rs) == Expand(shorter) + [rs[|rs| - 1].title]
    ensures Extend(shorter, rs[|rs| - 1].title) == rs
    ensures forall i :: 0 <= i < |shorter| ==> shorter[i].seconds >= 1
    ensures forall i :: 0 <= i < |shorter| - 1 ==> shorter[i].title != shorter[i + 1].title
  {
    var n, x, k := |rs| - 1, rs[|rs| - 1].title, rs[|rs| - 1].seconds;
    assert Expand(rs) == Expand(rs[..n]) + Repeat(x, k);
    if k == 1 {
      shorter := rs[..n];
      assert Repeat(x, 1) == [x];
      assert rs == rs[..n] + [Session(x, 1)];
    } else {
      shorter := rs[..n] + [Session(x, k - 1)];
      assert shorter[..n] == rs[..n];
      assert Repeat(x, k) == Repeat(x, k - 1) + [x];
      assert rs == shorter[..n] + [Session(x, k)];
    }
  }

  /** The runs of one more poll extend the runs before it. */
  lemma RunsSnoc(init: seq<string>, x: string)
    ensures Runs(init + [x]) == Extend(Runs(init), x)
  {
    var xs := init + [x];
    assert xs[..|xs| - 1] == init;
  }

  /** One more poll of `x` decodes to one more `x` at the end. */
  lemma ExtendExpand(rs: seq<Session>, x: string)
    ensures Expand(Extend(rs, x)) == Expand(rs) + [x]
  {
    var r := Extend(rs, x);
    if |rs| > 0 && rs[|rs| - 1].title == x {
      var n, k := |rs| - 1, rs[|rs| - 1].seconds;
      assert r[..n] == rs[..n];
      assert Repeat(x, k + 1) == Repeat(x, k) + [x];
    } else {
      assert r[..|rs|] == rs;
      assert Repeat(x, 1) == [x];
    }
  }

  /** One more poll keeps the runs of `init` the runs of `init + [x]`. */
  lemma ExtendRuns(rs: seq<Session>, init: seq<string>, x: string)
    requires forall i :: 0 <= i < |rs| ==> rs[i].seconds >= 1 && rs[i].title in init
    requires forall i :: 0 <= i < |rs| - 1 ==> rs[i].title != rs[i + 1].title
    ensures var r := Extend(rs, x);
      && |r| > 0 && r[|r| - 1].title == x
      && (forall i :: 0 <= i < |r| ==> r[i].seconds >= 1 && r[i].title in init + [x])
      && (forall i :: 0 <= i < |r| - 1 ==> r[i].title != r[i + 1].title)
  {
    var r := Extend(rs, x);
    forall i | 0 <= i < |r| ensures r[i].title in init + [x] {
      if i < |rs| && r[i] == rs[i] {
        assert rs[i].title in init;
      }
    }
  }

  lemma ExtendTotal(rs: seq<Session>, x: string)
    ensures SessionsTotal(Extend(rs, x)) == SessionsTotal(rs) + 1
  {
    var r := Extend(rs, x);
    if |rs| > 0 && rs[|rs| - 1].title == x {
      var n := |rs| - 1;
      assert r[..n] == rs[..n];
    } else {
      assert r[..|rs|] == rs;
    }
  }

  /** The loop variables mirror the runs `rs`: all but the last run are
      logged, and the last one is open with its length as active time. */
  predicate Mirrors(st: State, rs: seq<Session>) {
    && (|rs| == 0 ==> st.last == None && st.logged == [])
    && (|rs| > 0 ==>
          st.last == Some(rs[|rs| - 1].title) && st.activeTime == rs[|rs| - 1].seconds
          && st.logged == rs[..|rs| - 1] && rs[|rs| - 1].title != "")
  }

  /** A counted poll keeps the mirror: the loop and `Extend` agree. */
  lemma PollExtends(st: State, rs: seq<Session>, t: string)
    requires Mirrors(st, rs) && t !in IgnoredTitles
    ensures Mirrors(Poll(st, t), Extend(rs, t))
  {
    assert t != "" by {
      assert IgnoredTitles[0] == "";
    }
    var r := Extend(rs, t);
    if |rs| > 0 && rs[|rs| - 1].title == t {
      assert r[..|r| - 1] == rs[..|rs| - 1];
    } else if |rs| > 0 {
      assert Truthy(st.last);
      assert r[..|r| - 1] == rs == st.logged + [Session(st.last.value, st.activeTime)];
    }
  }

  /** The interrupt closes the open run, so everything is logged. */
  lemma InterruptLogsAll(st: State, rs: seq<Session>)
    requires Mirrors(st, rs)
    ensures Interrupt(st) == rs
  {
    if |rs| > 0 {
      assert st.logged + [Session(st.last.value, st.activeTime)] == rs;
    }
  }

  /** After any trace, the loop variables mirror the runs of the counted
      polls so far, and the interrupt logs them all. */
  lemma {:induction false} TraceRuns(ts: seq<string>)
    ensures Mirrors(Trace(ts), Runs(Kept(ts)))
    ensures Interrupt(Trace(ts)) == Runs(Kept(ts))
    decreases |ts|
  {
    if |ts| > 0 {
      var init, t := ts[..|ts| - 1], ts[|ts| - 1];
      TraceRuns(init);
      if t !in IgnoredTitles {
        assert Kept(ts) == Kept(init) + [t];
        assert Kept(ts)[..|Kept(ts)| - 1] == Kept(init);
        PollExtends(Trace(init), Runs(Kept(init)), t);
      }
    }
    InterruptLogsAll(Trace(ts), Runs(Kept(ts)));
  }
}
