/** The rows of the usage CSV as the loaders see them after pandas has
    parsed the cells, and the loaders' row policy: rows whose duration is not
    a number are dropped, and a timestamp `to_datetime` cannot read aborts
    the whole load. */
module RawRows {
  import opened Outcomes
  import opened UsageLog

  /** A `duration` cell after `pd.to_numeric(errors="coerce")`: a whole
      number of seconds, or `NaN` for text that is not a number. */
  datatype Cell = Whole(n: nat) | NaN

  /** A `timestamp` cell: the day number and hour it names, or text that
      `pd.to_datetime` rejects. */
  datatype Stamp = At(date: int, hour: Hour) | Unparsable

  datatype RawRow = RawRow(app: string, duration: Cell, stamp: Stamp)

  /** The file's rows, or `None` when `read_csv` fails. */
  type Csv = Option<seq<RawRow>>

  predicate AllNumeric(rows: seq<RawRow>) {
    forall i :: 0 <= i < |rows| ==> rows[i].duration.Whole?
  }

  /** `df[df["duration"].notnull()]`: the numeric rows, in file order. */
  function KeepNumeric(rows: seq<RawRow>): (r: seq<RawRow>)
    ensures AllNumeric(r)
    ensures forall x :: x in r <==> x in rows && x.duration.Whole?
    ensures |r| <= |rows|
    ensures |rows| == 1 ==> r == if rows[0].duration.Whole? then rows else []
  {
    if |rows| == 0 then []
    else
      var rest := KeepNumeric(rows[1..]);
      assert forall x :: x in rows <==> x == rows[0] || x in rows[1..];
      if rows[0].duration.Whole? then [rows[0]] + rest else rest
  }

  /** The filter works row by row: filtering two stretches of the file and
      putting the results together is filtering the whole. With the one-row
      case this pins the result down: each numeric row once, in file order. */
  lemma {:induction false} KeepNumericAppend(a: seq<RawRow>, b: seq<RawRow>)
    ensures KeepNumeric(a + b) == KeepNumeric(a) + KeepNumeric(b)
    decreases |a|
  {
    if |a| == 0 {
      assert a + b == b;
    } else {
      assert (a + b)[0] == a[0];
      assert (a + b)[1..] == a[1..] + b;
      KeepNumericAppend(a[1..], b);
    }
  }

  /** `fillna(0)` on the duration column. */
  function FillNa(rows: seq<RawRow>): (r: seq<RawRow>)
    ensures |r| == |rows| && AllNumeric(r)
  {
    seq(|rows|, i requires 0 <= i < |rows| =>
      if rows[i].duration.NaN? then rows[i].(duration := Whole(0)) else rows[i])
  }

  /** Filling gaps after dropping them changes nothing. */
  lemma FillNaAfterKeep(rows: seq<RawRow>)
    ensures FillNa(KeepNumeric(rows)) == KeepNumeric(rows)
  {
  }

  /** The record a parsed row becomes. */
  function Convert(x: RawRow): Record
    requires x.duration.Whole? && x.stamp.At?
  {
    Record(x.app, x.duration.n, x.stamp.date, x.stamp.hour)
  }

  /** `to_datetime` followed by `.dt.date` and `.dt.hour`: one record per row,
      unless some stamp is unreadable, which raises. */
  function ToLog(rows: seq<RawRow>): (r: Outcome<Log>)
    requires AllNumeric(rows)
    ensures r.Raised? <==> exists x :: x in rows && x.stamp.Unparsable?
    ensures r.Returned? ==>
      |r.value| == |rows| && forall i :: 0 <= i < |rows| ==> rows[i].stamp.At? && r.value[i] == Convert(rows[i])
  {
    if |rows| == 0 then Returned([])
    else
      assert forall x :: x in rows <==> x == rows[0] || x in rows[1..];
      match ToLog(rows[1..])
      case Raised => Raised
      case Returned(rest) =>
        if rows[0].stamp.Unparsable? then Raised else Returned([Convert(rows[0])] + rest)
  }

  /** The loaders' `except` branch: any failure gives an empty table. */
  function OrEmpty(r: Outcome<Log>): Log {
    if r.Returned? then r.value else []
  }
}
