/** `DataProcessor`: the second copy of the loader and of the document
    builder. The loader adds a `fillna(0)` after the numeric filter, and the
    builder prints "Avg Session" where the other copies print "Average
    Session". */
module DataProcessing {
  import opened Outcomes
  import opened UsageLog
  import opened RawRows
  import opened Documents
  import UsageDataRag

  /** `load_usage_data(csv_path)`: filter the numeric rows, fill the gaps
      that are left (there are none), convert; any failure gives an empty
      table. The result is the other loader's. */
  function LoadUsageData(csv: Csv): (r: Log)
    ensures r == UsageDataRag.LoadUsageData(csv)
    ensures csv.None? ==> r == []
  {
    match csv
    case None => []
    case Some(rows) =>
      FillNaAfterKeep(rows);
      OrEmpty(ToLog(FillNa(KeepNumeric(rows))))
  }

  /** `create_documents(df)`: the unguarded build with the "Avg Session"
      caption. It matches `DocumentProcessor.create_documents` document for
      document, except that every app summary's text differs. */
  function CreateDocuments(log: Log, show: DateText): (r: seq<Doc>)
    ensures var other := UsageDataRag.CreateDocuments(log, show);
      && |r| == |other|
      && (forall i :: 0 <= i < |r| ==> r[i].meta == other[i].meta)
      && (forall i :: 0 <= i < |r| && !r[i].meta.AppMeta? ==> r[i].text == other[i].text)
      && (forall i :: 0 <= i < |r| && r[i].meta.AppMeta? ==>
            r[i].meta.sessionCount > 0 && r[i].text == SummaryText(AvgLabel, r[i].meta) && r[i].text != other[i].text)
  {
    var r := Build(log, show, AvgLabel, false);
    var other := Build(log, show, AverageLabel, false);
    CaptionOnly(log, show, AvgLabel, AverageLabel);
    forall i | 0 <= i < |r| && r[i].meta.AppMeta? ensures r[i].text != other[i].text {
      CaptionsDiffer(r[i].meta);
    }
    r
  }
}
