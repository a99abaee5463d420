/** `DocumentProcessor.create_documents`: the copy of the document builder
    that guards the average-session division against an empty group. */
module DocumentProcessor {
  import opened UsageLog
  import opened Documents
  import UsageDataRag

  /** `create_documents(df)`: the guarded build with the "Average Session"
      caption. Because no app group is empty, its output is exactly that of
      `UsageDataRAG._create_documents`. */
  function CreateDocuments(log: Log, show: DateText): (r: seq<Doc>)
    ensures r == UsageDataRag.CreateDocuments(log, show)
    ensures SummaryTotal(r, Seconds) == Total(log, Seconds) && SummaryTotal(r, Rows) == |log|
  {
    GuardUnreachable(log, show, AverageLabel);
    Build(log, show, AverageLabel, true)
  }
}
