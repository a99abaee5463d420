/** `VectorStoreManager`: the embedding model and the nearest-neighbour
    search are an oracle here. What the manager adds around them is the id
    scheme of the stored documents and the cleaning and joining of the texts
    a query returns. */
module VectorStoreManager {
  import opened Outcomes
  import opened Strings
  import opened Decimal
  import opened Documents

  // ---------------------------------------------------------------------------
  // Storing

  const IdPrefix := "doc_"

  /** `id` is the prefix followed by the decimal digits of `i`. */
  predicate NamesPosition(id: string, i: nat) {
    |id| > |IdPrefix| && id[..|IdPrefix|] == IdPrefix
    && AllDigits(id[|IdPrefix|..]) && DigitsValue(id[|IdPrefix|..]) == i
  }

  /** The id of the document at position `i` of a batch. */
  function DocId(i: nat): (id: string)
    ensures NamesPosition(id, i)
  {
    var id := IdPrefix + NatStr(i);
    assert id[|IdPrefix|..] == NatStr(i);
    id
  }

  /** Positions can be read back from ids, so distinct positions get
      distinct ids. */
  lemma DocIdInjective(i: nat, j: nat)
    requires DocId(i) == DocId(j)
    ensures i == j
  {
  }

  /** One entry of the collection: id, text and metadata. */
  datatype Stored = Stored(id: string, text: string, meta: Meta)

  /** `add_documents(documents)`: what the collection is given, one entry
      per document, in the supplied order. */
  function AddDocuments(docs: seq<Doc>): (r: seq<Stored>)
    ensures |r| == |docs|
    ensures forall i :: 0 <= i < |docs| ==> r[i].text == docs[i].text && r[i].meta == docs[i].meta
    ensures forall i :: 0 <= i < |docs| ==> NamesPosition(r[i].id, i)
    ensures forall i, j :: 0 <= i < |docs| && 0 <= j < |docs| && i != j ==> r[i].id != r[j].id
  {
    var r := seq(|docs|, i requires 0 <= i < |docs| => Stored(DocId(i), docs[i].text, docs[i].meta));
    assert forall i, j :: 0 <= i < |docs| && 0 <= j < |docs| && i != j ==> r[i].id != r[j].id by {
      forall i, j | 0 <= i < |docs| && 0 <= j < |docs| && r[i].id == r[j].id ensures i == j {
        DocIdInjective(i, j);
      }
    }
    r
  }

  // ---------------------------------------------------------------------------
  // Querying

  /** The `documents` entry of a query result: absent, or one list of texts
      per query embedding. */
  datatype QueryResult = QueryResult(documents: Option<seq<seq<string>>>)

  /** The search behind `query(query_text, n_results)`: a result, or an
      exception from the embedding model or the store. */
  type Search = (string, nat) -> Outcome<QueryResult>

  const DefaultResults := 3

  const NothingFound := "No relevant data found."

  /** `doc.strip().replace('\n', ' ')`. */
  function CleanDoc(doc: string): (r: string)
    ensures NoChar(r, '\n') && Trimmed(r)
    ensures |r| == |Strip(doc)|
    ensures forall i :: 0 <= i < |r| ==> r[i] == if Strip(doc)[i] == '\n' then ' ' else Strip(doc)[i]
  {
    var s := Strip(doc);
    var r := ReplaceChar(s, '\n', ' ');
    assert |r| > 0 ==> r[0] == s[0] && r[|r| - 1] == s[|s| - 1];
    r
  }

  function CleanAll(docs: seq<string>): (r: seq<string>)
    ensures |r| == |docs|
    ensures forall i :: 0 <= i < |docs| ==> r[i] == CleanDoc(docs[i])
  {
    seq(|docs|, i requires 0 <= i < |docs| => CleanDoc(docs[i]))
  }

  /** The answer holds texts exactly when the first query's list is there
      and non-empty. */
  predicate Found(res: QueryResult) {
    res.documents.Some? && |res.documents.value| > 0 && |res.documents.value[0]| > 0
  }

  /** The text made of a query result: the first query's documents, cleaned
      and joined by newlines, or the fixed notice when there are none. */
  function Format(res: QueryResult): (r: string)
    ensures !Found(res) ==> r == NothingFound
    ensures Found(res) ==> Split(r, '\n') == CleanAll(res.documents.value[0])
  {
    if Found(res) then
      var cleaned := CleanAll(res.documents.value[0]);
      SplitJoin(cleaned, '\n');
      Join(cleaned, '\n')
    else NothingFound
  }

  /** `query_relevant_docs(query_text, n_results)`: exceptions of the search
      pass through to the caller. */
  function QueryRelevantDocs(search: Search, queryText: string, nResults: nat := DefaultResults): (r: Outcome<string>)
    ensures r.Raised? <==> search(queryText, nResults).Raised?
    ensures r.Returned? && !Found(search(queryText, nResults).value) ==> r.value == NothingFound
    ensures r.Returned? && Found(search(queryText, nResults).value) ==>
      Split(r.value, '\n') == CleanAll(search(queryText, nResults).value.documents.value[0])
  {
    match search(queryText, nResults)
    case Raised => Raised
    case Returned(res) => Returned(Format(res))
  }
}
