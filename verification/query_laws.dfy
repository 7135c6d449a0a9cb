/**
 * The record mappers of the law query service: `formatDocs`, which turns
 * retrieved documents into the context records the prompt sees, and the
 * fallback that makes a structured answer without results an empty list.
 *
 * Retrieval, the prompt and both model calls are foreign and are not
 * modelled; the structured answer is an input.
 */
module QueryLaws {
  import opened Options
  import JsText

  /**
   * The metadata fields the mapper reads; a field is `None` when missing or
   * null, and the store may attach any other fields.
   */
  datatype Metadata = Metadata(
    abbreviation: Option<string>,
    title: Option<string>,
    tags: Option<seq<string>>,
    extra: map<string, string>)

  /** A retrieved document. */
  datatype Document = Document(pageContent: string, metadata: Metadata)

  /** What `formatDocs` makes of a document; `None` is `null`. */
  datatype FormattedDoc = FormattedDoc(abbreviation: Option<string>, title: Option<string>, text: string, tags: seq<string>)

  /** One item of the structured answer. */
  datatype QueryResult = QueryResult(abbreviation: string, tags: seq<string>, title: string, text: string, queryResult: string)

  /** `value || null` for a string field: missing, null and "" all become null. */
  function OrNull(v: Option<string>): (r: Option<string>)
    ensures r.Some? <==> v.Some? && v.value != []
    ensures r.Some? ==> r == v
  {
    match v
    case Some(s) => if JsText.Truthy(s) then v else None
    case None => None
  }

  /**
   * `xs || []`, for `tags` and for `structured.results` (a list of
   * `QueryResult`): a list, even an empty one, is kept; a missing one
   * becomes empty.
   */
  function OrEmpty<T>(v: Option<seq<T>>): (r: seq<T>)
    ensures v.Some? ==> r == v.value
    ensures v.None? ==> r == []
  {
    v.GetOr([])
  }

  /** One document's record. */
  function FormatDoc(d: Document): (f: FormattedDoc)
    ensures f.text == d.pageContent
    ensures f.abbreviation == OrNull(d.metadata.abbreviation)
    ensures f.title == OrNull(d.metadata.title)
    ensures f.tags == OrEmpty(d.metadata.tags)
  {
    FormattedDoc(OrNull(d.metadata.abbreviation), OrNull(d.metadata.title), d.pageContent, OrEmpty(d.metadata.tags))
  }

  /** `formatDocs`: one record per document, in order. */
  function FormatDocs(docs: seq<Document>): (r: seq<FormattedDoc>)
    ensures |r| == |docs|
    ensures forall i :: 0 <= i < |r| ==> r[i] == FormatDoc(docs[i])
  {
    seq(|docs|, i requires 0 <= i < |docs| => FormatDoc(docs[i]))
  }

  /** A record read back as a document whose metadata holds exactly its fields. */
  function AsDocument(f: FormattedDoc): Document {
    Document(f.text, Metadata(f.abbreviation, f.title, Some(f.tags), map[]))
  }

  /**
   * Formatting is idempotent: formatting the records again, read back as
   * documents, gives the same records, since no record holds an empty
   * abbreviation or title.
   */
  lemma FormatDocsIdempotent(docs: seq<Document>)
    ensures var once := FormatDocs(docs);
      FormatDocs(seq(|once|, i requires 0 <= i < |once| => AsDocument(once[i]))) == once
  {
    var once := FormatDocs(docs);
    var again := FormatDocs(seq(|once|, i requires 0 <= i < |once| => AsDocument(once[i])));
    forall i | 0 <= i < |once|
      ensures again[i] == once[i]
    {
      assert OrNull(once[i].abbreviation) == once[i].abbreviation;
      assert OrNull(once[i].title) == once[i].title;
    }
  }

  /**
   * The record depends on the content and the three fields alone; whatever
   * else the store keeps in the metadata is dropped.
   */
  lemma FormatIgnoresOtherMetadata(d: Document, extra: map<string, string>)
    ensures FormatDoc(d.(metadata := d.metadata.(extra := extra))) == FormatDoc(d)
  {
  }
}
