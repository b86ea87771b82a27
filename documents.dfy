/** The LangChain `Document` as the modelled code uses it, and the values that
    travel through a chain's response dictionary. */
module Documents {
  import opened Wrappers

  /** A retrievable chunk. Its metadata keeps the slots the code reads or writes:
      `id` (an int assigned at chunk creation), `relevance_score` (attached by the
      reranker or the similarity search) and the string-valued keys
      (`title`, `type`, `source`, `description`, `url`). */
  datatype Document = Document(
    content: string,
    id: Option<int>,
    score: Option<real>,
    meta: map<string, string>)

  /** `doc.metadata.get('id', 0)`. */
  function IdOrZero(d: Document): int {
    d.id.GetOr(0)
  }

  /** What a response stores under `context`: a list of documents, or a string
      (a rendered context, or the default `''` of `response.get('context', '')`). */
  datatype ContextValue = DocList(docs: seq<Document>) | Text(text: string)

  /** An element of a list built by `ctx.extend(documents)`: extending a list with a
      string adds its characters one by one. */
  datatype Item = DocItem(doc: Document) | CharItem(c: char)

  /** The elements `list.extend(v)` adds for a stored `documents` value `v`. */
  function Items(v: ContextValue): (r: seq<Item>)
    ensures v.DocList? ==> |r| == |v.docs| && forall i :: 0 <= i < |r| ==> r[i] == DocItem(v.docs[i])
    ensures v.Text? ==> |r| == |v.text| && forall i :: 0 <= i < |r| ==> r[i] == CharItem(v.text[i])
  {
    match v
    case DocList(ds) => seq(|ds|, i requires 0 <= i < |ds| => DocItem(ds[i]))
    case Text(s) => seq(|s|, i requires 0 <= i < |s| => CharItem(s[i]))
  }

  /** The keys of a chain's response dictionary that the modelled code reads;
      `None` stands for a missing key. */
  datatype Response = Response(
    answer: Option<string>,
    context: Option<ContextValue>,
    signature: Option<string>)

  /** `{}`: what `Chain.invoke` returns after its handler has reported an error. */
  const EmptyResponse := Response(None, None, None)

  /** The JSON values a classifier's output parser can produce, as far as `.get`
      sees them: objects support it, strings and everything else do not. */
  datatype Json = JStr(s: string) | JObj(fields: map<string, Json>) | JOther
}
