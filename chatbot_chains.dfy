/** The decisions of the chatbot's chains: how the RAG chain assembles its
    context from the follow-up documents and the retrieved ones, how the chain of
    thoughts reads the classifier's output and routes on it, and what the
    history-aware `invoke` records in the history.

    The language model, the retriever, the history's follow-up selection and the
    rendering of documents into a string are collaborators: their results are
    parameters. */
module ChatbotChains {
  import opened Wrappers
  import opened Documents
  import opened OrderedDict
  import opened DocSet
  import opened Sorting
  import History

  // ------------------------------------------------------------------ context assembly

  predicate AllDocs(items: seq<Item>) {
    forall i :: 0 <= i < |items| ==> items[i].DocItem?
  }

  function ItemDocs(items: seq<Item>): (r: seq<Document>)
    requires AllDocs(items)
    ensures |r| == |items|
    ensures forall i :: 0 <= i < |items| ==> items[i] == DocItem(r[i])
  {
    seq(|items|, i requires 0 <= i < |items| && AllDocs(items) => items[i].doc)
  }

  function DocItems(docs: seq<Document>): (r: seq<Item>)
    ensures AllDocs(r) && ItemDocs(r) == docs
  {
    Items(DocList(docs))
  }

  /** The dedup loop of `get_ctx` over a list that may hold characters (a string
      stored as a context): `doc.metadata` on a character raises AttributeError. */
  method UniqueItemsById(items: seq<Item>) returns (r: Result<seq<Document>>)
    ensures r == if AllDocs(items) then Success(Dedup(ItemDocs(items))) else Failure(AttributeError)
  {
    var order: seq<int> := [];
    var unique: map<int, Document> := map[];
    for i := 0 to |items|
      invariant AllDocs(items[..i])
      invariant Dict(order, unique) == Collect(ItemDocs(items[..i]))
    {
      if items[i].CharItem? {
        assert !AllDocs(items);
        return Failure(AttributeError);
      }
      var doc := items[i].doc;
      assert items[..i + 1] == items[..i] + [items[i]];
      ghost var ds := ItemDocs(items[..i + 1]);
      assert ds[..i] == ItemDocs(items[..i]) && ds[i] == doc;
      ghost var before := Dict(order, unique);
      assert Collect(ds) == before.Put(IdOrZero(doc), doc);
      var k := IdOrZero(doc);
      if k !in unique {
        order := order + [k];
      }
      unique := unique[k := doc];
      assert Dict(order, unique) == before.Put(k, doc);
    }
    assert items[..|items|] == items;
    r := Success(Dict(order, unique).Values());
  }

  /** The documents `get_ctx` formats: the follow-up items (whose first element
      must be a document), then the retrieved documents, deduplicated by id
      (missing id keyed as 0) and sorted ascending by that key. */
  function MergedDocs(followup: seq<Item>, retrieved: seq<Document>): (r: Result<seq<Document>>)
    ensures followup != [] && followup[0].CharItem? ==> r == Failure(PlainException)
    ensures r.Success? <==> AllDocs(followup)
  {
    if followup != [] && followup[0].CharItem? then Failure(PlainException)
    else
      var items := followup + DocItems(retrieved);
      assert AllDocs(items) <==> AllDocs(followup) by {
        assert forall i :: 0 <= i < |followup| ==> items[i] == followup[i];
      }
      if AllDocs(items) then Success(SortBy(Dedup(ItemDocs(items)), IdOrZero))
      else Failure(AttributeError)
  }

  /** `RAGChain.get_ctx`: errors of the follow-up selection and of the retriever
      propagate; an empty merge gives `''`; otherwise the sorted documents are
      rendered. */
  function RagCtx(followup: Result<seq<Item>>, retrieved: Result<seq<Document>>,
                  render: seq<Document> -> string): (r: Result<string>)
    ensures followup.Failure? ==> r == Failure(followup.error)
    ensures followup.Success? && followup.value == [] && retrieved == Success([]) ==> r == Success("")
  {
    match followup
    case Failure(e) => Failure(e)
    case Success(f) =>
      if f != [] && f[0].CharItem? then Failure(PlainException)
      else
        match retrieved
        case Failure(e) => Failure(e)
        case Success(ds) =>
          match MergedDocs(f, ds)
          case Failure(e) => Failure(e)
          case Success(sorted) => if sorted != [] then Success(render(sorted)) else Success("")
  }

  /** The imperative `get_ctx`: follow-up documents first, then the retrieved
      ones, then the dedup loop, the sort and the rendering. */
  method GetCtx(followup: Result<seq<Item>>, retrieved: Result<seq<Document>>,
                render: seq<Document> -> string) returns (r: Result<string>)
    ensures r == RagCtx(followup, retrieved, render)
  {
    var relevant: seq<Item> := [];
    if followup.Failure? {
      return Failure(followup.error);
    }
    var f := followup.value;
    if f != [] {
      if f[0].CharItem? {
        return Failure(PlainException);
      }
      relevant := relevant + f;
    }
    if retrieved.Failure? {
      return Failure(retrieved.error);
    }
    var docs := retrieved.value;
    if docs != [] {
      relevant := relevant + DocItems(docs);
    }
    assert relevant == f + DocItems(docs);
    var unique := UniqueItemsById(relevant);
    if unique.Failure? {
      return Failure(unique.error);
    }
    var sorted := SortBy(unique.value, IdOrZero);
    if sorted != [] {
      return Success(render(sorted));
    }
    return Success("");
  }

  // ------------------------------------------------------------------ properties of the merge

  /** On document lists, the merge is the sorted deduplication of the follow-up
      documents followed by the retrieved ones. */
  lemma MergedDocsOfDocs(followup: seq<Item>, retrieved: seq<Document>)
    requires AllDocs(followup)
    ensures MergedDocs(followup, retrieved) ==
              Success(SortBy(Dedup(ItemDocs(followup) + retrieved), IdOrZero))
  {
    var items := followup + DocItems(retrieved);
    assert forall i :: 0 <= i < |followup| ==> items[i] == followup[i];
    assert ItemDocs(items) == ItemDocs(followup) + retrieved;
  }

  /** The merged documents are in strictly ascending key order (so each key
      once), hold exactly the keys of the inputs, and for each key the last
      document written with it, the retrieved documents being written after the
      follow-up ones. */
  lemma MergedDocsSpec(followup: seq<Item>, retrieved: seq<Document>)
    requires AllDocs(followup)
    ensures var r := MergedDocs(followup, retrieved).value;
            var all := ItemDocs(followup) + retrieved;
            && (forall i, j :: 0 <= i < j < |r| ==> IdOrZero(r[i]) < IdOrZero(r[j]))
            && (forall k :: k in Keys(r) <==> k in Keys(all))
            && (forall d :: d in r ==> IdOrZero(d) in Keys(all) && d == LastWithKey(all, IdOrZero(d)))
  {
    MergedDocsOfDocs(followup, retrieved);
    SortedDedupStrict(ItemDocs(followup) + retrieved);
    SortedDedupKeys(ItemDocs(followup) + retrieved);
    SortedDedupLast(ItemDocs(followup) + retrieved);
  }

  /** Sorting the deduplicated documents gives strictly ascending keys. */
  lemma SortedDedupStrict(all: seq<Document>)
    ensures var r := SortBy(Dedup(all), IdOrZero);
            forall i, j :: 0 <= i < j < |r| ==> IdOrZero(r[i]) < IdOrZero(r[j])
  {
    var u := Dedup(all);
    DedupSpec(all);
    assert DistinctKeys(u, IdOrZero) by {
      forall i, j | 0 <= i < j < |u| ensures IdOrZero(u[i]) != IdOrZero(u[j]) {
        assert Keys(u)[i] != Keys(u)[j];
      }
    }
    SortByStrict(u, IdOrZero);
  }

  /** Sorting the deduplicated documents keeps every key of the input. */
  lemma SortedDedupKeys(all: seq<Document>)
    ensures forall k :: k in Keys(SortBy(Dedup(all), IdOrZero)) <==> k in Keys(all)
  {
    var u := Dedup(all);
    var r := SortBy(u, IdOrZero);
    DedupSpec(all);
    forall d ensures d in r <==> d in u {
      SortByHas(u, IdOrZero, d);
    }
    forall k ensures k in Keys(r) <==> k in Keys(all) {
      KeyInIff(r, u, k);
    }
  }

  /** Every sorted document is the last one written with its key. */
  lemma SortedDedupLast(all: seq<Document>)
    ensures forall d :: d in SortBy(Dedup(all), IdOrZero) ==>
              IdOrZero(d) in Keys(all) && d == LastWithKey(all, IdOrZero(d))
  {
    var u := Dedup(all);
    DedupSpec(all);
    forall d | d in SortBy(u, IdOrZero) ensures IdOrZero(d) in Keys(all) && d == LastWithKey(all, IdOrZero(d)) {
      SortByHas(u, IdOrZero, d);
      var j :| 0 <= j < |u| && u[j] == d;
    }
  }

  /** `k` is a key of a list iff it is the key of one of its documents. */
  lemma KeyInIff(a: seq<Document>, b: seq<Document>, k: int)
    requires forall d :: d in a <==> d in b
    ensures k in Keys(a) <==> k in Keys(b)
  {
    if k in Keys(a) {
      var i :| 0 <= i < |a| && Keys(a)[i] == k;
      assert a[i] in a;
      var j :| 0 <= j < |b| && b[j] == a[i];
      assert Keys(b)[j] == k;
    }
    if k in Keys(b) {
      var i :| 0 <= i < |b| && Keys(b)[i] == k;
      assert b[i] in b;
      var j :| 0 <= j < |a| && a[j] == b[i];
      assert Keys(a)[j] == k;
    }
  }

  /** A retrieved document overrides any follow-up document with its key. */
  lemma RetrievedWins(followup: seq<Item>, retrieved: seq<Document>, k: int)
    requires AllDocs(followup) && k in Keys(retrieved)
    ensures k in Keys(ItemDocs(followup) + retrieved)
    ensures LastWithKey(ItemDocs(followup) + retrieved, k) == LastWithKey(retrieved, k)
  {
    LastWithKeyInSuffix(ItemDocs(followup), retrieved, k);
  }

  /** Two documents with the same key collapse into the later one. */
  lemma SameKeyCollapses(x: Document, y: Document)
    requires IdOrZero(x) == IdOrZero(y)
    ensures Dedup([x, y]) == [y]
  {
    var k := IdOrZero(x);
    assert [x, y][..1] == [x] && [x][..0] == [];
    assert Collect([x]).keys == [k] && k in Collect([x]).entries;
    assert Collect([x, y]).keys == [k] && Collect([x, y]).entries[k] == y;
    SingleValue(Collect([x, y]), k, y);
  }

  /** A dictionary with one key lists that key's value. */
  lemma SingleValue(d: Dict<int, Document>, k: int, v: Document)
    requires d.Valid() && d.keys == [k] && k in d.entries && d.entries[k] == v
    ensures d.Values() == [v]
  {
  }

  /** Documents without an `id` are keyed 0: a document without id and one with
      id 0 collapse into a single entry, the later one. */
  lemma MissingIdCollapses(a: Document, b: Document)
    requires a.id == None && b.id == Some(0)
    ensures Dedup([a, b]) == [b]
    ensures Dedup([b, a]) == [a]
  {
    SameKeyCollapses(a, b);
    SameKeyCollapses(b, a);
  }

  /** A context string that is neither a list of documents nor empty makes
      `get_ctx` raise: a plain `Exception` when it comes first (its argument is
      the class `TypeError`), AttributeError otherwise. */
  lemma CharContextRaises(followup: seq<Item>, retrieved: seq<Document>, i: int)
    requires 0 <= i < |followup| && followup[i].CharItem?
    ensures MergedDocs(followup, retrieved) == Failure(if followup[0].CharItem? then PlainException else AttributeError)
  {
  }

  // ------------------------------------------------------------------ classification and routing

  /** `extract_type`: replaces `inp['type']` (default `{}`) by its own `'type'`
      entry (default `'conversational'`); `.get` on a non-object raises
      AttributeError. */
  function ExtractType(inp: map<string, Json>): (r: Result<map<string, Json>>)
    ensures "type" in inp && !inp["type"].JObj? <==> r.Failure?
    ensures r.Success? ==> r.value.Keys == inp.Keys + {"type"}
    ensures r.Success? ==> forall k :: k in inp && k != "type" ==> r.value[k] == inp[k]
    ensures r.Success? && "type" !in inp ==> r.value["type"] == JStr("conversational")
    ensures r.Success? && "type" in inp ==>
              r.value["type"] == if "type" in inp["type"].fields then inp["type"].fields["type"]
                                 else JStr("conversational")
  {
    var oldType := if "type" in inp then inp["type"] else JObj(map[]);
    if !oldType.JObj? then Failure(AttributeError)
    else Success(inp["type" := if "type" in oldType.fields then oldType.fields["type"] else JStr("conversational")])
  }

  datatype ChatbotRoute = ToSummarization | ToRag | ToConversational

  /** `ChainOfThoughts.branch`: `summary` and `document` have their own chain;
      everything else, `conversational` included, goes to the conversational
      chain. */
  function Branch(inp: map<string, Json>): (r: ChatbotRoute)
    ensures r == ToSummarization <==> "type" in inp && inp["type"] == JStr("summary")
    ensures r == ToRag <==> "type" in inp && inp["type"] == JStr("document")
  {
    var t := if "type" in inp then Some(inp["type"]) else None;
    if t == Some(JStr("summary")) then ToSummarization
    else if t == Some(JStr("document")) then ToRag
    else ToConversational
  }

  /** The route taken when the classifier returns `output` (`classify | branch`). */
  function Classify(inp: map<string, Json>, output: Json): Result<ChatbotRoute>
  {
    match ExtractType(inp["type" := output])
    case Failure(e) => Failure(e)
    case Success(x) => Success(Branch(x))
  }

  /** The classifier's `{"type": t}` reaches the summarisation chain exactly for
      `summary`, the RAG chain exactly for `document`; any other object goes to
      the conversational chain, and a non-object output raises. */
  lemma ClassifyRoutes(inp: map<string, Json>, output: Json)
    ensures !output.JObj? ==> Classify(inp, output) == Failure(AttributeError)
    ensures output.JObj? ==> Classify(inp, output).Success?
    ensures Classify(inp, output) == Success(ToSummarization) <==>
              output.JObj? && "type" in output.fields && output.fields["type"] == JStr("summary")
    ensures Classify(inp, output) == Success(ToRag) <==>
              output.JObj? && "type" in output.fields && output.fields["type"] == JStr("document")
    ensures output.JObj? && "type" !in output.fields ==> Classify(inp, output) == Success(ToConversational)
  {
  }

  // ------------------------------------------------------------------ invoke

  /** A chain that records each exchange in the conversation history. */
  class HistoryAwareChain {
    const history: History.ChatHistory

    constructor (history: History.ChatHistory)
      ensures this.history == history
    {
      this.history := history;
    }

    /** `invoke`: the user message is recorded before the run and the response
        only after a successful one. The handler's `error` re-raises, so an
        exception of the run always propagates. */
    method Invoke(input: string, run: string -> Result<Response>) returns (r: Result<Response>)
      modifies history
      ensures r == run(input)
      ensures history.vectorizer == old(history.vectorizer)
      ensures |history.messages| == |old(history.messages)| + (if r.Success? then 2 else 1)
      ensures history.messages[..|old(history.messages)|] == old(history.messages)
      ensures history.messages[|old(history.messages)|].message == History.HumanMessage(input)
      ensures history.messages[|old(history.messages)|].documents == DocList([])
      ensures r.Success? ==>
                && history.messages[|old(history.messages)| + 1].message == History.AIMessage(r.value.answer.GetOr(""))
                && history.messages[|old(history.messages)| + 1].documents == r.value.context.GetOr(Text(""))
    {
      history.AddMessageFromUser(input);
      ghost var afterUser := history.messages;
      r := run(input);
      if r.Failure? {
        return;
      }
      history.AddMessageFromResponse(r.value);
      assert history.messages[..|afterUser|] == afterUser;
    }
  }
}
