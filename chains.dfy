/** The chains of the second iteration: the follow-up chain's context (history
    documents, then retrieved documents, deduplicated by id), the default
    chain's retrieve / rewrite / retrieve-again decision tree, the chain of
    thoughts' routing on the classifier's label, the signature each answering
    chain puts on its output, and the error path of `Chain.invoke`. The LLM,
    the retriever's vector stores and the history's similarity search are
    collaborators: their answers come from the `Oracles` parameter. */
module Chains {
  import opened Wrappers
  import opened Documents
  import opened OrderedDict
  import opened DocSet
  import Retriever

  /** The chains that produce an answer; each signs its output with its name. */
  datatype AnsweringChain = ConversationalChain | DocumentChain | SummarizationChain | FollowupChain

  /** `self.name` of each answering chain. */
  function Name(c: AnsweringChain): (r: string)
    ensures |r| > 0 && r != "NegativeChain"
  {
    match c
    case ConversationalChain => "ConversationalChain"
    case DocumentChain => "DocumentChain"
    case SummarizationChain => "SummarizationChain"
    case FollowupChain => "FollowupChain"
  }

  /** The answers of the collaborators:
      - `retrieve(q, simplified)` is `Retriever.retrieve(q, simplified)`;
      - `rewrite(q)` is the second-chance chain's LLM rewrite of `q`;
      - `historyCtx(q, t)` is `history.get_followup_ctx(q, t)`;
      - `classify(q)` is the classifier's LLM output after the JSON parser. */
  datatype Oracles = Oracles(
    retrieve: (string, bool) -> Result<seq<Document>>,
    rewrite: string -> Result<string>,
    historyCtx: (string, real) -> Result<seq<Document>>,
    classify: string -> Result<Json>)

  /** Different chains sign with different names. */
  lemma NamesDistinct(a: AnsweringChain, b: AnsweringChain)
    requires a != b
    ensures Name(a) != Name(b)
  {
  }

  /** What reaches an answering chain's prompt: the chain, the input (possibly
      rewritten) and the `context` entry of the passthrough dict, if any. */
  datatype Dispatch = Dispatch(chain: AnsweringChain, input: string, context: Option<seq<Document>>)

  // ------------------------------------------------------------------ follow-up context

  /** `FollowupChain.get_ctx`: history documents at `threshold * simplifier`,
      then the standard retrieval, deduplicated with `doc.metadata['id']`. */
  function FollowupCtx(input: string, o: Oracles, threshold: real, simplifier: real): (r: Result<seq<Document>>)
  {
    match o.historyCtx(input, threshold * simplifier)
    case Failure(e) => Failure(e)
    case Success(h) =>
      match o.retrieve(input, false)
      case Failure(e) => Failure(e)
      case Success(d) =>
        if AllHaveIds(h + d) then Success(Dedup(h + d)) else Failure(KeyError)
  }

  method GetCtx(input: string, o: Oracles, threshold: real, simplifier: real) returns (r: Result<seq<Document>>)
    ensures r == FollowupCtx(input, o, threshold, simplifier)
  {
    var relevant: seq<Document> := [];
    var fromHistory := o.historyCtx(input, threshold * simplifier);
    if fromHistory.Failure? {
      return Failure(fromHistory.error);
    }
    relevant := relevant + fromHistory.value;
    var docs := o.retrieve(input, false);
    if docs.Failure? {
      return Failure(docs.error);
    }
    relevant := relevant + docs.value;
    assert relevant == fromHistory.value + docs.value;
    r := Retriever.UniqueByStrictId(relevant);
  }

  /** The follow-up context: the history's documents are asked for at the
      relaxed threshold and placed first; every id occurs once, in order of
      first occurrence; the document kept for an id is the last one written. */
  lemma FollowupCtxSpec(input: string, o: Oracles, threshold: real, simplifier: real)
    requires FollowupCtx(input, o, threshold, simplifier).Success?
    ensures o.historyCtx(input, threshold * simplifier).Success? && o.retrieve(input, false).Success?
    ensures var all := o.historyCtx(input, threshold * simplifier).value + o.retrieve(input, false).value;
            var r := FollowupCtx(input, o, threshold, simplifier).value;
            && Distinct(Keys(o.historyCtx(input, threshold * simplifier).value)) <= Keys(r)
            && Keys(r) == Distinct(Keys(all))
            && NoDuplicates(Keys(r))
            && forall d :: d in r ==> d.id.Some? && d == LastWithKey(all, d.id.value)
  {
    var h := o.historyCtx(input, threshold * simplifier).value;
    var all := h + o.retrieve(input, false).value;
    DedupSpec(all);
    DedupFirstOrder(h, o.retrieve(input, false).value);
    DedupSubset(all);
    forall d | d in Dedup(all) ensures d.id.Some? {
      var i :| 0 <= i < |all| && all[i] == d;
    }
  }

  /** The follow-up context is not sorted by id: it keeps first-occurrence order. */
  lemma FollowupCtxUnsorted(input: string, o: Oracles, threshold: real, simplifier: real, a: Document, b: Document)
    requires a.id == Some(2) && b.id == Some(1)
    requires o.historyCtx(input, threshold * simplifier) == Success([a])
    requires o.retrieve(input, false) == Success([b])
    ensures FollowupCtx(input, o, threshold, simplifier) == Success([a, b])
  {
    assert [a] + [b] == [a, b];
    assert AllHaveIds([a, b]);
    assert NoDuplicates(Keys([a, b])) by {
      var ks := Keys([a, b]);
      assert |ks| == 2 && ks[0] == 2 && ks[1] == 1;
    }
    DedupOfDistinct([a, b]);
  }

  /** `FollowupChain`: its own answer when the context is non-empty, the
      conversational chain otherwise. */
  function FollowupChainDispatch(input: string, o: Oracles, threshold: real, simplifier: real): (r: Result<Dispatch>)
    ensures FollowupCtx(input, o, threshold, simplifier).Failure? <==> r.Failure?
    ensures r.Success? ==> r.value.input == input && r.value.context == Some(FollowupCtx(input, o, threshold, simplifier).value)
    ensures r.Success? ==> (r.value.chain == FollowupChain <==> FollowupCtx(input, o, threshold, simplifier).value != [])
    ensures r.Success? ==> r.value.chain in {FollowupChain, ConversationalChain}
  {
    match FollowupCtx(input, o, threshold, simplifier)
    case Failure(e) => Failure(e)
    case Success(ctx) =>
      if |ctx| > 0 then Success(Dispatch(FollowupChain, input, Some(ctx)))
      else Success(Dispatch(ConversationalChain, input, Some(ctx)))
  }

  // ------------------------------------------------------------------ default chain

  /** `retrieval_chain`: simplified mode exactly when `old_input` is truthy; an
      absent `old_input` is written `""`. */
  function RetrievalChain(input: string, oldInput: string, o: Oracles): Result<seq<Document>>
  {
    o.retrieve(input, oldInput != "")
  }

  /** `DefaultChain`: retrieve; a non-empty context goes to the document chain;
      otherwise the input is rewritten, with `old_input` set to the original
      input, and retrieved again; a non-empty context then goes to the document
      chain, an empty one to the conversational chain. */
  function DefaultChainDispatch(input: string, oldInput: string, o: Oracles): (r: Result<Dispatch>)
    ensures r.Success? ==> r.value.chain in {DocumentChain, ConversationalChain}
    ensures r.Success? ==> r.value.context.Some? && (r.value.chain == DocumentChain <==> r.value.context.value != [])
  {
    match RetrievalChain(input, oldInput, o)
    case Failure(e) => Failure(e)
    case Success(ctx) =>
      if |ctx| > 0 then Success(Dispatch(DocumentChain, input, Some(ctx)))
      else
        match o.rewrite(input)
        case Failure(e) => Failure(e)
        case Success(q) =>
          match RetrievalChain(q, input, o)
          case Failure(e) => Failure(e)
          case Success(ctx2) =>
            if |ctx2| > 0 then Success(Dispatch(DocumentChain, q, Some(ctx2)))
            else Success(Dispatch(ConversationalChain, q, Some(ctx2)))
  }

  /** The decision tree of the default chain, called without `old_input`: the
      first retrieval is in standard mode and answers when it finds anything;
      otherwise the second retrieval runs on the rewritten input, in simplified
      mode exactly when the original input is non-empty, and decides between the
      document chain and the conversational chain. */
  lemma DefaultChainTree(input: string, o: Oracles)
    ensures var r := DefaultChainDispatch(input, "", o);
            && (o.retrieve(input, false).Success? && o.retrieve(input, false).value != [] ==>
                  r == Success(Dispatch(DocumentChain, input, Some(o.retrieve(input, false).value))))
            && (r.Success? && r.value.input != input ==>
                  && o.retrieve(input, false) == Success([])
                  && o.rewrite(input) == Success(r.value.input)
                  && o.retrieve(r.value.input, input != "") == Success(r.value.context.value))
            && (r.Success? && r.value.chain == ConversationalChain ==>
                  && o.retrieve(input, false) == Success([])
                  && o.rewrite(input).Success?
                  && o.retrieve(o.rewrite(input).value, input != "") == Success([]))
            && (r.Failure? ==>
                  || o.retrieve(input, false).Failure?
                  || (o.retrieve(input, false) == Success([]) && o.rewrite(input).Failure?)
                  || (o.retrieve(input, false) == Success([]) && o.rewrite(input).Success?
                      && o.retrieve(o.rewrite(input).value, input != "").Failure?))
  {
    var r := DefaultChainDispatch(input, "", o);
    if o.retrieve(input, false).Success? && o.retrieve(input, false).value == [] && o.rewrite(input).Success? {
      var q := o.rewrite(input).value;
      if r.Success? && r.value.input != input {
        assert r.value.input == q;
      }
    }
  }

  // ------------------------------------------------------------------ chain of thoughts

  datatype Route = ToSummarization | ToFollowup | ToConversational | ToDefault

  /** `ClassificationChain`: the parsed output's `.get('type', 'default')`; a
      parsed value that is not an object has no `.get`. */
  function ClassifiedType(output: Json): (r: Result<Json>)
    ensures r.Failure? <==> !output.JObj?
    ensures output.JObj? && "type" !in output.fields ==> r == Success(JStr("default"))
    ensures output.JObj? && "type" in output.fields ==> r == Success(output.fields["type"])
  {
    match output
    case JObj(fields) => Success(if "type" in fields then fields["type"] else JStr("default"))
    case _ => Failure(AttributeError)
  }

  /** `ChainOfThoughts.branch`: the first label that matches; `'document'` and
      every unknown label go to the default chain. */
  function RouteOf(kind: Json): (r: Route)
    ensures r == ToSummarization <==> kind == JStr("summary")
    ensures r == ToFollowup <==> kind == JStr("followup")
    ensures r == ToConversational <==> kind == JStr("conversational")
    ensures r == ToDefault <==> kind !in {JStr("summary"), JStr("followup"), JStr("conversational")}
  {
    if kind == JStr("summary") then ToSummarization
    else if kind == JStr("followup") then ToFollowup
    else if kind == JStr("conversational") then ToConversational
    else ToDefault
  }

  /** `ChainOfThoughts`: with an empty history the default chain answers at once;
      otherwise the classifier's label picks the chain. */
  function ChainOfThoughtsDispatch(input: string, historyEmpty: bool, o: Oracles, threshold: real, simplifier: real): (r: Result<Dispatch>)
  {
    if historyEmpty then DefaultChainDispatch(input, "", o)
    else
      match o.classify(input)
      case Failure(e) => Failure(e)
      case Success(output) =>
        match ClassifiedType(output)
        case Failure(e) => Failure(e)
        case Success(kind) =>
          match RouteOf(kind)
          case ToSummarization => Success(Dispatch(SummarizationChain, input, None))
          case ToFollowup => FollowupChainDispatch(input, o, threshold, simplifier)
          case ToConversational => Success(Dispatch(ConversationalChain, input, None))
          case ToDefault => DefaultChainDispatch(input, "", o)
  }

  /** The label the classifier gives `input`, when it gives one. */
  predicate LabelIs(input: string, o: Oracles, kind: Json) {
    o.classify(input).Success? && ClassifiedType(o.classify(input).value) == Success(kind)
  }

  /** Routing: the classifier is not consulted on an empty history; the
      summarisation chain answers exactly the `summary` label; the follow-up chain
      answers only the `followup` label with a non-empty context; the document
      chain answers only with a non-empty context, and never for the `summary`,
      `followup` or `conversational` labels; a missing label counts as
      `'default'` and reaches the default chain. */
  lemma ChainOfThoughtsRoutes(input: string, historyEmpty: bool, o: Oracles, threshold: real, simplifier: real)
    ensures var r := ChainOfThoughtsDispatch(input, historyEmpty, o, threshold, simplifier);
            && (historyEmpty ==> forall c :: r == ChainOfThoughtsDispatch(input, true, o.(classify := c), threshold, simplifier))
            && (r.Success? && r.value.chain == SummarizationChain <==> !historyEmpty && LabelIs(input, o, JStr("summary")))
            && (r.Success? && r.value.chain == FollowupChain ==>
                  !historyEmpty && LabelIs(input, o, JStr("followup")) && r.value.context.Some? && r.value.context.value != [])
            && (r.Success? && r.value.chain == DocumentChain ==>
                  && r.value.context.Some? && r.value.context.value != []
                  && (historyEmpty || (forall l :: l in {JStr("summary"), JStr("followup"), JStr("conversational")} ==> !LabelIs(input, o, l))))
            && (!historyEmpty && o.classify(input) == Success(JObj(map[])) ==> r == DefaultChainDispatch(input, "", o))
  {
    var r := ChainOfThoughtsDispatch(input, historyEmpty, o, threshold, simplifier);
    if !historyEmpty && o.classify(input).Success? && ClassifiedType(o.classify(input).value).Success? {
      var kind := ClassifiedType(o.classify(input).value).value;
      forall l | l in {JStr("summary"), JStr("followup"), JStr("conversational")} && LabelIs(input, o, l)
        ensures RouteOf(kind) != ToDefault
      {
      }
    }
  }

  // ------------------------------------------------------------------ answers and errors

  /** The answering chain's output: the passthrough dict with `answer` and
      `signature` set to the chain's name. */
  function Respond(d: Dispatch, answer: string): (r: Response)
    ensures r.signature == Some(Name(d.chain)) && r.answer == Some(answer)
    ensures r.context == if d.context.Some? then Some(DocList(d.context.value)) else None
  {
    Response(Some(answer), if d.context.Some? then Some(DocList(d.context.value)) else None, Some(Name(d.chain)))
  }

  /** `Chain.invoke`: the run's response; when it raises with no handler, the
      exception. With a handler, `handler.error(e)` runs first: a handler that
      re-raises (`reraises`) lets the exception out, one that returns leaves
      `{}` as the result. */
  function Invoke(run: Result<Response>, hasHandler: bool, reraises: bool): (r: Result<Response>)
    ensures run.Success? ==> r == run
    ensures run.Failure? && hasHandler && !reraises ==> r == Success(EmptyResponse)
    ensures run.Failure? && (!hasHandler || reraises) ==> r == run
  {
    if run.Success? then run
    else if hasHandler && !reraises then Success(EmptyResponse)
    else run
  }

  /** A full turn of the chain of thoughts through `invoke` with a handler: its
      response carries a signature exactly when the run succeeded, the name of
      the chain that answered. A handler that returns turns every failure into
      an unsigned `{}`; one that re-raises passes the run's error through. */
  lemma InvokeSignature(input: string, historyEmpty: bool, o: Oracles, threshold: real, simplifier: real,
                        llm: Dispatch -> Result<string>, reraises: bool)
    ensures var d := ChainOfThoughtsDispatch(input, historyEmpty, o, threshold, simplifier);
            var run := if d.Failure? then Failure(d.error)
                       else if llm(d.value).Failure? then Failure(llm(d.value).error)
                       else Success(Respond(d.value, llm(d.value).value));
            var r := Invoke(run, true, reraises);
            && (r.Success? <==> run.Success? || !reraises)
            && (r.Failure? ==> r == run)
            && (r.Success? ==> (r.value.signature.Some? <==> run.Success?))
            && (run.Success? ==> r.value.signature == Some(Name(d.value.chain)))
  {
  }
}
