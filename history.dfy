/** The conversation memory of the chatbot: a list of messages, each with the
    documents that answered it, a per-message embedding cache, and the selection
    of earlier documents for a follow-up question by similarity.

    The TF-IDF vectorizer and the cosine similarity are foreign numerics: an
    `Oracle` stands for them. `canFit` says whether the vectorizer can be fitted
    on a corpus (it cannot when the corpus yields an empty vocabulary),
    `transform` embeds a text under a fitted model, `cosine` compares two
    vectors. */
module History {
  import opened Wrappers
  import opened Documents
  import opened PyStr

  datatype Message = HumanMessage(content: string) | AIMessage(content: string)

  type Vector = seq<real>

  /** A vectorizer fitted on a corpus. */
  datatype Model = Fitted(corpus: seq<string>)

  datatype Oracle = Oracle(
    canFit: seq<string> -> bool,
    transform: (Model, string) -> Vector,
    cosine: (Vector, Vector) -> real)

  /** The page contents of a document list. */
  function Contents(docs: seq<Document>): (r: seq<string>)
    ensures |r| == |docs|
    ensures forall i :: 0 <= i < |docs| ==> r[i] == docs[i].content
  {
    seq(|docs|, i requires 0 <= i < |docs| => docs[i].content)
  }

  /** A stored context that breaks `doc.page_content`: a non-empty string, whose
      elements are characters. */
  predicate IsBadContext(v: ContextValue) {
    v.Text? && v.text != ""
  }

  /** The text a message is embedded as: its content, a space, and the contents
      of its documents joined by spaces. */
  function FullText(m: Message, docs: ContextValue): (r: Result<string>)
    ensures r.Failure? <==> IsBadContext(docs)
    ensures r.Failure? ==> r.error == AttributeError
    ensures r.Success? ==> StartsWith(r.value, m.content + " ")
    ensures r.Success? && (docs == DocList([]) || docs == Text("")) ==> r.value == m.content + " "
  {
    match docs
    case DocList(ds) => Success(m.content + " " + Join(" ", Contents(ds)))
    case Text(s) => if s == "" then Success(m.content + " ") else Failure(AttributeError)
  }

  /** `vectorizer.transform([text])`: with no fitted vectorizer, the attribute
      lookup on `None` fails. */
  function Transform(vz: Option<Model>, o: Oracle, text: string): (r: Result<Vector>)
    ensures r.Failure? <==> vz.None?
    ensures r.Failure? ==> r.error == AttributeError
  {
    match vz
    case None => Failure(AttributeError)
    case Some(m) => Success(o.transform(m, text))
  }

  /** `TfidfVectorizer().fit(texts)`: an empty corpus, or one the vectorizer
      cannot fit, raises ValueError. */
  function Fit(texts: seq<string>, o: Oracle): (r: Result<Model>)
    ensures r.Success? <==> texts != [] && o.canFit(texts)
    ensures r.Failure? ==> r.error == ValueError
    ensures r.Success? ==> r.value.corpus == texts
  {
    if texts != [] && o.canFit(texts) then Success(Fitted(texts)) else Failure(ValueError)
  }

  class MessageWithDocs {
    const message: Message
    const documents: ContextValue
    /** The cached embedding, filled by the first `EmbedSelf`. */
    var vector: Option<Vector>

    constructor (message: Message, documents: ContextValue)
      ensures this.message == message && this.documents == documents && vector == None
    {
      this.message := message;
      this.documents := documents;
      vector := None;
    }

    /** What `EmbedSelf` returns in the current state: the cached vector if there
        is one, whatever vectorizer is passed, otherwise a fresh embedding. */
    function Embedding(vz: Option<Model>, o: Oracle): (r: Result<Vector>)
      reads this
      ensures vector.Some? ==> r == Success(vector.value)
      ensures vector.None? && IsBadContext(documents) ==> r == Failure(AttributeError)
      ensures vector.None? && vz.None? ==> r == Failure(AttributeError)
    {
      if vector.Some? then Success(vector.value)
      else
        match FullText(message, documents)
        case Failure(e) => Failure(e)
        case Success(t) => Transform(vz, o, t)
    }

    /** Embeds the message at most once: a successful embedding is cached, and
        later calls return the cached vector. */
    method EmbedSelf(vz: Option<Model>, o: Oracle) returns (r: Result<Vector>)
      modifies this
      ensures r == old(Embedding(vz, o))
      ensures vector == if old(vector).None? && r.Success? then Some(r.value) else old(vector)
      ensures r.Success? ==> forall vz' :: Embedding(vz', o) == r
    {
      if vector.None? {
        var text := FullText(message, documents);
        if text.Failure? {
          return Failure(text.error);
        }
        var v := Transform(vz, o, text.value);
        if v.Failure? {
          return v;
        }
        vector := Some(v.value);
      }
      r := Success(vector.value);
    }
  }

  // ------------------------------------------------------------ selection by similarity

  /** The embedding each message would produce, in order. */
  function Embeddings(msgs: seq<MessageWithDocs>, vz: Option<Model>, o: Oracle): (r: seq<Result<Vector>>)
    reads msgs
    ensures |r| == |msgs|
    ensures forall i :: 0 <= i < |msgs| ==> r[i] == msgs[i].Embedding(vz, o)
  {
    if msgs == [] then []
    else
      var n := |msgs| - 1;
      assert forall i :: 0 <= i < n ==> msgs[..n][i] == msgs[i];
      Embeddings(msgs[..n], vz, o) + [msgs[n].Embedding(vz, o)]
  }

  /** The stored documents of each message, in order. */
  function DocsOf(msgs: seq<MessageWithDocs>): (r: seq<ContextValue>)
    ensures |r| == |msgs|
    ensures forall i :: 0 <= i < |msgs| ==> r[i] == msgs[i].documents
  {
    seq(|msgs|, i requires 0 <= i < |msgs| => msgs[i].documents)
  }

  /** `cosine_similarity([a], [b])[0][0]`: vectors of different length have
      incompatible dimensions and raise ValueError; otherwise the similarity. */
  function Similarity(a: Vector, b: Vector, o: Oracle): (r: Result<real>)
    ensures r.Failure? <==> |a| != |b|
    ensures r.Failure? ==> r.error == ValueError
    ensures r.Success? ==> r.value == o.cosine(a, b)
  {
    if |a| != |b| then Failure(ValueError) else Success(o.cosine(a, b))
  }

  /** The first `n` messages have their embeddings cached. */
  predicate Cached(msgs: seq<MessageWithDocs>, n: nat)
    reads msgs
  {
    Filled(Vectors(msgs), n)
  }

  /** The first `n` caches are filled. */
  predicate Filled(vs: seq<Option<Vector>>, n: nat) {
    forall j :: 0 <= j < n && j < |vs| ==> vs[j].Some?
  }

  /** The cached vector of each message, in order. */
  function Vectors(msgs: seq<MessageWithDocs>): (r: seq<Option<Vector>>)
    reads msgs
    ensures |r| == |msgs| && forall i :: 0 <= i < |msgs| ==> r[i] == msgs[i].vector
  {
    seq(|msgs|, i reads msgs requires 0 <= i < |msgs| => msgs[i].vector)
  }

  /** No cache that was filled has been emptied. */
  predicate KeepsCaches(before: seq<Option<Vector>>, after: seq<Option<Vector>>) {
    |before| == |after| && forall j :: 0 <= j < |before| && before[j].Some? ==> after[j].Some?
  }

  /** Every message embeds, to a vector as long as `sel`. */
  predicate Comparable(embs: seq<Result<Vector>>, sel: Vector) {
    forall i :: 0 <= i < |embs| ==> embs[i].Success? && |embs[i].value| == |sel|
  }

  /** Message `i` is the first that breaks the selection, with error `e`: either
      its embedding fails with `e`, or its vector's length differs from `sel`'s
      and `e` is ValueError. */
  predicate BreaksAt(embs: seq<Result<Vector>>, sel: Vector, i: nat, e: Error) {
    && i < |embs| && Comparable(embs[..i], sel)
    && (embs[i] == Failure(e) || (embs[i].Success? && |embs[i].value| != |sel| && e == ValueError))
  }

  /** Reference definition of the selection: for every message in order, its
      documents if its similarity to `sel` is strictly above `threshold`, and
      nothing otherwise. */
  function Picked(embs: seq<Result<Vector>>, docs: seq<ContextValue>, sel: Vector, o: Oracle,
                  threshold: real): (r: seq<seq<Item>>)
    requires |embs| == |docs| && Comparable(embs, sel)
    ensures |r| == |embs|
    ensures forall i :: 0 <= i < |embs| ==>
              r[i] == if o.cosine(sel, embs[i].value) > threshold then Items(docs[i]) else []
  {
    seq(|embs|, i requires 0 <= i < |embs| =>
      if o.cosine(sel, embs[i].value) > threshold then Items(docs[i]) else [])
  }

  /** The loop of `get_message_ctx` over precomputed embeddings: the first failing
      embedding or similarity aborts it, otherwise the documents of every message
      more similar than `threshold` are extended into the context, in message
      order. */
  function Select(embs: seq<Result<Vector>>, docs: seq<ContextValue>, sel: Vector, o: Oracle,
                  threshold: real): (r: Result<seq<Item>>)
    requires |embs| == |docs|
    ensures r.Success? <==> Comparable(embs, sel)
  {
    if embs == [] then Success([])
    else
      var n := |embs| - 1;
      var prev := Select(embs[..n], docs[..n], sel, o, threshold);
      assert forall i :: 0 <= i < n ==> embs[..n][i] == embs[i];
      if prev.Failure? then prev
      else if embs[n].Failure? then Failure(embs[n].error)
      else
        match Similarity(sel, embs[n].value, o)
        case Failure(e) => Failure(e)
        case Success(similarity) =>
          if similarity > threshold then Success(prev.value + Items(docs[n])) else Success(prev.value)
  }

  /** The selection loop computes the reference definition: when every message
      embeds to a vector comparable with `sel`, the documents of exactly the
      messages above the threshold, in order; otherwise the error of the first
      message that breaks it. */
  lemma {:induction false} SelectSpec(embs: seq<Result<Vector>>, docs: seq<ContextValue>, sel: Vector,
                                      o: Oracle, threshold: real)
    requires |embs| == |docs|
    ensures var r := Select(embs, docs, sel, o, threshold);
            && (r.Success? ==> r.value == Concat(Picked(embs, docs, sel, o, threshold)))
            && (r.Failure? ==> exists i: nat :: BreaksAt(embs, sel, i, r.error))
    decreases |embs|
  {
    if embs != [] {
      var n := |embs| - 1;
      SelectSpec(embs[..n], docs[..n], sel, o, threshold);
      var r := Select(embs, docs, sel, o, threshold);
      var prev := Select(embs[..n], docs[..n], sel, o, threshold);
      if prev.Failure? {
        var i: nat :| BreaksAt(embs[..n], sel, i, prev.error);
        assert embs[..n][..i] == embs[..i] && embs[i] == embs[..n][i];
        assert BreaksAt(embs, sel, i, r.error);
      } else if r.Failure? {
        assert embs[..n] == embs[..n][..n];
        assert BreaksAt(embs, sel, n, r.error);
      } else {
        assert Picked(embs, docs, sel, o, threshold)[..n] == Picked(embs[..n], docs[..n], sel, o, threshold);
      }
    }
  }

  /** `get_message_ctx`: the query is embedded as a fresh message with no
      documents, then compared with every stored message. */
  function QueryCtx(embs: seq<Result<Vector>>, docs: seq<ContextValue>, vz: Option<Model>, o: Oracle,
                    query: string, threshold: real): (r: Result<seq<Item>>)
    requires |embs| == |docs|
    ensures vz.None? ==> r == Failure(AttributeError)
    ensures vz.Some? ==> r == Select(embs, docs, o.transform(vz.value, query + " "), o, threshold)
  {
    var q := FullText(HumanMessage(query), DocList([]));
    match Transform(vz, o, q.value)
    case Failure(e) => Failure(e)
    case Success(sel) => Select(embs, docs, sel, o, threshold)
  }

  /** `get_last_message_ctx`: the last message is compared with every earlier one,
      and its own documents always close the context. With no message at all,
      `messages[-1]` raises IndexError. */
  function LastCtx(embs: seq<Result<Vector>>, docs: seq<ContextValue>, o: Oracle, threshold: real)
    : (r: Result<seq<Item>>)
    requires |embs| == |docs|
    ensures embs == [] ==> r == Failure(IndexError)
    ensures r.Success? ==> |embs| >= 1 && embs[|embs| - 1].Success?
    ensures r.Success? ==> Select(embs[..|embs| - 1], docs[..|docs| - 1], embs[|embs| - 1].value, o, threshold).Success?
    ensures r.Success? ==> r.value == Select(embs[..|embs| - 1], docs[..|docs| - 1], embs[|embs| - 1].value, o, threshold).value
                                      + Items(docs[|docs| - 1])
  {
    if embs == [] then Failure(IndexError)
    else
      var n := |embs| - 1;
      match embs[n]
      case Failure(e) => Failure(e)
      case Success(sel) =>
        match Select(embs[..n], docs[..n], sel, o, threshold)
        case Failure(e) => Failure(e)
        case Success(c) => Success(c + Items(docs[n]))
  }

  /** `get_followup_ctx` after training: the query context when it is non-empty,
      otherwise the last-message context. */
  function FollowupCtx(embs: seq<Result<Vector>>, docs: seq<ContextValue>, vz: Option<Model>, o: Oracle,
                       query: string, threshold: real): (r: Result<seq<Item>>)
    requires |embs| == |docs|
  {
    match QueryCtx(embs, docs, vz, o, query, threshold)
    case Failure(e) => Failure(e)
    case Success(c) => if c != [] then Success(c) else LastCtx(embs, docs, o, threshold)
  }

  /** The corpus `train_vectorizer` fits on: the full text of every message
      whose documents are not the empty list, in order. */
  function TrainTexts(msgs: seq<MessageWithDocs>): (r: Result<seq<string>>)
    ensures r.Success? <==> forall i :: 0 <= i < |msgs| ==> !IsBadContext(msgs[i].documents)
    ensures r.Failure? ==> r.error == AttributeError
    ensures r.Success? ==> |r.value| <= |msgs|
  {
    if msgs == [] then Success([])
    else
      var n := |msgs| - 1;
      var m := msgs[n];
      assert forall i :: 0 <= i < n ==> msgs[..n][i] == msgs[i];
      match TrainTexts(msgs[..n])
      case Failure(e) => Failure(e)
      case Success(ts) =>
        if m.documents == DocList([]) then Success(ts)
        else
          match FullText(m.message, m.documents)
          case Failure(e) => Failure(e)
          case Success(t) => Success(ts + [t])
  }

  /** What `train_vectorizer` fits: the model of the corpus of the messages with
      documents, or the error of building or fitting that corpus. */
  function Refit(msgs: seq<MessageWithDocs>, o: Oracle): (r: Result<Model>)
    ensures r.Success? <==> TrainTexts(msgs).Success? && TrainTexts(msgs).value != [] && o.canFit(TrainTexts(msgs).value)
    ensures r.Success? ==> r.value == Fitted(TrainTexts(msgs).value)
  {
    match TrainTexts(msgs)
    case Failure(e) => Failure(e)
    case Success(ts) => Fit(ts, o)
  }

  /** A user message (no documents) adds nothing to the training corpus. */
  lemma TrainTextsSkipsUserMessages(msgs: seq<MessageWithDocs>, m: MessageWithDocs)
    requires m.documents == DocList([])
    ensures TrainTexts(msgs + [m]) == TrainTexts(msgs)
  {
    assert (msgs + [m])[..|msgs|] == msgs;
  }

  /** A message with documents adds exactly its full text at the end of the corpus. */
  lemma TrainTextsAddsAnswer(msgs: seq<MessageWithDocs>, m: MessageWithDocs)
    requires m.documents.DocList? && m.documents != DocList([])
    requires TrainTexts(msgs).Success?
    ensures TrainTexts(msgs + [m]) ==
              Success(TrainTexts(msgs).value + [m.message.content + " " + Join(" ", Contents(m.documents.docs))])
  {
    assert (msgs + [m])[..|msgs|] == msgs;
  }

  /** `format_docs`: the page contents separated by blank lines. */
  function FormatDocs(docs: seq<Document>): string
  {
    Join("\n\n", Contents(docs))
  }

  /** The messages of a list of history entries, without their documents. */
  function MessagesOf(msgs: seq<MessageWithDocs>): (r: seq<Message>)
    ensures |r| == |msgs|
    ensures forall i :: 0 <= i < |msgs| ==> r[i] == msgs[i].message
  {
    seq(|msgs|, i requires 0 <= i < |msgs| => msgs[i].message)
  }

  /** Formatting two non-empty lists is formatting each, separated by a blank line. */
  lemma FormatDocsAppend(a: seq<Document>, b: seq<Document>)
    requires a != [] && b != []
    ensures FormatDocs(a + b) == FormatDocs(a) + "\n\n" + FormatDocs(b)
  {
    assert Contents(a + b) == Contents(a) + Contents(b);
    JoinAppend("\n\n", Contents(a), Contents(b));
  }

  // ------------------------------------------------------------------ the history

  class ChatHistory {
    var messages: seq<MessageWithDocs>
    var vectorizer: Option<Model>

    constructor ()
      ensures messages == [] && vectorizer == None
    {
      messages := [];
      vectorizer := None;
    }

    /** Records what the user typed, with no documents. */
    method AddMessageFromUser(userInput: string)
      modifies this
      ensures vectorizer == old(vectorizer)
      ensures |messages| == |old(messages)| + 1 && messages[..|old(messages)|] == old(messages)
      ensures fresh(messages[|old(messages)|])
      ensures messages[|old(messages)|].message == HumanMessage(userInput)
      ensures messages[|old(messages)|].documents == DocList([])
      ensures messages[|old(messages)|].vector == None
    {
      var m := new MessageWithDocs(HumanMessage(userInput), DocList([]));
      messages := messages + [m];
    }

    /** Records a chain's response: its `answer` (default `''`) and its `context`
        (default `''`). */
    method AddMessageFromResponse(response: Response)
      modifies this
      ensures vectorizer == old(vectorizer)
      ensures |messages| == |old(messages)| + 1 && messages[..|old(messages)|] == old(messages)
      ensures fresh(messages[|old(messages)|])
      ensures messages[|old(messages)|].message == AIMessage(response.answer.GetOr(""))
      ensures messages[|old(messages)|].documents == response.context.GetOr(Text(""))
      ensures messages[|old(messages)|].vector == None
    {
      var m := new MessageWithDocs(AIMessage(response.answer.GetOr("")), response.context.GetOr(Text("")));
      messages := messages + [m];
    }

    /** Refits the vectorizer on the messages that carry documents. On failure the
        previous vectorizer stays. */
    method TrainVectorizer(o: Oracle) returns (r: Result<Model>)
      modifies this
      ensures messages == old(messages)
      ensures r == Refit(messages, o)
      ensures vectorizer == if r.Success? then Some(r.value) else old(vectorizer)
    {
      var allTexts: seq<string> := [];
      var i := 0;
      while i < |messages|
        invariant 0 <= i <= |messages|
        invariant TrainTexts(messages[..i]) == Success(allTexts)
      {
        var m := messages[i];
        assert messages[..i + 1][..i] == messages[..i];
        if m.documents != DocList([]) {
          var t := FullText(m.message, m.documents);
          if t.Failure? {
            assert TrainTexts(messages[..i + 1]).Failure?;
            TrainTextsFailureExtends(messages, i + 1);
            return Failure(t.error);
          }
          allTexts := allTexts + [t.value];
        }
        i := i + 1;
      }
      assert messages[..i] == messages;
      r := Fit(allTexts, o);
      if r.Success? {
        vectorizer := Some(r.value);
      }
    }

    /** `get_message_ctx`: embeds the query and every stored message (filling
        their caches) and collects the documents of the similar ones. */
    method GetMessageCtx(query: string, threshold: real, o: Oracle) returns (r: Result<seq<Item>>)
      modifies messages
      ensures messages == old(messages)
      ensures r == old(QueryCtx(Embeddings(messages, vectorizer, o), DocsOf(messages), vectorizer, o, query, threshold))
      ensures Embeddings(messages, vectorizer, o) == old(Embeddings(messages, vectorizer, o))
      ensures r.Success? ==> Cached(messages, |messages|)
    {
      ghost var msgs, e0 := messages, Embeddings(messages, vectorizer, o);
      var sel := EmbedQuery(query, vectorizer, o);
      if sel.Failure? {
        return Failure(sel.error);
      }
      r := SelectAmong(messages, |messages|, vectorizer, sel.value, threshold, o, e0);
      assert messages == msgs;
      assert e0[..|msgs|] == e0 && DocsOf(msgs)[..|msgs|] == DocsOf(msgs);
    }

    /** `get_last_message_ctx`. */
    method GetLastMessageCtx(threshold: real, o: Oracle) returns (r: Result<seq<Item>>)
      modifies messages
      ensures messages == old(messages)
      ensures r == old(LastCtx(Embeddings(messages, vectorizer, o), DocsOf(messages), o, threshold))
      ensures Embeddings(messages, vectorizer, o) == old(Embeddings(messages, vectorizer, o))
      ensures r.Success? ==> Cached(messages, |messages|)
    {
      if messages == [] {
        return Failure(IndexError);
      }
      ghost var msgs, e0 := messages, Embeddings(messages, vectorizer, o);
      var n := |messages| - 1;
      var sel := EmbedAt(messages, n, vectorizer, o, e0);
      assert messages == msgs;
      if sel.Failure? {
        return Failure(sel.error);
      }
      ghost var vs := Vectors(messages);
      assert vs[n].Some?;
      var c := SelectAmong(messages, n, vectorizer, sel.value, threshold, o, e0);
      assert messages == msgs;
      if c.Failure? {
        return c;
      }
      ghost var after := Vectors(messages);
      assert after[n].Some?;
      FilledStep(after, after, n);
      r := Success(c.value + Items(messages[n].documents));
    }

    /** `get_followup_ctx`: refits the vectorizer, then falls back from the query
        context to the last-message context when the former is empty. */
    method GetFollowupCtx(query: string, threshold: real, o: Oracle) returns (r: Result<seq<Item>>)
      modifies this, messages
      ensures messages == old(messages)
      ensures var fit := Refit(old(messages), o);
              && (fit.Failure? ==> r == Failure(fit.error) && vectorizer == old(vectorizer))
              && (fit.Success? ==>
                    && vectorizer == Some(fit.value)
                    && r == old(FollowupCtx(Embeddings(messages, Some(fit.value), o), DocsOf(messages),
                                            Some(fit.value), o, query, threshold))
                    && Embeddings(messages, vectorizer, o) == old(Embeddings(messages, Some(fit.value), o)))
      ensures r.Success? ==> Cached(messages, |messages|)
    {
      ghost var msgs := messages;
      var fit := TrainVectorizer(o);
      if fit.Failure? {
        return Failure(fit.error);
      }
      assert messages == msgs && vectorizer == Some(fit.value);
      assert Embeddings(messages, vectorizer, o) == old(Embeddings(messages, Some(fit.value), o));
      r := FollowupWith(query, threshold, o);
      assert messages == msgs && vectorizer == Some(fit.value);
    }

    /** `get_followup_ctx` once the vectorizer is fitted: the query context when
        it is non-empty, otherwise the last-message context. */
    method FollowupWith(query: string, threshold: real, o: Oracle) returns (r: Result<seq<Item>>)
      requires vectorizer.Some?
      modifies messages
      ensures r == old(FollowupCtx(Embeddings(messages, vectorizer, o), DocsOf(messages), vectorizer, o, query, threshold))
      ensures Embeddings(messages, vectorizer, o) == old(Embeddings(messages, vectorizer, o))
      ensures r.Success? ==> Cached(messages, |messages|)
    {
      ghost var msgs, embs := messages, Embeddings(messages, vectorizer, o);
      var c := GetMessageCtx(query, threshold, o);
      assert messages == msgs && Embeddings(messages, vectorizer, o) == embs;
      if c.Failure? {
        return c;
      }
      if c.value != [] {
        return c;
      }
      r := GetLastMessageCtx(threshold, o);
      assert messages == msgs;
    }

    /** `get_all_messages`. */
    function AllMessages(): (r: seq<Message>)
      reads this
      ensures |r| == |messages|
      ensures forall i :: 0 <= i < |messages| ==> r[i] == messages[i].message
    {
      MessagesOf(messages)
    }

    /** `get_last_messages(n)`: `n` is capped at the number of messages, then
        `messages[-n:]` is taken, so `n == 0` gives every message. */
    function LastMessages(n: int): (r: seq<Message>)
      reads this
      ensures |r| <= |messages| && r == AllMessages()[|messages| - |r|..]
      ensures messages == [] ==> r == []
      ensures n >= 1 ==> |r| == if n < |messages| then n else |messages|
      ensures n == 0 ==> r == AllMessages()
      ensures n < 0 ==> |r| == if -n < |messages| then |messages| + n else 0
    {
      if messages == [] then []
      else
        var k := if n > |messages| then |messages| else n;
        SliceFrom(AllMessages(), -k)
    }

    /** `clear`. */
    method Clear()
      modifies this
      ensures messages == [] && vectorizer == None
    {
      messages := [];
      vectorizer := None;
    }
  }

  /** When every message embeds, the selection fails exactly on a vector whose
      length differs from `sel`'s, and then with ValueError. */
  lemma SelectRaisesOnLength(embs: seq<Result<Vector>>, docs: seq<ContextValue>, sel: Vector, o: Oracle,
                             threshold: real)
    requires |embs| == |docs| && forall i :: 0 <= i < |embs| ==> embs[i].Success?
    ensures Select(embs, docs, sel, o, threshold).Failure? <==>
              exists i :: 0 <= i < |embs| && |embs[i].value| != |sel|
    ensures Select(embs, docs, sel, o, threshold).Failure? ==> Select(embs, docs, sel, o, threshold).error == ValueError
  {
    SelectSpec(embs, docs, sel, o, threshold);
  }

  /** A user message then an answer with documents give a corpus of one text. */
  lemma CorpusOfOneTurn(m0: MessageWithDocs, m1: MessageWithDocs)
    requires m0.documents == DocList([]) && m1.documents.DocList? && m1.documents != DocList([])
    ensures TrainTexts([m0, m1]).Success? && |TrainTexts([m0, m1]).value| == 1
  {
    assert [] + [m0] + [m1] == [m0, m1];
    CorpusOfAnswer([], m0, m1);
  }

  /** `get_followup_ctx` just after a refit to `m`, when no message has a cached
      vector, every message embeds, and `m` gives every text a vector of one
      length: the follow-up context is computed without error. */
  lemma FreshFollowupSucceeds(msgs: seq<MessageWithDocs>, m: Model, o: Oracle, query: string, threshold: real)
    requires msgs != []
    requires forall i :: 0 <= i < |msgs| ==> msgs[i].vector.None? && msgs[i].documents.DocList?
    requires forall t :: |o.transform(m, t)| == |o.transform(m, query + " ")|
    ensures FollowupCtx(Embeddings(msgs, Some(m), o), DocsOf(msgs), Some(m), o, query, threshold).Success?
  {
    var e := Embeddings(msgs, Some(m), o);
    assert Comparable(e, o.transform(m, query + " "));
    var n := |e| - 1;
    assert Comparable(e[..n], e[n].value);
  }

  /** `get_followup_ctx` after a refit to `m`, when every message embeds but
      message `k` keeps a vector cached under an earlier fit whose length differs
      from the query's under `m`: the follow-up raises ValueError. */
  lemma StaleCacheFollowup(msgs: seq<MessageWithDocs>, m: Model, o: Oracle, query: string, threshold: real, k: nat)
    requires forall i :: 0 <= i < |msgs| ==> msgs[i].vector.Some? || msgs[i].documents.DocList?
    requires k < |msgs| && msgs[k].vector.Some? && |msgs[k].vector.value| != |o.transform(m, query + " ")|
    ensures FollowupCtx(Embeddings(msgs, Some(m), o), DocsOf(msgs), Some(m), o, query, threshold) == Failure(ValueError)
  {
    var e := Embeddings(msgs, Some(m), o);
    assert forall i :: 0 <= i < |e| ==> e[i].Success?;
    SelectRaisesOnLength(e, DocsOf(msgs), o.transform(m, query + " "), o, threshold);
    assert |e[k].value| != |o.transform(m, query + " ")|;
  }

  /** Two exchanges, each a user message then an answer with documents: the
      corpus has one text after the first and two after the second. */
  lemma CorpusOfTwoTurns(m0: MessageWithDocs, m1: MessageWithDocs, m2: MessageWithDocs, m3: MessageWithDocs)
    requires m0.documents == DocList([]) && m2.documents == DocList([])
    requires m1.documents.DocList? && m1.documents != DocList([])
    requires m3.documents.DocList? && m3.documents != DocList([])
    ensures TrainTexts([m0, m1]).Success? && |TrainTexts([m0, m1]).value| == 1
    ensures TrainTexts([m0, m1, m2, m3]).Success? && |TrainTexts([m0, m1, m2, m3]).value| == 2
  {
    CorpusOfOneTurn(m0, m1);
    assert [m0, m1] + [m2] + [m3] == [m0, m1, m2, m3];
    CorpusOfAnswer([m0, m1], m2, m3);
  }

  /** An oracle whose vectors have one coordinate per text of the fitted corpus,
      as TF-IDF vectors have one per vocabulary term: a larger corpus gives
      longer vectors. */
  function GrowingOracle(): (o: Oracle)
    ensures forall m, t :: |o.transform(m, t)| == |m.corpus|
    ensures forall ts :: o.canFit(ts)
  {
    Oracle(ts => true, (m: Model, t: string) => seq(|m.corpus|, _ => 1.0), (a: Vector, b: Vector) => 1.0)
  }

  /** The corpus grows by one text when a user message and then an answer with
      documents are appended. */
  lemma CorpusOfAnswer(msgs: seq<MessageWithDocs>, u: MessageWithDocs, a: MessageWithDocs)
    requires TrainTexts(msgs).Success?
    requires u.documents == DocList([]) && a.documents.DocList? && a.documents != DocList([])
    ensures TrainTexts(msgs + [u] + [a]).Success?
    ensures |TrainTexts(msgs + [u] + [a]).value| == |TrainTexts(msgs).value| + 1
  {
    TrainTextsSkipsUserMessages(msgs, u);
    TrainTextsAddsAnswer(msgs + [u], a);
  }

  /** `get_followup_ctx` refits the vectorizer on every call, but the stored
      messages keep the vectors cached under the previous fit. After one answer
      with documents, a first follow-up succeeds; once a second such answer has
      grown the corpus, the query's vector is longer than the cached ones and the
      second follow-up raises ValueError. */
  method StaleCacheRaises() returns (first: Result<seq<Item>>, second: Result<seq<Item>>)
    ensures first.Success? && second == Failure(ValueError)
  {
    var o := GrowingOracle();
    var d := Document("c", Some(0), None, map[]);
    var h;
    h, first := FirstFollowup(o, d);
    second := SecondFollowup(h, o, d);
  }

  /** The second exchange of `StaleCacheRaises`: after a new question and a new
      answer with documents, the refit corpus has two texts, and the follow-up
      meets the first message's cached one-coordinate vector. */
  method SecondFollowup(h: ChatHistory, o: Oracle, d: Document) returns (second: Result<seq<Item>>)
    requires o == GrowingOracle() && |h.messages| == 2
    requires h.messages[0].documents == DocList([]) && h.messages[1].documents == DocList([d])
    requires h.messages[0].vector.Some? && |h.messages[0].vector.value| == 1
    requires h.messages[1].vector.Some?
    modifies h, h.messages
    ensures second == Failure(ValueError)
  {
    ghost var m0, m1 := h.messages[0], h.messages[1];
    ghost var v0, v1 := m0.vector.value, m1.vector.value;
    h.AddMessageFromUser("r");
    ghost var m2 := h.messages[2];
    assert h.messages == [m0, m1, m2];
    h.AddMessageFromResponse(Response(Some("b"), Some(DocList([d])), None));
    ghost var m3 := h.messages[3];
    assert h.messages == [m0, m1, m2, m3];
    CorpusOfTwoTurns(m0, m1, m2, m3);
    ghost var t2 := TrainTexts([m0, m1, m2, m3]).value;
    assert Refit(h.messages, o) == Success(Fitted(t2));
    StaleCacheFollowup(h.messages, Fitted(t2), o, "r", 0.5, 0);
    assert h.messages == old(h.messages) + [m2, m3] && fresh(m2) && fresh(m3);
    second := h.GetFollowupCtx("r", 0.5, o);
  }

  /** The first exchange of `StaleCacheRaises`: a question, an answer with the
      document `d`, and a follow-up that succeeds and caches both messages'
      vectors under a corpus of one text. */
  method FirstFollowup(o: Oracle, d: Document) returns (h: ChatHistory, first: Result<seq<Item>>)
    requires o == GrowingOracle()
    ensures fresh(h) && |h.messages| == 2 && fresh(h.messages[0]) && fresh(h.messages[1])
    ensures h.messages[0].documents == DocList([]) && h.messages[1].documents == DocList([d])
    ensures h.messages[0].vector.Some? && |h.messages[0].vector.value| == 1
    ensures h.messages[1].vector.Some?
    ensures first.Success?
  {
    h := new ChatHistory();
    h.AddMessageFromUser("q");
    h.AddMessageFromResponse(Response(Some("a"), Some(DocList([d])), None));
    ghost var m0, m1 := h.messages[0], h.messages[1];
    assert h.messages == [m0, m1];
    CorpusOfOneTurn(m0, m1);
    ghost var t1 := TrainTexts([m0, m1]).value;
    assert Refit(h.messages, o) == Success(Fitted(t1));
    FreshFollowupSucceeds(h.messages, Fitted(t1), o, "q", 0.5);
    ghost var e1 := Embeddings(h.messages, Some(Fitted(t1)), o);
    assert e1[0].Success? && |e1[0].value| == 1;
    assert fresh(m0) && fresh(m1);
    first := h.GetFollowupCtx("q", 0.5, o);
    assert h.messages == [m0, m1] && Embeddings(h.messages, h.vectorizer, o) == e1;
    assert Cached([m0, m1], 2) && e1[0] == Success(m0.vector.value);
  }

  // ------------------------------------------------------------------ helpers
  /** The loop shared by both `get_*_ctx` methods: compares the first `n`
      messages with `sel`, filling their caches. */
  method SelectAmong(msgs: seq<MessageWithDocs>, n: nat, vz: Option<Model>, sel: Vector, threshold: real,
                     o: Oracle, ghost e0: seq<Result<Vector>>) returns (r: Result<seq<Item>>)
    requires n <= |msgs| && Embeddings(msgs, vz, o) == e0
    modifies msgs
    ensures r == Select(e0[..n], DocsOf(msgs)[..n], sel, o, threshold)
    ensures Embeddings(msgs, vz, o) == e0
    ensures r.Success? ==> Cached(msgs, n)
    ensures KeepsCaches(old(Vectors(msgs)), Vectors(msgs))
  {
    ghost var d0 := DocsOf(msgs);
    ghost var vs0 := Vectors(msgs);
    var ctx: seq<Item> := [];
    var i := 0;
    while i < n
      invariant 0 <= i <= n
      invariant Embeddings(msgs, vz, o) == e0
      invariant Select(e0[..i], d0[..i], sel, o, threshold) == Success(ctx)
      invariant Filled(Vectors(msgs), i)
      invariant KeepsCaches(vs0, Vectors(msgs))
    {
      ghost var before := Vectors(msgs);
      var v := EmbedAt(msgs, i, vz, o, e0);
      ghost var after := Vectors(msgs);
      KeepsCachesTrans(vs0, before, after);
      if v.Failure? {
        SelectFailsAt(e0, d0, sel, o, threshold, i, n);
        return Failure(v.error);
      }
      var similarity := Similarity(sel, v.value, o);
      if similarity.Failure? {
        SelectFailsAt(e0, d0, sel, o, threshold, i, n);
        return Failure(similarity.error);
      }
      FilledStep(before, after, i);
      SelectStep(e0, d0, sel, o, threshold, i);
      assert d0[i] == msgs[i].documents;
      if similarity.value > threshold {
        ctx := ctx + Items(msgs[i].documents);
      }
      i := i + 1;
    }
    r := Success(ctx);
  }



  /** Embeds a query as a fresh user message with no documents. */
  method EmbedQuery(query: string, vz: Option<Model>, o: Oracle) returns (r: Result<Vector>)
    ensures r == Transform(vz, o, query + " ")
  {
    var q := new MessageWithDocs(HumanMessage(query), DocList([]));
    r := q.EmbedSelf(vz, o);
  }

  /** Embeds the `i`-th message. What every stored message embeds to is kept: a
      copy of the same object elsewhere in the list now has its cache filled
      with the same vector. */
  method EmbedAt(msgs: seq<MessageWithDocs>, i: nat, vz: Option<Model>, o: Oracle,
                 ghost e0: seq<Result<Vector>>) returns (v: Result<Vector>)
    requires i < |msgs| && Embeddings(msgs, vz, o) == e0
    modifies msgs[i]
    ensures v == e0[i]
    ensures Embeddings(msgs, vz, o) == e0
    ensures v.Success? ==> msgs[i].vector.Some?
    ensures KeepsCaches(old(Vectors(msgs)), Vectors(msgs))
  {
    v := msgs[i].EmbedSelf(vz, o);
    forall j | 0 <= j < |msgs|
      ensures msgs[j].Embedding(vz, o) == e0[j]
    {
      if msgs[j] == msgs[i] {
        assert e0[j] == e0[i];
      } else {
        assert old(msgs[j].Embedding(vz, o)) == e0[j];
      }
    }
  }

  /** Keeping caches is transitive. */
  lemma KeepsCachesTrans(a: seq<Option<Vector>>, b: seq<Option<Vector>>, c: seq<Option<Vector>>)
    requires KeepsCaches(a, b) && KeepsCaches(b, c)
    ensures KeepsCaches(a, c)
  {
  }

  /** A filled prefix stays filled when caches are kept, and grows by one when the
      next cache is filled. */
  lemma FilledStep(before: seq<Option<Vector>>, after: seq<Option<Vector>>, n: nat)
    requires KeepsCaches(before, after) && Filled(before, n) && n < |after| && after[n].Some?
    ensures Filled(after, n + 1)
  {
  }

  /** Once the corpus of a prefix cannot be built, neither can the whole. */
  lemma {:induction false} TrainTextsFailureExtends(msgs: seq<MessageWithDocs>, k: nat)
    requires k <= |msgs| && TrainTexts(msgs[..k]).Failure?
    ensures TrainTexts(msgs).Failure?
  {
    var i :| 0 <= i < k && IsBadContext(msgs[..k][i].documents);
    assert msgs[i] == msgs[..k][i];
  }

  /** One step of the selection loop over a successful embedding. */
  lemma SelectStep(embs: seq<Result<Vector>>, docs: seq<ContextValue>, sel: Vector, o: Oracle,
                   threshold: real, i: nat)
    requires |embs| == |docs| && i < |embs|
    requires Select(embs[..i], docs[..i], sel, o, threshold).Success? && embs[i].Success?
    requires |embs[i].value| == |sel|
    ensures o.cosine(sel, embs[i].value) > threshold ==>
              Select(embs[..i + 1], docs[..i + 1], sel, o, threshold) ==
              Success(Select(embs[..i], docs[..i], sel, o, threshold).value + Items(docs[i]))
    ensures o.cosine(sel, embs[i].value) <= threshold ==>
              Select(embs[..i + 1], docs[..i + 1], sel, o, threshold) == Select(embs[..i], docs[..i], sel, o, threshold)
  {
    var e, d := embs[..i + 1], docs[..i + 1];
    assert e[..i] == embs[..i] && d[..i] == docs[..i];
    assert e[i] == embs[i] && d[i] == docs[i];
  }

  /** The selection over the first `n` messages fails with the error of the
      first embedding that fails. */
  lemma SelectFailsAt(embs: seq<Result<Vector>>, docs: seq<ContextValue>, sel: Vector, o: Oracle,
                      threshold: real, i: nat, n: nat)
    requires |embs| == |docs| && i < n <= |embs|
    requires Select(embs[..i], docs[..i], sel, o, threshold).Success?
    requires embs[i].Failure? || |embs[i].value| != |sel|
    ensures Select(embs[..n], docs[..n], sel, o, threshold) ==
              Failure(if embs[i].Failure? then embs[i].error else ValueError)
  {
    var e, d := embs[..n], docs[..n];
    var err := if embs[i].Failure? then embs[i].error else ValueError;
    assert e[..i + 1][..i] == embs[..i] && d[..i + 1][..i] == docs[..i];
    assert Select(e[..i + 1], d[..i + 1], sel, o, threshold) == Failure(err);
    SelectFailureExtends(e, d, sel, o, threshold, i + 1);
  }

  /** Once the selection over a prefix fails, the selection over the whole fails
      with the same error. */
  lemma {:induction false} SelectFailureExtends(embs: seq<Result<Vector>>, docs: seq<ContextValue>,
                                               sel: Vector, o: Oracle, threshold: real, k: nat)
    requires |embs| == |docs| && k <= |embs|
    requires Select(embs[..k], docs[..k], sel, o, threshold).Failure?
    ensures Select(embs, docs, sel, o, threshold) == Select(embs[..k], docs[..k], sel, o, threshold)
    decreases |embs| - k
  {
    if k < |embs| {
      var n := |embs| - 1;
      assert embs[..n][..k] == embs[..k] && docs[..n][..k] == docs[..k];
      SelectFailureExtends(embs[..n], docs[..n], sel, o, threshold, k);
    } else {
      assert embs[..k] == embs && docs[..k] == docs;
    }
  }
}
