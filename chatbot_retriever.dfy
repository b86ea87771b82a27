/** The chatbot's retriever: the reranked documents from the vector store are
    optionally cut by their relevance score. The store and the reranker are
    collaborators; their output is a parameter. */
module ChatbotRetriever {
  import opened Wrappers
  import opened Documents

  /** `a` can be obtained from `b` by deleting elements (greedy match from the end). */
  predicate IsSubseq<T(==)>(a: seq<T>, b: seq<T>)
    decreases |b|
  {
    if a == [] then true
    else if b == [] then false
    else if a[|a| - 1] == b[|b| - 1] then IsSubseq(a[..|a| - 1], b[..|b| - 1])
    else IsSubseq(a, b[..|b| - 1])
  }

  /** `True` when the reranker attached a score to every document. */
  predicate AllScored(docs: seq<Document>) {
    forall i :: 0 <= i < |docs| ==> docs[i].score.Some?
  }

  /** `filter`: the documents whose `relevance_score` is strictly above the
      threshold, in their order. A missing score compares `None > threshold`,
      which raises TypeError. */
  function Filter(docs: seq<Document>, threshold: real): (r: Result<seq<Document>>)
    ensures r.Success? <==> AllScored(docs)
    ensures r.Failure? ==> r.error == TypeError
  {
    if docs == [] then Success([])
    else
      var n := |docs| - 1;
      assert forall i :: 0 <= i < n ==> docs[..n][i] == docs[i];
      match Filter(docs[..n], threshold)
      case Failure(e) => Failure(e)
      case Success(p) =>
        if docs[n].score.None? then Failure(TypeError)
        else if docs[n].score.value > threshold then Success(p + [docs[n]])
        else Success(p)
  }

  /** `retrieve`: a threshold of 0 switches the filter off. */
  function Retrieve(reranked: seq<Document>, threshold: real): (r: Result<seq<Document>>)
    ensures threshold == 0.0 ==> r == Success(reranked)
    ensures threshold != 0.0 ==> r == Filter(reranked, threshold)
  {
    if threshold != 0.0 then Filter(reranked, threshold) else Success(reranked)
  }

  // ------------------------------------------------------------------ properties

  /** A document is kept iff it is in the input with a score above the threshold. */
  lemma {:induction false} FilterMembers(docs: seq<Document>, threshold: real)
    requires AllScored(docs)
    ensures forall d :: d in Filter(docs, threshold).value <==> d in docs && d.score.value > threshold
    decreases |docs|
  {
    if docs != [] {
      var n := |docs| - 1;
      FilterMembers(docs[..n], threshold);
      assert docs == docs[..n] + [docs[n]];
    }
  }

  /** The output keeps the input's order: it is a subsequence of it. */
  lemma {:induction false} FilterSubseq(docs: seq<Document>, threshold: real)
    requires AllScored(docs)
    ensures IsSubseq(Filter(docs, threshold).value, docs)
    decreases |docs|
  {
    if docs != [] {
      var n := |docs| - 1;
      var p := Filter(docs[..n], threshold).value;
      FilterSubseq(docs[..n], threshold);
      if docs[n].score.value > threshold {
        assert (p + [docs[n]])[..|p|] == p;
      } else if p != [] {
        FilterMembers(docs[..n], threshold);
        assert p[|p| - 1] in p;
      }
    }
  }

  /** Filtering at a threshold and then at a higher one is filtering at the higher
      one: raising the threshold only removes documents, and filtering twice at
      the same threshold changes nothing. */
  lemma {:induction false} FilterCompose(docs: seq<Document>, t1: real, t2: real)
    requires AllScored(docs) && t1 <= t2
    ensures Filter(docs, t1).Success? && Filter(Filter(docs, t1).value, t2) == Filter(docs, t2)
    decreases |docs|
  {
    if docs != [] {
      var n := |docs| - 1;
      var p := Filter(docs[..n], t1).value;
      FilterCompose(docs[..n], t1, t2);
      if docs[n].score.value > t1 {
        assert (p + [docs[n]])[..|p|] == p;
      }
    }
  }

  lemma FilterIdempotent(docs: seq<Document>, threshold: real)
    requires AllScored(docs)
    ensures Filter(Filter(docs, threshold).value, threshold) == Filter(docs, threshold)
  {
    FilterCompose(docs, threshold, threshold);
  }
}
