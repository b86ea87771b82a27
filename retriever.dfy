/** The retriever of the second iteration: documents whose title matches the
    query come first, then the documents whose content scores above the
    effective threshold, and the union is deduplicated by `id`. The vector
    stores are collaborators; their answers are parameters. */
module Retriever {
  import opened Wrappers
  import opened Documents
  import opened OrderedDict
  import opened DocSet

  /** The threshold of a retrieval: the configured one, relaxed by the
      simplifier when the query was rewritten. */
  function EffectiveThreshold(threshold: real, simplifier: real, simplified: bool): (t: real)
  {
    if !simplified then threshold else threshold * simplifier
  }

  /** A simplifier between 0 and 1 never makes the threshold stricter. */
  lemma SimplifiedRelaxes(threshold: real, simplifier: real)
    requires threshold >= 0.0 && 0.0 <= simplifier <= 1.0
    ensures EffectiveThreshold(threshold, simplifier, true) <= EffectiveThreshold(threshold, simplifier, false)
    ensures EffectiveThreshold(threshold, simplifier, true) == threshold * simplifier
  {
  }

  /** `[doc for doc, score in scored if score > threshold]`. */
  function ScoreFilter(scored: seq<(Document, real)>, threshold: real): (r: seq<Document>)
    ensures forall d :: d in r <==> exists i :: 0 <= i < |scored| && scored[i].0 == d && scored[i].1 > threshold
    ensures |r| <= |scored|
  {
    if scored == [] then []
    else
      var n := |scored| - 1;
      var p := ScoreFilter(scored[..n], threshold);
      assert forall i :: 0 <= i < n ==> scored[..n][i] == scored[i];
      if scored[n].1 > threshold then p + [scored[n].0] else p
  }

  /** The dedup loop with `doc.metadata['id']`: a document without an id raises
      KeyError. */
  method UniqueByStrictId(docs: seq<Document>) returns (r: Result<seq<Document>>)
    ensures r == if AllHaveIds(docs) then Success(Dedup(docs)) else Failure(KeyError)
  {
    var order: seq<int> := [];
    var unique: map<int, Document> := map[];
    for i := 0 to |docs|
      invariant AllHaveIds(docs[..i])
      invariant Dict(order, unique) == Collect(docs[..i])
    {
      if docs[i].id.None? {
        assert !AllHaveIds(docs);
        return Failure(KeyError);
      }
      assert docs[..i + 1][..i] == docs[..i];
      var k := docs[i].id.value;
      if k !in unique {
        order := order + [k];
      }
      unique := unique[k := docs[i]];
    }
    assert docs[..|docs|] == docs;
    r := Success(Dict(order, unique).Values());
  }

  /** `retrieve_relevant_docs`: the scored documents above the threshold,
      deduplicated by id. */
  method RetrieveRelevantDocs(scored: seq<(Document, real)>, threshold: real) returns (r: Result<seq<Document>>)
    ensures var kept := ScoreFilter(scored, threshold);
            r == if AllHaveIds(kept) then Success(Dedup(kept)) else Failure(KeyError)
  {
    var relevant := ScoreFilter(scored, threshold);
    r := UniqueByStrictId(relevant);
  }

  /** The ids of the title matches, read with `doc.metadata['id']`. */
  function TitleIds(hits: seq<Document>): (r: Result<seq<int>>)
    ensures r.Success? <==> AllHaveIds(hits)
    ensures r.Success? ==> r.value == Keys(hits)
  {
    if AllHaveIds(hits) then Success(Keys(hits)) else Failure(KeyError)
  }

  /** `retrieve`: title matches (looked up by id in the content store) first,
      then the relevant content documents at the effective threshold, then the
      dedup by id. */
  method Retrieve(titleHits: seq<Document>, getByIds: seq<int> -> seq<Document>,
                  scored: seq<(Document, real)>, threshold: real, simplifier: real, simplified: bool)
    returns (r: Result<seq<Document>>)
    ensures var t := EffectiveThreshold(threshold, simplifier, simplified);
            var content := ScoreFilter(scored, t);
            && (!AllHaveIds(titleHits) ==> r == Failure(KeyError))
            && (AllHaveIds(titleHits) && !AllHaveIds(content) ==> r == Failure(KeyError))
            && (AllHaveIds(titleHits) && AllHaveIds(content) ==>
                  var all := getByIds(Keys(titleHits)) + Dedup(content);
                  r == if AllHaveIds(all) then Success(Dedup(all)) else Failure(KeyError))
  {
    var t := if !simplified then threshold else threshold * simplifier;
    var ids := TitleIds(titleHits);
    if ids.Failure? {
      return Failure(ids.error);
    }
    var titleDocs := getByIds(ids.value);
    var contentDocs := RetrieveRelevantDocs(scored, t);
    if contentDocs.Failure? {
      return contentDocs;
    }
    var relevant := titleDocs + contentDocs.value;
    r := UniqueByStrictId(relevant);
  }

  // ------------------------------------------------------------------ properties

  /** The relevant documents have pairwise distinct ids, each above the threshold. */
  lemma RelevantDocsSpec(scored: seq<(Document, real)>, threshold: real)
    requires AllHaveIds(ScoreFilter(scored, threshold))
    ensures var r := Dedup(ScoreFilter(scored, threshold));
            && NoDuplicates(Keys(r))
            && forall d :: d in r ==> exists i :: 0 <= i < |scored| && scored[i].0 == d && scored[i].1 > threshold
  {
    var kept := ScoreFilter(scored, threshold);
    DedupSpec(kept);
    DedupSubset(kept);
  }

  /** The output of `retrieve` (title documents, then the deduplicated content
      documents, deduplicated again): the title ids come first in their order,
      every id occurs once, and for an id the content store returned, the kept
      document is the last content document with that id. */
  lemma RetrieveOrder(titleDocs: seq<Document>, content: seq<Document>, k: int)
    requires k in Keys(content)
    ensures var r := Dedup(titleDocs + Dedup(content));
            && Distinct(Keys(titleDocs)) <= Keys(r)
            && NoDuplicates(Keys(r))
            && k in Keys(r)
            && r[LastIndexWithKey(r, k)] == LastWithKey(content, k)
  {
    var dc := Dedup(content);
    var all := titleDocs + dc;
    var r := Dedup(all);
    DedupFirstOrder(titleDocs, dc);
    assert NoDuplicates(Keys(r)) by {
      DedupSpec(all);
    }
    assert k in Keys(dc) by {
      DedupSpec(content);
    }
    var i := LastIndexWithKey(dc, k);
    assert dc[i] == LastWithKey(content, k) by {
      DedupSpec(content);
      assert IdOrZero(dc[i]) == k;
    }
    LastWithKeyInSuffix(titleDocs, dc, k);
    assert k in Keys(r) by {
      DedupSpec(all);
    }
    var j := LastIndexWithKey(r, k);
    assert r[j] == LastWithKey(all, k) by {
      DedupSpec(all);
      assert IdOrZero(r[j]) == k;
    }
  }

  /** A document scored 0.81 passes the threshold 0.5 in standard mode; one
      scored 0.55 passes both the standard threshold 0.5 and the simplified one
      0.5 * 0.8 = 0.4, and one scored 0.45 passes only the simplified one. */
  lemma ThresholdScenarios(d: Document)
    ensures ScoreFilter([(d, 0.81)], EffectiveThreshold(0.5, 0.8, false)) == [d]
    ensures EffectiveThreshold(0.5, 0.8, true) == 0.4
    ensures ScoreFilter([(d, 0.55)], EffectiveThreshold(0.5, 0.8, true)) == [d]
    ensures ScoreFilter([(d, 0.55)], EffectiveThreshold(0.5, 0.8, false)) == [d]
    ensures ScoreFilter([(d, 0.45)], EffectiveThreshold(0.5, 0.8, true)) == [d]
    ensures ScoreFilter([(d, 0.45)], EffectiveThreshold(0.5, 0.8, false)) == []
  {
    assert [(d, 0.81)][..0] == [] && [(d, 0.55)][..0] == [] && [(d, 0.45)][..0] == [];
  }
}
