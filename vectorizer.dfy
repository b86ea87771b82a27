/** `Vectorizer.batch`: the chunks are cut, in order, into batches whose total
    content length stays under `n_max`; a batch is closed as soon as the next
    chunk would bring it to `n_max` or more. The embedding model and the Milvus
    store that receive the batches are left out. */
module Vectorizer {
  import opened Documents
  import opened PyStr

  /** The default of `n_max`. */
  const DefaultMaxLength := 10000

  /** Total content length of a batch (`count` in the loop). */
  function Total(b: seq<Document>): nat
  {
    if b == [] then 0 else Total(b[..|b| - 1]) + |b[|b| - 1].content|
  }

  /** A batch of two or more chunks stays under the limit. */
  predicate Fits(b: seq<Document>, nMax: int) {
    |b| >= 2 ==> Total(b) < nMax
  }

  /** `next` was started because its first chunk did not fit after `b`. */
  predicate Closes(b: seq<Document>, next: seq<Document>, nMax: int) {
    next != [] && Total(b) + |next[0].content| >= nMax
  }

  /** The closed batches: only the first may be empty, each fits, and each
      later one was started by a chunk that did not fit in the one before. */
  predicate Greedy(batches: seq<seq<Document>>, nMax: int) {
    && (forall j :: 0 < j < |batches| ==> batches[j] != [])
    && (forall j :: 0 <= j < |batches| ==> Fits(batches[j], nMax))
    && (forall j :: 0 <= j < |batches| - 1 ==> Closes(batches[j], batches[j + 1], nMax))
  }

  /** Closing the current batch keeps the closed batches greedy. */
  lemma GreedyClose(batches: seq<seq<Document>>, current: seq<Document>, nMax: int)
    requires Greedy(batches, nMax) && Fits(current, nMax)
    requires batches != [] ==> Closes(batches[|batches| - 1], current, nMax)
    ensures Greedy(batches + [current], nMax)
  {
    var bs := batches + [current];
    forall j | 0 <= j < |bs| ensures Fits(bs[j], nMax) && (j > 0 ==> bs[j] != []) {
      if j < |batches| { assert bs[j] == batches[j]; }
    }
    forall j | 0 <= j < |bs| - 1 ensures Closes(bs[j], bs[j + 1], nMax) {
      assert bs[j] == batches[j];
      if j + 1 < |batches| { assert bs[j + 1] == batches[j + 1]; }
    }
  }

  /** Closing the current batch: the batches stay greedy and flatten to the
      chunks seen so far. */
  lemma CloseBatch(batches: seq<seq<Document>>, current: seq<Document>, nMax: int)
    requires Greedy(batches, nMax) && Fits(current, nMax)
    requires batches != [] ==> Closes(batches[|batches| - 1], current, nMax)
    ensures Greedy(batches + [current], nMax)
    ensures Concat(batches + [current]) == Concat(batches) + current
  {
    GreedyClose(batches, current, nMax);
    ConcatAppend(batches, [current]);
    ConcatSingle(current);
  }

  /** The loop state after the first `i` chunks: the closed batches and the
      current one hold those chunks in order, and the batches so far obey the
      greedy rule. */
  predicate BatchState(chunks: seq<Document>, i: nat, batches: seq<seq<Document>>, current: seq<Document>, nMax: int)
    requires i <= |chunks|
  {
    && Concat(batches) + current == chunks[..i]
    && (i == 0 ==> current == [] && batches == [])
    && (i > 0 ==> current != [])
    && (i > 0 && batches == [] ==> current[0] == chunks[0] && |chunks[0].content| < nMax)
    && (i > 0 && batches != [] ==> (batches[0] == [] <==> |chunks[0].content| >= nMax))
    && Greedy(batches, nMax) && Fits(current, nMax)
    && (batches != [] ==> Closes(batches[|batches| - 1], current, nMax))
  }

  /** The chunk does not fit: the current batch is closed and the chunk starts the next. */
  lemma OpenStep(chunks: seq<Document>, i: nat, batches: seq<seq<Document>>, current: seq<Document>, nMax: int)
    requires i < |chunks| && BatchState(chunks, i, batches, current, nMax)
    requires Total(current) + |chunks[i].content| >= nMax
    ensures BatchState(chunks, i + 1, batches + [current], [chunks[i]], nMax)
  {
    var c := chunks[i];
    var bs := batches + [current];
    assert chunks[..i + 1] == chunks[..i] + [c];
    CloseBatch(batches, current, nMax);
    assert Concat(bs) + [c] == chunks[..i + 1];
    assert bs[|bs| - 1] == current && [c][0] == c;
    assert Closes(bs[|bs| - 1], [c], nMax);
    if batches == [] {
      assert bs[0] == current;
      if i == 0 {
        assert Total(current) == 0;
      }
    } else {
      assert bs[0] == batches[0];
    }
  }

  /** The chunk fits: it joins the current batch. */
  lemma ExtendStep(chunks: seq<Document>, i: nat, batches: seq<seq<Document>>, current: seq<Document>, nMax: int)
    requires i < |chunks| && BatchState(chunks, i, batches, current, nMax)
    requires Total(current) + |chunks[i].content| < nMax
    ensures BatchState(chunks, i + 1, batches, current + [chunks[i]], nMax)
  {
    var c := chunks[i];
    assert chunks[..i + 1] == chunks[..i] + [c];
    assert (current + [c])[..|current|] == current;
    assert Total(current + [c]) == Total(current) + |c.content|;
    assert current != [] ==> (current + [c])[0] == current[0];
    if i == 0 {
      assert current + [c] == [c];
    }
  }

  /** After the last chunk, the current batch is closed if it is non-empty. */
  lemma FinishBatches(chunks: seq<Document>, batches: seq<seq<Document>>, current: seq<Document>, nMax: int)
    requires BatchState(chunks, |chunks|, batches, current, nMax)
    ensures var r := if current != [] then batches + [current] else batches;
            && Concat(r) == chunks
            && (r == [] <==> chunks == [])
            && (chunks != [] ==> (r[0] == [] <==> |chunks[0].content| >= nMax))
            && Greedy(r, nMax)
  {
    assert chunks[..|chunks|] == chunks;
    if current != [] {
      CloseBatch(batches, current, nMax);
    }
  }

  /** One pass of the loop of `batch`: the chunk either closes the current
      batch and starts the next, or joins the current batch. */
  method BatchStep(chunks: seq<Document>, i: nat, batches: seq<seq<Document>>, current: seq<Document>, count: int, nMax: int)
    returns (batches': seq<seq<Document>>, current': seq<Document>, count': int)
    requires i < |chunks| && BatchState(chunks, i, batches, current, nMax) && count == Total(current)
    ensures BatchState(chunks, i + 1, batches', current', nMax) && count' == Total(current')
  {
    var c := chunks[i];
    var chunkLength := |c.content|;
    if count + chunkLength >= nMax {
      OpenStep(chunks, i, batches, current, nMax);
      batches' := batches + [current];
      current' := [c];
      count' := chunkLength;
      assert [c][..0] == [];
    } else {
      ExtendStep(chunks, i, batches, current, nMax);
      batches' := batches;
      current' := current + [c];
      count' := count + chunkLength;
    }
  }

  /** `batch(chunks, n_max)`. The batches flatten back to the chunks; only the
      first can be empty, exactly when the first chunk alone reaches `n_max`;
      every batch of two or more chunks has total length under `n_max`; and each
      batch after the first starts with a chunk that would have brought the
      previous one to `n_max` or more. */
  method Batch(chunks: seq<Document>, nMax: int := DefaultMaxLength) returns (batches: seq<seq<Document>>)
    ensures Concat(batches) == chunks
    ensures batches == [] <==> chunks == []
    ensures chunks != [] ==> (batches[0] == [] <==> |chunks[0].content| >= nMax)
    ensures Greedy(batches, nMax)
  {
    batches := [];
    var current: seq<Document> := [];
    var count := 0;
    for i := 0 to |chunks|
      invariant BatchState(chunks, i, batches, current, nMax)
      invariant count == Total(current)
    {
      batches, current, count := BatchStep(chunks, i, batches, current, count, nMax);
    }
    FinishBatches(chunks, batches, current, nMax);
    if current != [] {
      batches := batches + [current];
    }
  }
}
