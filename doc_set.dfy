/** Deduplication of document lists by `id`, as every retrieval step of the
    system does it: `for doc in docs: unique_docs[id(doc)] = doc` followed by
    `list(unique_docs.values())`. Ids keep the order of their first occurrence,
    and the document kept for an id is the last one written. */
module DocSet {
  import opened Wrappers
  import opened Documents
  import opened OrderedDict

  /** The dictionary key of every document, in order. */
  function Keys(docs: seq<Document>): (r: seq<int>)
    ensures |r| == |docs|
    ensures forall i :: 0 <= i < |docs| ==> r[i] == IdOrZero(docs[i])
  {
    seq(|docs|, i requires 0 <= i < |docs| => IdOrZero(docs[i]))
  }

  predicate NoDuplicates(s: seq<int>) {
    forall i, j :: 0 <= i < j < |s| ==> s[i] != s[j]
  }

  /** `True` when every document carries an `id` (so `doc.metadata['id']` never
      raises KeyError). */
  predicate AllHaveIds(docs: seq<Document>) {
    forall i :: 0 <= i < |docs| ==> docs[i].id.Some?
  }

  /** The elements of `s` at their first occurrence, in order. */
  function Distinct(s: seq<int>): (r: seq<int>)
    ensures NoDuplicates(r)
    ensures forall x :: x in r <==> x in s
  {
    if s == [] then []
    else
      var p := Distinct(s[..|s| - 1]);
      assert forall x :: x in s <==> x in s[..|s| - 1] || x == s[|s| - 1];
      if s[|s| - 1] in p then p else p + [s[|s| - 1]]
  }

  /** The position of the last document of `docs` whose key is `k`. */
  function LastIndexWithKey(docs: seq<Document>, k: int): (i: nat)
    requires k in Keys(docs)
    ensures i < |docs| && IdOrZero(docs[i]) == k
    ensures forall j :: i < j < |docs| ==> IdOrZero(docs[j]) != k
  {
    var n := |docs| - 1;
    if IdOrZero(docs[n]) == k then n
    else
      assert Keys(docs[..n]) == Keys(docs)[..n];
      LastIndexWithKey(docs[..n], k)
  }

  /** The last document of `docs` whose key is `k`. */
  function LastWithKey(docs: seq<Document>, k: int): Document
    requires k in Keys(docs)
  {
    docs[LastIndexWithKey(docs, k)]
  }

  /** The dictionary that the dedup loop has built after reading `docs`. */
  function Collect(docs: seq<Document>): (d: Dict<int, Document>)
    ensures d.Valid()
  {
    if docs == [] then Empty()
    else
      var n := |docs| - 1;
      Collect(docs[..n]).Put(IdOrZero(docs[n]), docs[n])
  }

  /** The dictionary lists each key once, in first-occurrence order, and maps it
      to the last document written with it. */
  lemma {:induction false} CollectSpec(docs: seq<Document>)
    ensures Collect(docs).keys == Distinct(Keys(docs))
    ensures forall k :: k in Collect(docs).entries ==>
              k in Keys(docs) && Collect(docs).entries[k] == LastWithKey(docs, k)
    decreases |docs|
  {
    if docs != [] {
      var n := |docs| - 1;
      CollectSpec(docs[..n]);
      assert Keys(docs[..n]) == Keys(docs)[..n];
    }
  }

  /** `list(unique_docs.values())` after the loop over `docs`. */
  function Dedup(docs: seq<Document>): seq<Document>
  {
    Collect(docs).Values()
  }

  /** The loop of every dedup site: a dict filled in input order, then its values. */
  method UniqueById(docs: seq<Document>) returns (r: seq<Document>)
    ensures r == Dedup(docs)
  {
    var order: seq<int> := [];
    var unique: map<int, Document> := map[];
    for i := 0 to |docs|
      invariant Dict(order, unique) == Collect(docs[..i])
    {
      assert docs[..i + 1][..i] == docs[..i];
      var k := IdOrZero(docs[i]);
      if k !in unique {
        order := order + [k];
      }
      unique := unique[k := docs[i]];
    }
    assert docs[..|docs|] == docs;
    r := Dict(order, unique).Values();
  }

  // ------------------------------------------------------------------ properties

  /** What `Dedup` promises: ids in first-occurrence order (hence pairwise
      distinct, and every input id is kept), and for each id the last document
      written with it. */
  lemma DedupSpec(docs: seq<Document>)
    ensures Keys(Dedup(docs)) == Distinct(Keys(docs))
    ensures NoDuplicates(Keys(Dedup(docs)))
    ensures forall k :: k in Keys(Dedup(docs)) <==> k in Keys(docs)
    ensures forall j :: 0 <= j < |Dedup(docs)| ==>
              IdOrZero(Dedup(docs)[j]) in Keys(docs) &&
              Dedup(docs)[j] == LastWithKey(docs, IdOrZero(Dedup(docs)[j]))
  {
    var d := Collect(docs);
    CollectSpec(docs);
    assert forall j :: 0 <= j < |d.keys| ==> d.keys[j] in d.entries;
  }

  /** Every document of the output comes from the input. */
  lemma DedupSubset(docs: seq<Document>)
    ensures forall d :: d in Dedup(docs) ==> d in docs
  {
    DedupSpec(docs);
  }

  lemma {:induction false} DistinctAbsorbs(s: seq<int>, t: seq<int>)
    requires forall x :: x in t ==> x in s
    ensures Distinct(s + t) == Distinct(s)
    decreases |t|
  {
    if t != [] {
      var n := |t| - 1;
      assert (s + t)[..|s + t| - 1] == s + t[..n];
      assert forall x :: x in t[..n] ==> x in t;
      DistinctAbsorbs(s, t[..n]);
      assert (s + t)[|s + t| - 1] == t[n];
      assert t[n] in s;
      assert t[n] in Distinct(s + t[..n]);
    } else {
      assert s + t == s;
    }
  }

  /** Appending elements never reorders the first occurrences already seen. */
  lemma {:induction false} DistinctPrefix(s: seq<int>, t: seq<int>)
    ensures Distinct(s) <= Distinct(s + t)
    decreases |t|
  {
    if t == [] {
      assert s + t == s;
    } else {
      var n := |t| - 1;
      assert (s + t)[..|s + t| - 1] == s + t[..n];
      DistinctPrefix(s, t[..n]);
    }
  }

  /** Deduplicating a concatenation keeps the first list's ids first, in their
      order of first occurrence. */
  lemma DedupFirstOrder(a: seq<Document>, b: seq<Document>)
    ensures Distinct(Keys(a)) <= Keys(Dedup(a + b))
  {
    DedupSpec(a + b);
    assert Keys(a + b) == Keys(a) + Keys(b);
    DistinctPrefix(Keys(a), Keys(b));
  }

  lemma {:induction false} DistinctOfDistinct(s: seq<int>)
    requires NoDuplicates(s)
    ensures Distinct(s) == s
    decreases |s|
  {
    if s != [] {
      var n := |s| - 1;
      DistinctOfDistinct(s[..n]);
      assert s[n] !in s[..n];
      assert s[..n] + [s[n]] == s;
    }
  }

  /** The last position with key `k` is the one with no later position
      keyed `k`. */
  lemma LastIndexUnique(docs: seq<Document>, k: int, i: nat)
    requires i < |docs| && IdOrZero(docs[i]) == k
    requires forall j :: i < j < |docs| ==> IdOrZero(docs[j]) != k
    ensures k in Keys(docs) && LastIndexWithKey(docs, k) == i
  {
    assert Keys(docs)[i] == k;
  }

  lemma LastWithKeyInSuffix(a: seq<Document>, b: seq<Document>, k: int)
    requires k in Keys(b)
    ensures k in Keys(a + b) && LastWithKey(a + b, k) == LastWithKey(b, k)
  {
    var ab := a + b;
    var i := LastIndexWithKey(b, k);
    assert ab[|a| + i] == b[i];
    forall j | |a| + i < j < |ab| ensures IdOrZero(ab[j]) != k {
      assert ab[j] == b[j - |a|];
    }
    LastIndexUnique(ab, k, |a| + i);
  }

  lemma {:induction false} LastWithKeyUnique(docs: seq<Document>, i: int)
    requires 0 <= i < |docs| && NoDuplicates(Keys(docs))
    ensures LastWithKey(docs, IdOrZero(docs[i])) == docs[i]
    decreases |docs|
  {
    var n := |docs| - 1;
    if i != n {
      assert Keys(docs)[i] != Keys(docs)[n];
      assert Keys(docs[..n]) == Keys(docs)[..n];
      LastWithKeyUnique(docs[..n], i);
    }
  }

  lemma CollectEq(a: seq<Document>, b: seq<Document>)
    requires Distinct(Keys(a)) == Distinct(Keys(b))
    requires forall k :: k in Keys(a) ==> k in Keys(b) && LastWithKey(a, k) == LastWithKey(b, k)
    ensures Dedup(a) == Dedup(b)
  {
    var ca, cb := Collect(a), Collect(b);
    assert ca.keys == cb.keys by {
      CollectSpec(a);
      CollectSpec(b);
    }
    assert ca.entries == cb.entries by {
      forall k | k in ca.entries
        ensures k in cb.entries && ca.entries[k] == cb.entries[k]
      {
        CollectSpec(a);
        CollectSpec(b);
        assert k in ca.keys;
      }
      forall k | k in cb.entries
        ensures k in ca.entries
      {
        assert k in cb.keys;
      }
    }
    assert ca == cb;
  }

  /** Merging a list with itself gives the same documents, in the same order, as
      the list alone (`merge([L, L]) == merge([L])`). */
  lemma DedupSelfMerge(docs: seq<Document>)
    ensures Dedup(docs + docs) == Dedup(docs)
  {
    assert Keys(docs + docs) == Keys(docs) + Keys(docs);
    DistinctAbsorbs(Keys(docs), Keys(docs));
    forall k | k in Keys(docs + docs)
      ensures k in Keys(docs) && LastWithKey(docs + docs, k) == LastWithKey(docs, k)
    {
      LastWithKeyInSuffix(docs, docs, k);
    }
    CollectEq(docs + docs, docs);
  }

  /** A list whose ids are already distinct is left as it is. */
  lemma DedupOfDistinct(docs: seq<Document>)
    requires NoDuplicates(Keys(docs))
    ensures Dedup(docs) == docs
  {
    DistinctOfDistinct(Keys(docs));
    CollectSpec(docs);
    var r := Dedup(docs);
    forall j | 0 <= j < |docs| ensures r[j] == docs[j] {
      LastWithKeyUnique(docs, j);
    }
  }

  /** Deduplicating twice is deduplicating once. */
  lemma DedupIdempotent(docs: seq<Document>)
    ensures Dedup(Dedup(docs)) == Dedup(docs)
  {
    DedupSpec(docs);
    DedupOfDistinct(Dedup(docs));
  }
}
