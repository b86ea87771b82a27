# OmniBot core, modelled in Dafny

OmniBot is a retrieval-augmented chatbot built on LangChain and Streamlit.
Around its foreign parts (the LLM, the Milvus and Chroma vector stores, the
Cohere reranker, scikit-learn's TF-IDF, the Streamlit UI and the TTS engine)
it has a layer of plain sequential logic. This project models that layer and
proves what it promises. Every foreign collaborator is a function-valued
parameter or a field of an oracle record.

- **Conversation history** (`History`, for `chatbot/utilities.py`).
  - `MessageWithDocs` is a class whose vector cache is an `Option` field.
  - `ChatHistory` is a class that holds a sequence of those objects and an optional fitted vectorizer.
  - TF-IDF fitting, transformation and cosine similarity are an `Oracle`.
  - The model covers the follow-up context selection (`get_message_ctx`, `get_last_message_ctx`, `get_followup_ctx`), last-n and clear.
- **Context assembly and routing.**
  - `ChatbotChains` models `chatbot/chains.py`: `RAGChain.get_ctx`, `extract_type`/`branch`, and the history bookkeeping of `HistoryAwareChain.invoke`.
  - `Chains` models `chains.py`: `FollowupChain.get_ctx` and its branch, the `DefaultChain` decision tree, `ChainOfThoughts` routing, the classifier's default label, the answer signatures and the `Chain.invoke` error path.
  - Both files deduplicate documents by id with Python dict semantics: a key keeps the position of its first insertion and takes the value written last. `DocSet` models this over the insertion-ordered dictionary `OrderedDict`. `Sorting` provides a stable sort by an integer key.
- **Retrievers.**
  - `Retriever` (`retriever.py`): the effective threshold, the score filter, and the merge of title and content documents followed by dedup.
  - `ChatbotRetriever` (`chatbot/retriever.py`): the threshold switch and `filter`.
- **Sessions.**
  - `ChatbotSession` (`chatbot/session.py`): the sliding-window `limit_history` and the append-then-limit turn.
  - `Session` (`session.py`): signature-gated recording and the 10-message cap of the FAQ branch.
- **Ingestion.**
  - `Vectorizer` (`vectorizer.py`): greedy length-bounded batching.
  - `Splitter` (`splitter.py` and `vectorstore/splitter.py`): chunk framing, the skip rule, id assignment and title-file names.
    - The two splitter files differ only in the `type` metadata that `splitter.py` adds.
    - `Splitter` takes it as `tag: Option<string>`. `None` is `vectorstore/splitter.py`.
  - `DataManager` (`data_manager.py`): data descriptors, equality, type by extension, validation with file existence and the HTTP status as oracles, and the CSV row round trip.
  - `RetrieverDataManager` (`retriever/data_manager.py`): reuses `DataManager`'s `Data`, equality and `GetDataType`, which are the same code.
  - `WordDocSplitter` (`word_doc_splitter.py`): header-driven sectioning of a Word document and `get_docs`. Written files are a map in a `Files.Directory` object.
- **Text to speech** (`Tts`, for `chatbot/tts.py`).
  - `AudioBuffer` is a class with the texts and fragments it appends and clears.
  - The audio plays in stable id order.
  - Token slicing is modelled over an abstract token sequence, and the tokenizer and the synthesiser are oracles.

Python exceptions become `Result.Failure` values with the exception's class
(`AttributeError`, `IndexError`, `KeyError`, `TypeError`, `ValueError`).
`raise Exception(TypeError)` in `chatbot/chains.py` raises a bare `Exception`
whose argument is the class `TypeError`; it is the separate value
`PlainException`.
Strings are `seq<char>`. Python's `s[-k:]`, `readline`, `strip`, `split`,
`str(int)`/`int(str)` and `range` with a step are written out in `PyStr` and
at their use sites.

Several behaviours are easy to misread. The model follows the code in each:

- **`[-0:]` slices.**
  - `get_last_messages(0)` returns every message.
  - `limit_history(0)` keeps the whole history.
- **Follow-up context in `chains.py`.** The output is not sorted.
- **Stale vector caches in `chatbot/utilities.py`.** `get_followup_ctx` refits the vectorizer on every call, but a message embeds itself only once. After the vocabulary grows, the cached vectors keep the old length, and `cosine_similarity` raises ValueError (`History.StaleCacheRaises`).
- **Missing ids in `chatbot/chains.py`.** A document without an `id` collapses with the document of id 0.
- **Classifier default label.** A missing label is `'default'` in `chains.py`, which reaches `DefaultChain`, and `'conversational'` in `chatbot/chains.py`.

## Model

| member | source | states |
|---|---|---|
| History.FullText | chatbot/utilities.py:18 | the text embedded for a message is its content, a space, then its documents' contents; a string context raises AttributeError (`page_content` of a character) |
| History.Transform | chatbot/utilities.py:19 | transforming without a fitted vectorizer raises AttributeError |
| History.Fit | chatbot/utilities.py:46 | fitting succeeds exactly on a non-empty corpus the oracle accepts and remembers that corpus; otherwise ValueError |
| History.MessageWithDocs.constructor | chatbot/utilities.py:11-14 | a new message has the given message and documents and no cached vector |
| History.MessageWithDocs.Embedding | chatbot/utilities.py:16-20 | a cached vector is returned whatever vectorizer is passed; without a cache, a bad context or a missing vectorizer raises AttributeError |
| History.MessageWithDocs.EmbedSelf | chatbot/utilities.py:16-20 | the vector is computed at most once: after a success the cache is set and every later call returns it for any vectorizer |
| History.Embeddings | chatbot/utilities.py:55-57 | one embedding result per stored message, in order |
| History.Similarity | chatbot/utilities.py:57 | `cosine_similarity` of two vectors of different lengths raises ValueError; of equal lengths it is the oracle's cosine |
| History.Picked | chatbot/utilities.py:55-59 | reference selection, defined when every message embeds to a vector of the selector's length: a message contributes its documents exactly when its similarity is strictly above the threshold |
| History.Select | chatbot/utilities.py:55-59 | the selection loop succeeds exactly when every stored message embeds to a vector of the selector's length |
| History.SelectSpec | chatbot/utilities.py:55-60 | the loop's context is the concatenation of the reference selection, in message order; a failure is the error of the first message that breaks the loop: its embedding's error, or ValueError when its vector's length differs from the selector's |
| History.SelectRaisesOnLength | chatbot/utilities.py:55-59 | when every message embeds, the loop raises exactly when some vector's length differs from the selector's, and the error is ValueError |
| History.QueryCtx | chatbot/utilities.py:48-60 | `get_message_ctx` embeds the query plus a space as a message with no documents and runs the selection loop with that vector, so it raises ValueError when a stored vector has another length; without a vectorizer it raises AttributeError |
| History.LastCtx | chatbot/utilities.py:62-71 | an empty history raises IndexError; otherwise it succeeds only when the last message embeds and the loop over the earlier messages, with that vector as selector, succeeds (so it raises ValueError on a length mismatch); the last message's own documents always close the context |
| History.TrainTexts | chatbot/utilities.py:41-45 | the training corpus has at most one text per message and fails exactly when some message's context is not a document list |
| History.TrainTextsSkipsUserMessages | chatbot/utilities.py:44 | a message with `[]` documents adds nothing to the training corpus |
| History.TrainTextsAddsAnswer | chatbot/utilities.py:44-45 | a message with documents adds exactly its full text at the end of the corpus |
| History.FormatDocsAppend | chatbot/utilities.py:146-147 | formatting two non-empty document lists is their two formats separated by a blank line |
| History.ChatHistory.constructor | chatbot/utilities.py:23-25 | a new history has no message and no vectorizer |
| History.ChatHistory.AddMessageFromUser | chatbot/utilities.py:27-32 | exactly one new human message with `[]` documents and no vector is appended; earlier messages and the vectorizer are untouched |
| History.ChatHistory.AddMessageFromResponse | chatbot/utilities.py:34-39 | exactly one new AI message is appended, with the answer (default `''`) and the context (default `''`) of the response |
| History.Refit | chatbot/utilities.py:41-46 | refitting succeeds exactly when every context is a document list and the resulting corpus is non-empty and accepted; it yields the model fitted on that corpus |
| History.ChatHistory.TrainVectorizer | chatbot/utilities.py:41-46 | the vectorizer becomes the model fitted on the texts of the messages with documents; on failure it is unchanged and the error is returned |
| History.ChatHistory.GetMessageCtx | chatbot/utilities.py:48-60 | returns the query context over the stored messages, including the ValueError of a length mismatch; the messages and their embeddings keep their values, and after a success every message has a cached vector |
| History.ChatHistory.GetLastMessageCtx | chatbot/utilities.py:62-71 | returns the last-message context over the stored messages, including the ValueError of a length mismatch; the embeddings keep their values, and after a success every message has a cached vector |
| History.ChatHistory.GetFollowupCtx | chatbot/utilities.py:73-79 | refits the vectorizer on every call; a failed fit is returned and the vectorizer is kept; otherwise the result is the follow-up context under the new model, where cached vectors from earlier models are kept and only uncached messages are embedded with the new one, and after a success every message is cached |
| History.ChatHistory.FollowupWith | chatbot/utilities.py:75-79 | the query context if it is non-empty, else the last-message context, over the current embeddings, which it leaves unchanged |
| History.FreshFollowupSucceeds | chatbot/utilities.py:48-79 | on a history with no cached vector and only document-list contexts, a model whose vectors all have one length makes the follow-up context succeed |
| History.StaleCacheFollowup | chatbot/utilities.py:48-79 | a message still cached from an earlier model with a vector whose length differs from the new model's makes the follow-up context raise ValueError |
| History.StaleCacheRaises | chatbot/utilities.py:41-79 | a concrete session: the first `get_followup_ctx` after one exchange succeeds, and after a second exchange the vocabulary grows, the cached vectors keep the old length, and the next call raises ValueError |
| History.ChatHistory.AllMessages | chatbot/utilities.py:81-84 | every stored message, in stored order |
| History.ChatHistory.LastMessages | chatbot/utilities.py:86-91 | `[]` on an empty history; the last min(n, len) messages for n ≥ 1; every message for n = 0; Python's `[-n:]` for negative n; always a suffix of the messages |
| History.ChatHistory.Clear | chatbot/utilities.py:93-95 | no message and no vectorizer remain |
| ChatbotRetriever.Filter | chatbot/retriever.py:36-39 | filtering fails with TypeError exactly when some document lacks a relevance score (`None > float`) |
| ChatbotRetriever.FilterMembers | chatbot/retriever.py:39 | a document is kept exactly when it is in the input and its score is strictly above the threshold |
| ChatbotRetriever.FilterSubseq | chatbot/retriever.py:39 | the kept documents are a subsequence of the input, in its order |
| ChatbotRetriever.FilterCompose | chatbot/retriever.py:39 | filtering at t1 and then at a higher t2 is filtering at t2, so raising the threshold only shrinks the output |
| ChatbotRetriever.FilterIdempotent | chatbot/retriever.py:39 | filtering twice at one threshold is filtering once |
| ChatbotRetriever.Retrieve | chatbot/retriever.py:24-34 | threshold 0 returns the reranked documents unfiltered; any other threshold returns `filter` at that threshold |
| Retriever.SimplifiedRelaxes | retriever.py:15 | the simplified threshold is `threshold * simplifier` and never exceeds the standard one |
| Retriever.ScoreFilter | retriever.py:30-31 | a document is relevant exactly when one of its scores is strictly above the threshold |
| Retriever.UniqueByStrictId | retriever.py:32-35 | the dict loop gives the id-dedup of the documents, and KeyError when one lacks an id |
| Retriever.RetrieveRelevantDocs | retriever.py:29-35 | the documents above the threshold, deduplicated by id, or KeyError |
| Retriever.RelevantDocsSpec | retriever.py:32-35 | the relevant documents have pairwise distinct ids, and each was scored above the threshold |
| Retriever.TitleIds | retriever.py:16 | reading every title hit's id succeeds exactly when all have ids, giving them in order |
| Retriever.Retrieve | retriever.py:14-27 | title documents looked up by id come first, then the relevant content documents at the effective threshold, then dedup; a missing id raises KeyError |
| Retriever.RetrieveOrder | retriever.py:20-27 | title ids come first in their order; every id occurs once; for a content id, the kept document is the last content document with it |
| Retriever.ThresholdScenarios | retriever.py:15 | concrete scores around threshold 0.5 and simplifier 0.8: 0.45 passes only in simplified mode, 0.55 in both modes |
| DocSet.Distinct | chains.py:371-374 | the dict's key order has no duplicates and holds exactly the input keys |
| DocSet.LastIndexWithKey | chains.py:373 | the position of the last document with a key, and no later document has it |
| DocSet.CollectSpec | chains.py:371-374 | the dict loop's keys are the ids in first-insertion order, each holding the last document written with it |
| DocSet.UniqueById | chatbot/chains.py:394-399 | the dict loop computes the dedup |
| DocSet.DedupSpec | retriever.py:21-27 | dedup keys are the distinct input ids in first-occurrence order, and each kept document is the last with its id |
| DocSet.DedupSubset | retriever.py:21-27 | dedup invents no document |
| DocSet.DedupFirstOrder | retriever.py:20-27 | the ids of documents placed first lead the dedup output, in their order |
| DocSet.LastWithKeyInSuffix | retriever.py:20-23 | for an id present in the later list, the later list's document wins |
| DocSet.LastWithKeyUnique | retriever.py:21-27 | with distinct ids, the last document with a document's id is that document |
| DocSet.CollectEq | retriever.py:21-27 | two lists with the same id order and the same last document per id dedup to the same list |
| DocSet.DedupSelfMerge | retriever.py:20-27 | merging a list with itself and deduplicating equals deduplicating it once |
| DocSet.DedupOfDistinct | retriever.py:21-27 | a list with distinct ids is its own dedup |
| DocSet.DedupIdempotent | retriever.py:21-27 | dedup is idempotent |
| Sorting.SortBySortedPermutation | chatbot/chains.py:400 | `sorted` by key returns an ascending permutation of the input |
| Sorting.SortByStable | chatbot/tts.py:44 | the sort is stable: the elements with one key keep their relative order |
| Sorting.SortByStrict | chatbot/chains.py:400 | with distinct keys the sorted list is strictly ascending |
| Sorting.SortBySorted | chatbot/chains.py:400 | an already sorted list is left as it is |
| Sorting.SortByHas | chatbot/chains.py:400 | sorting keeps exactly the input's elements |
| ChatbotChains.UniqueItemsById | chatbot/chains.py:394-399 | the dict loop over the follow-up items and retrieved documents dedups them, and raises AttributeError on a character item (`.metadata` of a string) |
| ChatbotChains.MergedDocs | chatbot/chains.py:380-400 | a first follow-up item that is not a Document raises a bare `Exception` (`PlainException`); merging succeeds exactly when every follow-up item is a Document |
| ChatbotChains.MergedDocsOfDocs | chatbot/chains.py:380-400 | the merged documents are the follow-up then the retrieved documents, deduplicated by id (missing id as 0), sorted by id |
| ChatbotChains.MergedDocsSpec | chatbot/chains.py:394-400 | the merged documents have strictly ascending ids, exactly the input ids, and for each id the last document written with it |
| ChatbotChains.RetrievedWins | chatbot/chains.py:388-397 | for an id the retriever returned, the retrieved document beats any follow-up document |
| ChatbotChains.MissingIdCollapses | chatbot/chains.py:397 | a document without id and a document of id 0 collapse into one entry, the later one |
| ChatbotChains.CharContextRaises | chatbot/chains.py:384-397 | a string context in the follow-up raises: a bare `Exception` (`PlainException`) if it is the first item, otherwise AttributeError in the dict loop |
| ChatbotChains.RagCtx | chatbot/chains.py:380-403 | errors of the follow-up step propagate, and an empty merged set yields `''` |
| ChatbotChains.GetCtx | chatbot/chains.py:380-403 | `get_ctx` returns the rendering of the sorted, deduplicated merge |
| ChatbotChains.ExtractType | chatbot/chains.py:449-453 | `type` becomes the inner dict's `type`, defaulting to `'conversational'`; the other keys are unchanged; a non-dict `type` raises AttributeError |
| ChatbotChains.Branch | chatbot/chains.py:427-439 | exactly `summary` goes to summarisation and exactly `document` to RAG |
| ChatbotChains.ClassifyRoutes | chatbot/chains.py:441-453 | a classifier object with `summary` reaches summarisation, one with `document` reaches RAG, any other object reaches the conversational chain, and a non-object raises |
| ChatbotChains.HistoryAwareChain.constructor | chatbot/chains.py:126-128 | the chain holds the given history |
| ChatbotChains.HistoryAwareChain.Invoke | chatbot/chains.py:143-159 | the user message is appended before the run; after a success the response message follows; a failed run leaves only the user message and propagates the error |
| Chains.Name | chains.py:89 | every answering chain signs with a non-empty name other than `NegativeChain` |
| Chains.NamesDistinct | chains.py:89 | distinct chains sign distinctly |
| Chains.GetCtx | chains.py:366-374 | `FollowupChain.get_ctx` returns the follow-up documents |
| Chains.FollowupCtxSpec | chains.py:366-374 | history documents at `threshold * simplifier` come before the retriever's; the output has distinct ids in first-occurrence order, each with the last document written for it |
| Chains.FollowupCtxUnsorted | chains.py:371-374 | the output keeps insertion order and is not sorted by id |
| Chains.FollowupChainDispatch | chains.py:353-362 | the follow-up chain answers exactly when its context is non-empty, otherwise the conversational chain |
| Chains.DefaultChainDispatch | chains.py:204-231 | the default chain answers with the document chain exactly when the context it ends with is non-empty, otherwise the conversational chain |
| Chains.DefaultChainTree | chains.py:179-231 | the first retrieval is standard; a non-empty result answers at once; otherwise the rewritten query is retrieved again, simplified exactly when the original input is non-empty |
| Chains.ClassifiedType | chains.py:267-270 | a missing label is `'default'`; a non-dict classifier output raises |
| Chains.RouteOf | chains.py:397-411 | `summary`, `followup` and `conversational` have their own chains; every other label reaches the default chain |
| Chains.ChainOfThoughtsRoutes | chains.py:397-422 | an empty history skips the classifier; summarisation answers exactly the `summary` label; follow-up needs the `followup` label and a non-empty context; the document chain needs a non-empty context and none of the three other labels |
| Chains.Respond | chains.py:86-90 | the answering chain's output carries the answer, its context and its own name as signature |
| Chains.Invoke | chains.py:19-33 | a successful run is returned unchanged; a raising run re-raises without a handler or with a handler whose `error` re-raises, and returns `{}` when the handler's `error` returns |
| Chains.InvokeSignature | chains.py:19-33 | through a handler, a full turn fails only when the run fails and the handler re-raises, and then with the run's own error; a response is signed exactly when the run succeeded, with the answering chain's name |
| ChatbotSession.Limited | chatbot/session.py:22-25 | a history longer than k ≥ 1 keeps its last k messages; a shorter one and k = 0 keep everything; the result is always a suffix |
| ChatbotSession.LimitedMessages | chatbot/session.py:25 | limiting the stored messages limits the plain messages alike |
| ChatbotSession.LimitedIdempotent | chatbot/session.py:22-25 | limiting twice with the same size is limiting once |
| ChatbotSession.Session.constructor | chatbot/session.py:33-38 | a new session shows nothing and has an empty history |
| ChatbotSession.Session.LimitHistory | chatbot/session.py:22-25 | the history becomes its limited suffix; the vectorizer is untouched |
| ChatbotSession.Session.Clear | chatbot/session.py:103-106 | the shown messages and the history are emptied |
| ChatbotSession.RecordedTurnMessages | chatbot/session.py:134-135 | a recorded turn adds exactly the prompt and the answer to the plain messages |
| ChatbotSession.Session.Record | chatbot/session.py:134-135 | the earlier entries are kept and two entries follow: the prompt with `[]` documents, then the answer with the response's context |
| ChatbotSession.Session.Turn | chatbot/session.py:134-143 | the user and AI entries are shown; the history is the limited suffix (`history_size`) of the earlier entries followed by the recorded prompt and response, with their documents |
| ChatbotSession.Session.Update | chatbot/session.py:80-175 | Clear applies first; a FAQ prompt takes precedence over a typed one; the history is the limited suffix of the kept entries followed by the recorded turn; with no prompt nothing else changes |
| Session.RecordingGate | session.py:120-148 | every answering chain's response passes the chat gate; the FAQ gate refuses exactly the conversational chain; the empty `{}` response passes neither |
| Session.Session.constructor | session.py:28-33 | a new session shows nothing and has an empty history |
| Session.Session.Clear | session.py:90-93 | the shown messages and the history are emptied |
| Session.Session.Record | session.py:122-123 | the earlier entries are kept and two entries follow: the prompt with `[]` documents, then the answer with the response's context |
| Session.Session.ChatTurn | session.py:104-129 | both entries are always shown; the history records them, with the response's documents after the kept entries, only under a truthy signature other than `NegativeChain`, with no cap; otherwise it is unchanged |
| Session.Session.FaqTurn | session.py:130-158 | both entries are always shown; the history records them, with the response's documents, only under a truthy signature other than `ConversationalChain`, then keeps the last 10 entries of the recorded history; otherwise it is unchanged |
| Session.Session.CapHistory | session.py:150-152 | a history longer than 10 entries becomes its last 10; a shorter one is unchanged |
| Session.Session.Update | session.py:70-161 | Clear applies first; a FAQ prompt takes precedence; each branch records the turn, with its documents, after the kept entries under its own gate, and only the FAQ branch caps |
| Vectorizer.CloseBatch | vectorizer.py:95-98 | closing the current batch keeps the batches greedy and their flattening in order |
| Vectorizer.FinishBatches | vectorizer.py:103-106 | after the loop, the last non-empty batch is closed and no empty batch is left behind except possibly the first |
| Vectorizer.BatchStep | vectorizer.py:93-101 | one loop pass keeps the batch invariant, with `count` equal to the current batch's total length |
| Vectorizer.Batch | vectorizer.py:87-106 | the batches flatten back to the chunks; no chunk gives no batch; only the first batch can be empty, exactly when the first chunk alone reaches `n_max`; a batch of two or more chunks stays under `n_max`; each later batch starts with a chunk that did not fit |
| Splitter.ReadLine | splitter.py:34 | `readline` is a prefix of the text that ends at its first newline, or the whole text when there is none |
| Splitter.WithChunkSize | splitter.py:27-28 | a zero chunk size becomes the text's length and nothing else changes |
| Splitter.TextChunkSpec | splitter.py:34-43 | a kept split carries the title and the type in its metadata, and its content is the `\TITLE…\SOURCE…\BODY:` header followed by the split's own content, except for `titles` |
| Splitter.FrameTextsSpec | splitter.py:33-44 | at most one chunk per split; every chunk is labelled and framed; when no split is skipped, each chunk is its split's framing, in order |
| Splitter.TitlesKeepEverything | splitter.py:39 | the `titles` collection keeps every split with its content unchanged |
| Splitter.SingleSplitKept | splitter.py:40 | a single split is kept even when it equals the title |
| Splitter.TitleSplitDropped | vectorstore/splitter.py:34-35 | with two splits the split equal to the title is dropped |
| Splitter.FrameSplit | splitter.py:39-44 | a split is kept exactly when the skip rule does not apply, and then framed |
| Splitter.FrameSplits | vectorstore/splitter.py:29-38 | the loop over the splits computes the framed, filtered list |
| Splitter.TextChunks | splitter.py:22-46 | `TextChunks` fills in the chunk size and frames the library's splits under the stripped first line of the file |
| Splitter.RowChunk | splitter.py:90-96 | framing a row needs the title, description and URL metadata (KeyError otherwise) and keeps its metadata and id |
| Splitter.RowChunkFramed | vectorstore/splitter.py:86-92 | a row chunk starts with `\TITLE: t\DESCRIPTION: ` and ends with a literal `\nURL: u` |
| Splitter.RowChunksSpec | splitter.py:90-98 | row framing succeeds exactly when every split has the keys, one chunk per split, in order |
| Splitter.DFChunks | splitter.py:81-98 | `DFChunks` frames every split of the table |
| Splitter.UntypedAddsNothing | splitter.py:115-123 | a source with no type contributes no chunk |
| Splitter.Numbered | splitter.py:126-127 | each chunk gets its position as id and nothing else changes |
| Splitter.NumberedIds | vectorstore/splitter.py:121-123 | ids are exactly 0..n-1, so distinct, and deduplicating by id changes nothing |
| Splitter.SourceChunks | splitter.py:115-123 | each type selects its loader |
| Splitter.CreateChunks | splitter.py:103-130 | the per-source chunks are concatenated in input order and numbered; the first failing source's error is returned |
| Splitter.AllChunksFails | vectorstore/splitter.py:111-119 | an exception in one source's loader aborts `create_chunks` with that error |
| Splitter.TitleFileName | splitter.py:149-151 | a title file name has no space and no slash and ends with `str(i) + ".txt"` |
| Splitter.TitleFileNamePlain | splitter.py:149-151 | a title with no space and no slash is kept as it is, followed by `str(i)` and `.txt` |
| Splitter.TitleFileNameCollision | splitter.py:150 | distinct titles can share a file name: `("a1", 0)` and `("a", 10)` both give `a10.txt` |
| Splitter.TitleNames | splitter.py:148-154 | every document's file name is among the names written |
| Splitter.TitleFilesNames | splitter.py:148-154 | writing adds exactly the title files to the directory |
| Splitter.WriteTitles | splitter.py:144-154 | every document with a title writes its title to its file, in order; a missing title stops with a failure |
| Splitter.CreateTitleFile | splitter.py:137-159 | writes the title files, then returns one data source per entry of the directory's listing, typed by extension: every file of the directory, so every title file just written, is a returned source; a missing title raises KeyError |
| DataManager.TypeValue | data_manager.py:134 | an enum value written to a row reads back as the same type |
| DataManager.Eq | data_manager.py:25-38 | two Data are equal exactly when all five fields are; a non-Data value is never equal |
| DataManager.Ne | data_manager.py:40-41 | `!=` is the exact negation of `==` |
| DataManager.ListEqIff | data_manager.py:74 | list equality of Data is structural equality |
| DataManager.GetDataType | data_manager.py:174-192 | the suffixes `.txt`, `.pdf`, `.csv` are tested before the `http` prefix; anything else has no type |
| DataManager.SuffixBeforeScheme | data_manager.py:184-191 | `http://x.pdf` is a PDF, `http://x` a web source, `x.doc` has no type |
| DataManager.CheckItem | data_manager.py:97-117 | a source passes exactly when its local file exists, its web address answers 200, starts with `http` and has a selector, and a CSV has a column; a failing request raises |
| DataManager.CheckAllSpec | data_manager.py:89-120 | the list is valid exactly when every source passes, so the empty list is valid |
| DataManager.CheckData | data_manager.py:89-120 | `check_data` stops at the first failing source |
| DataManager.ToRow | data_manager.py:134 | a row has five fields: path, type value, chunk size, chunk overlap, extra; an untyped source raises AttributeError |
| DataManager.FromRow | data_manager.py:159-160 | a row without five fields raises ValueError; a parsed row keeps path and extra |
| DataManager.RowRoundTrip | data_manager.py:134-160 | reading back a written row gives the same Data |
| DataManager.RowsRoundTrip | data_manager.py:133-160 | loading after creating gives back the same list |
| DataManager.WrittenRowsStop | data_manager.py:133-134 | writing stops at the first untyped source |
| DataManager.Loaded | data_manager.py:142-163 | a missing data file loads as `[]`; a loaded file gives one Data per row |
| DataManager.DataTester.constructor | data_manager.py:55-57 | the tester holds its data directory and data file |
| DataManager.DataTester.CreateDataFile | data_manager.py:122-140 | the file holds the rows of the sources written before an untyped one, which raises AttributeError |
| DataManager.DataTester.LoadDataFile | data_manager.py:142-167 | loads the data file |
| DataManager.DataTester.Test | data_manager.py:60-86 | invalid data gives ERROR and leaves the file alone; GET exactly when the data is valid, the store exists and the file holds the same list; otherwise CREATE when every source is typed, and the file then loads back as the list; an error of loading the old file, or the AttributeError of an untyped source while writing, is returned |
| DataManager.DataList.constructor | data_manager.py:170-171 | a new list is empty |
| DataManager.DataList.Add | data_manager.py:194-203 | appends exactly one Data typed by `get_data_type` |
| DataManager.DataList.AddDir | data_manager.py:205-213 | adds `path + file` for each listing entry, in listing order |
| RetrieverDataManager.DataList.constructor | retriever/data_manager.py:42-45 | a new list is empty under its main directory |
| RetrieverDataManager.DataList.Add | retriever/data_manager.py:67-76 | appends exactly one Data typed by `get_data_type` |
| RetrieverDataManager.DataList.AddDir | retriever/data_manager.py:78-86 | adds `path + file` for each entry of `main_dir + path`, in listing order |
| RetrieverDataManager.DataList.Test | retriever/data_manager.py:88-121 | an empty list fails; otherwise true exactly when every source passes the checks under the main directory |
| WordDocSplitter.GetDocs | word_doc_splitter.py:4-10 | `get_docs` walks the tree and collects `root + file` |
| WordDocSplitter.DocPathsSpec | word_doc_splitter.py:6-8 | a path is collected exactly when it is some root joined to one of its files |
| WordDocSplitter.RootJoinedWithoutSeparator | word_doc_splitter.py:8 | a sub-directory root and its file are joined with no separator (`./docs/subb.docx`) |
| WordDocSplitter.SectionsTexts | word_doc_splitter.py:32-44 | the written sections, concatenated, are exactly the texts of every paragraph but the first |
| WordDocSplitter.SectionsSpec | word_doc_splitter.py:22-44 | the sections hold the paragraphs after the first, in order; none is empty; indices strictly increase; each section starts with a header exactly when its index is at least 1, holds no later header, and its index is the number of headers up to its start |
| WordDocSplitter.ScanSections | word_doc_splitter.py:32-41 | the loop keeps its invariant: every written section and the current gathering are sections split at the headers seen so far |
| WordDocSplitter.SplitAtHeaderExample | word_doc_splitter.py:32-44 | the text before the first header is section 0, and a header opens section 1 with its own text |
| WordDocSplitter.FirstParagraphIgnored | word_doc_splitter.py:32 | the first paragraph never reaches a file |
| WordDocSplitter.BaseName | word_doc_splitter.py:23-24 | the name is the third `/` field cut at the first `.`; fewer than three fields raise IndexError |
| WordDocSplitter.BaseNameOfWalkedDoc | word_doc_splitter.py:23-24 | `./d/m.x` is named `m`; a bare `m.x` raises IndexError |
| WordDocSplitter.WriteParagraphs | word_doc_splitter.py:20-29 | nothing is written for no paragraphs; otherwise `{name}_{index}.txt` under the output directory gets the paragraphs joined with newlines |
| WordDocSplitter.WriteGathering | word_doc_splitter.py:35 | flushing the gathered paragraphs writes the next section or fails without writing |
| WordDocSplitter.SplitDocumentByHeader | word_doc_splitter.py:12-44 | every section is written to its file, in order; with no name in the path the first write raises IndexError and nothing is written |
| Tts.PlayingOrderSpec | chatbot/tts.py:44 | the playing order has ascending ids, holds the same fragments, and keeps the arrival order of fragments with one id |
| Tts.LaterIdPlaysLast | chatbot/tts.py:44-45 | fragments that arrive out of id order play in id order |
| Tts.AudioBuffer.constructor | chatbot/tts.py:26-28 | a new buffer has no text and no fragment |
| Tts.AudioBuffer.IsComplete | chatbot/tts.py:48-51 | a complete buffer has texts and fragments |
| Tts.AudioBuffer.AddText | chatbot/tts.py:31-34 | appends one `(text, id)` and leaves the fragments; a complete buffer stops being complete |
| Tts.AudioBuffer.AddFragment | chatbot/tts.py:36-39 | appends one fragment and leaves the texts |
| Tts.AudioBuffer.GetAudio | chatbot/tts.py:41-46 | the fragments' samples concatenated in playing order; no fragment raises ValueError (`np.concatenate([])`) |
| Tts.AudioBuffer.Clear | chatbot/tts.py:53-57 | both lists are emptied |
| Tts.SlicesSpec | chatbot/tts.py:73-74 | the slices concatenate back to the tokens; each holds 1 to `max_tokens` tokens, all but the last exactly `max_tokens` |
| Tts.SplitTokens | chatbot/tts.py:72-76 | the slicing loop gives the slices; a step of 0 raises ValueError and a negative one gives no slice |
| Tts.SplitTextIntoChunks | chatbot/tts.py:67-76 | the text's tokens are sliced and each slice decoded |
| Tts.GenerateAudioFragment | chatbot/tts.py:78-93 | one fragment per chunk of at most 400 tokens, each with the text's id, appended in order; the texts are unchanged |
| Tts.SaveAudio | chatbot/tts.py:95-100 | the buffer is cleared after a successful read of the audio; with no fragment the read raises and nothing is cleared |
| Tts.SaveAudioFile | chatbot/tts.py:113-124 | status `ok` exactly when the buffer was complete, then the buffer is cleared; otherwise `processing` with the buffer unchanged; a complete buffer never errors |

## Left out

- The LLM, the prompts, LangChain's Runnable composition, the vector stores (Milvus, Chroma), the Cohere reranker, the embedding models and scikit-learn are left out. What they compute is an oracle parameter: classification, query rewriting, retrieval, similarity, fitting and synthesis.
- Session initialisation beyond the empty message list and history (config loading, the retriever, the LLM, the chain) and the RuntimeError of `update` on an uninitialised session are left out.
- Streamlit rendering, `st.rerun`, handler timing, console output and `os.system` are left out. The session models take the button state, the typed prompt and the response as inputs.
- File-system and network access are inputs:
  - file reads, `os.path.exists` and `os.listdir`;
  - `os.walk`, given as a list of walk steps;
  - `requests.head`, given as a status or an error;
  - python-docx paragraph styles, given as a paragraph list.
  Written files are a map in `Files.Directory`.
- Document loaders and text splitters (TextLoader, WebBaseLoader, PyPDFLoader, DataFrameLoader, RecursiveCharacterTextSplitter) are left out. Their splits are an input function. `WebChunks` and `PDFChunks` add no framing and are that function's output.
- Exceptions that loaders, CSV readers and the file system raise are left out. An exception from a loader is an error the split function returns.
- `Retriever.find_similar`, `initializer.py`, the entry points and `config.yaml` loading are outside the modelled core.
- `chatbot/chains.py` and `chatbot/utilities.py` do not agree at their boundaries:
  - `get_followup_ctx` is called with one argument;
  - `retriever.invoke` is called where `retrieve` is defined;
  - `docs_to_string` is never defined.
  Each side is modelled by its own text, and rendering is a parameter.
- `retriever.py:29` lacks `self`. `Retriever.RetrieveRelevantDocs` models the evident intent: the content store, the query and the threshold.
- Splitter.CreateChunks: the chunk size that `TextChunks` writes back into its `Data` argument is returned by `Splitter.TextChunks`. It is not carried into the caller's list, because Data are values here.
- Tts.GenerateAudioFragment: the synthesis runs in a background task under an asyncio lock. The model runs it sequentially, so interleavings of several texts are not modelled.
- Tts.SaveAudio: the WAV file write (`sf.write`) is left out, so the contract states the audio written and the cleared buffer only.
- The TTS FastAPI `POST /` endpoint and its error status are left out. It only adds the text and schedules `generate_audio_fragment`, both of which are modelled.
- DataManager.FromRow: `int()` is modelled for the decimal forms that `str(int)` writes (an optional `-` and digits). Whitespace, `+` and underscores are not modelled.
- Chains.Invoke: the handler `session.py` installs is `utilities.StdOutHandler` from the top-level `utilities.py`, which is not part of this model. Whether its `error` re-raises is therefore the parameter `reraises`. The `StdOutHandler.error` of `chatbot/utilities.py:125-130` re-raises, as `ChatbotChains.HistoryAwareChain.Invoke` assumes.
- History.ChatHistory.TrainVectorizer: whether TF-IDF accepts a corpus is an oracle (`canFit`); its vocabulary rules are not modelled.
- History.Similarity: the cosine of two vectors of equal length is an oracle; only the ValueError that `cosine_similarity` raises for vectors of different lengths is modelled.
- Numbers are unbounded integers and exact reals. NumPy arrays are sequences of reals.
