/** The post-processing of the library's splits into the chunks that are
    embedded: text chunks are labelled with the document's title (its first
    line) and framed with title and source, CSV rows are framed with their
    title, description and url, and every chunk of a run gets its position as
    `id`. Two iterations of the splitter share this logic; they differ only in
    the optional `type` label (`tag`): the ingestion splitter labels each text
    chunk with its data type and leaves the `titles` collection unframed, the
    vector-store splitter has no label. Loaders, the text splitter and file
    reads are oracles. */
module Splitter {
  import opened Wrappers
  import opened Documents
  import opened PyStr
  import opened DataManager
  import DocSet
  import opened Files

  const TitleKey := "title"
  const TypeKey := "type"
  const DescriptionKey := "description"
  const UrlKey := "url"

  /** The data type whose text chunks stay as they are. */
  const TitlesType := "titles"

  /** `file.readline()`: the text up to and including the first newline. */
  function ReadLine(text: string): (r: string)
    ensures r <= text
    ensures forall i :: 0 <= i < |r| - 1 ==> r[i] != '\n'
    ensures |r| < |text| ==> r != [] && r[|r| - 1] == '\n'
    ensures '\n' !in text ==> r == text
  {
    if text == [] then []
    else if text[0] == '\n' then ['\n']
    else [text[0]] + ReadLine(text[1..])
  }

  /** The document's title: its first line without surrounding whitespace. */
  function Title(text: string): string {
    Strip(ReadLine(text))
  }

  /** The source's `Data` after `TextChunks`: a chunk size of 0 becomes the
      length of the file. */
  function WithChunkSize(data: Data, text: string): (d: Data)
    ensures d.chunkSize == if data.chunkSize == 0 then |text| else data.chunkSize
    ensures d.(chunkSize := data.chunkSize) == data
  {
    if data.chunkSize == 0 then data.(chunkSize := |text|) else data
  }

  // ------------------------------------------------------------------ text chunks

  /** `\TITLE: {title}\SOURCE: {source}\BODY: ` (the backslashes are literal). */
  function TextHeader(title: string, source: string): string {
    "\\TITLE: " + title + "\\SOURCE: " + source + "\\BODY: "
  }

  /** A kept split: labelled with the title (and the type, if any), and framed
      unless it belongs to the `titles` collection. */
  function TextChunk(s: Document, title: string, source: string, tag: Option<string>): Document
  {
    var meta := if tag.Some? then s.meta[TitleKey := title][TypeKey := tag.value] else s.meta[TitleKey := title];
    var content := if tag != Some(TitlesType) then TextHeader(title, source) + s.content else s.content;
    s.(meta := meta, content := content)
  }

  /** A kept split carries the title (and the type, if any) in its metadata;
      its content is the split's own, behind the header unless it belongs to
      the `titles` collection; its id and score are unchanged. */
  lemma TextChunkSpec(s: Document, title: string, source: string, tag: Option<string>)
    ensures var r := TextChunk(s, title, source, tag);
            && TitleKey in r.meta && r.meta[TitleKey] == title
            && (tag.Some? ==> TypeKey in r.meta && r.meta[TypeKey] == tag.value)
            && (tag != Some(TitlesType) ==> StartsWith(r.content, TextHeader(title, source))
                                            && r.content[|TextHeader(title, source)|..] == s.content)
            && (tag == Some(TitlesType) ==> r.content == s.content)
            && r.id == s.id && r.score == s.score
  {
    var h := TextHeader(title, source);
    assert (h + s.content)[..|h|] == h;
    assert (h + s.content)[|h|..] == s.content;
  }

  /** A split that repeats the title is dropped when there are several splits,
      except in the `titles` collection. */
  predicate Skipped(s: Document, title: string, tag: Option<string>, count: int) {
    tag != Some(TitlesType) && s.content == title && count > 1
  }

  /** The kept splits, in order, out of `count` splits. */
  function FrameTexts(splits: seq<Document>, count: int, title: string, source: string, tag: Option<string>): seq<Document>
  {
    if splits == [] then []
    else
      var s := splits[|splits| - 1];
      FrameTexts(splits[..|splits| - 1], count, title, source, tag)
      + (if Skipped(s, title, tag, count) then [] else [TextChunk(s, title, source, tag)])
  }

  /** A text chunk as the frame promises it: labelled with the title and the
      type, and, outside the `titles` collection, framed around a body that is
      not the bare title when there were several splits. */
  predicate Labelled(d: Document, count: int, title: string, source: string, tag: Option<string>) {
    && TitleKey in d.meta && d.meta[TitleKey] == title
    && (tag.Some? ==> TypeKey in d.meta && d.meta[TypeKey] == tag.value)
    && (tag != Some(TitlesType) ==>
          StartsWith(d.content, TextHeader(title, source))
          && (count > 1 ==> d.content[|TextHeader(title, source)|..] != title))
  }

  /** At most one chunk per split, and every chunk labelled and framed. */
  lemma {:induction false} FrameTextsLabelled(splits: seq<Document>, count: int, title: string, source: string, tag: Option<string>)
    ensures var r := FrameTexts(splits, count, title, source, tag);
            && |r| <= |splits|
            && forall j :: 0 <= j < |r| ==> Labelled(r[j], count, title, source, tag)
    decreases |splits|
  {
    if splits != [] {
      var n := |splits| - 1;
      FrameTextsLabelled(splits[..n], count, title, source, tag);
      var p := FrameTexts(splits[..n], count, title, source, tag);
      var r := FrameTexts(splits, count, title, source, tag);
      assert r[..|p|] == p;
      forall j | 0 <= j < |r| ensures Labelled(r[j], count, title, source, tag) {
        if j < |p| {
          assert r[j] == p[j];
        } else {
          TextChunkSpec(splits[n], title, source, tag);
          assert r[j] == TextChunk(splits[n], title, source, tag);
        }
      }
    }
  }

  /** When no split repeats the title, every split gives its chunk, in order. */
  lemma {:induction false} FrameTextsAllKept(splits: seq<Document>, count: int, title: string, source: string, tag: Option<string>)
    requires forall i :: 0 <= i < |splits| ==> !Skipped(splits[i], title, tag, count)
    ensures var r := FrameTexts(splits, count, title, source, tag);
            |r| == |splits| && forall i :: 0 <= i < |splits| ==> r[i] == TextChunk(splits[i], title, source, tag)
    decreases |splits|
  {
    if splits != [] {
      var n := |splits| - 1;
      var init := splits[..n];
      forall i | 0 <= i < n ensures !Skipped(init[i], title, tag, count) {
        assert init[i] == splits[i];
      }
      FrameTextsAllKept(init, count, title, source, tag);
      var p := FrameTexts(init, count, title, source, tag);
      var r := FrameTexts(splits, count, title, source, tag);
      assert !Skipped(splits[n], title, tag, count);
      assert r == p + [TextChunk(splits[n], title, source, tag)];
      forall i | 0 <= i < |splits| ensures r[i] == TextChunk(splits[i], title, source, tag) {
        if i < n {
          assert r[i] == p[i] && init[i] == splits[i];
        }
      }
    }
  }

  /** What the text chunks are: at most one per split, each labelled and framed;
      nothing is dropped from a single split, from the `titles` collection, or
      when no split repeats the title. */
  lemma FrameTextsSpec(splits: seq<Document>, count: int, title: string, source: string, tag: Option<string>)
    ensures var r := FrameTexts(splits, count, title, source, tag);
            && |r| <= |splits|
            && (forall j :: 0 <= j < |r| ==> Labelled(r[j], count, title, source, tag))
            && ((forall i :: 0 <= i < |splits| ==> !Skipped(splits[i], title, tag, count)) ==>
                  |r| == |splits| && forall i :: 0 <= i < |splits| ==> r[i] == TextChunk(splits[i], title, source, tag))
  {
    FrameTextsLabelled(splits, count, title, source, tag);
    if forall i :: 0 <= i < |splits| ==> !Skipped(splits[i], title, tag, count) {
      FrameTextsAllKept(splits, count, title, source, tag);
    }
  }

  /** The `titles` collection keeps every split, unframed. */
  lemma TitlesKeepEverything(splits: seq<Document>, count: int, title: string, source: string)
    ensures var r := FrameTexts(splits, count, title, source, Some(TitlesType));
            |r| == |splits| && forall i :: 0 <= i < |r| ==> r[i].content == splits[i].content
  {
    FrameTextsAllKept(splits, count, title, source, Some(TitlesType));
    forall i | 0 <= i < |splits| {
      TextChunkSpec(splits[i], title, source, Some(TitlesType));
    }
  }

  /** A lone split is kept even when it is exactly the title. */
  lemma SingleSplitKept(s: Document, title: string, source: string, tag: Option<string>)
    ensures FrameTexts([s], 1, title, source, tag) == [TextChunk(s, title, source, tag)]
  {
    assert [s][..0] == [];
  }

  /** Two splits, the first of them the title line: the first is dropped. */
  lemma TitleSplitDropped(title: string, body: Document, source: string)
    requires body.content != title
    ensures var s := Document(title, None, None, map[]);
            FrameTexts([s, body], 2, title, source, None) == [TextChunk(body, title, source, None)]
  {
    var s := Document(title, None, None, map[]);
    assert [s, body][..1] == [s];
    assert [s][..0] == [];
    assert FrameTexts([s], 2, title, source, None) == [];
  }

  /** The body of the `TextChunks` loop for one split: label it, then skip it
      or frame it. */
  method FrameSplit(s: Document, title: string, source: string, tag: Option<string>, count: int)
    returns (kept: bool, chunk: Document)
    ensures kept <==> !Skipped(s, title, tag, count)
    ensures kept ==> chunk == TextChunk(s, title, source, tag)
  {
    var meta := s.meta[TitleKey := title];
    var content := s.content;
    if tag.Some? {
      meta := meta[TypeKey := tag.value];
    }
    if tag != Some(TitlesType) {
      if title == content && count > 1 {
        return false, s;
      }
      content := TextHeader(title, source) + content;
    }
    return true, s.(meta := meta, content := content);
  }

  /** `TextChunks`: reads the title from the file for every split, labels the
      split, drops a repeated title and frames the rest. Returns the source with
      its chunk size updated. */
  method TextChunks(data: Data, dataDir: string, tag: Option<string>,
                    fileText: string -> string, split: Data -> seq<Document>)
    returns (chunks: seq<Document>, updated: Data)
    ensures updated == WithChunkSize(data, fileText(dataDir + data.path))
    ensures chunks == FrameTexts(split(updated), |split(updated)|, Title(fileText(dataDir + data.path)), data.path, tag)
  {
    var path := dataDir + data.path;
    updated := data;
    if updated.chunkSize == 0 {
      updated := updated.(chunkSize := |fileText(path)|);
    }
    var splits := split(updated);
    chunks := FrameSplits(splits, fileText(path), data.path, tag);
  }

  /** One more split: its chunk, unless it is skipped, follows those of the
      splits before it. */
  lemma FrameTextsStep(splits: seq<Document>, i: nat, count: int, title: string, source: string, tag: Option<string>)
    requires i < |splits|
    ensures FrameTexts(splits[..i + 1], count, title, source, tag)
            == FrameTexts(splits[..i], count, title, source, tag)
               + (if Skipped(splits[i], title, tag, count) then [] else [TextChunk(splits[i], title, source, tag)])
  {
    assert splits[..i + 1][..i] == splits[..i];
  }

  /** The loop of `TextChunks` over the splits; `text` is the file the title
      is read from, once per split. */
  method FrameSplits(splits: seq<Document>, text: string, source: string, tag: Option<string>)
    returns (chunks: seq<Document>)
    ensures chunks == FrameTexts(splits, |splits|, Title(text), source, tag)
  {
    chunks := [];
    for i := 0 to |splits|
      invariant chunks == FrameTexts(splits[..i], |splits|, Title(text), source, tag)
    {
      var title := Strip(ReadLine(text));
      var kept, chunk := FrameSplit(splits[i], title, source, tag, |splits|);
      FrameTextsStep(splits, i, |splits|, title, source, tag);
      if kept {
        chunks := chunks + [chunk];
      } else {
        assert chunks + [] == chunks;
      }
    }
    assert splits[..|splits|] == splits;
  }

  // ------------------------------------------------------------------ CSV chunks

  /** `\TITLE: {title}\DESCRIPTION: {description}\BODY: {content}\nURL: {url}`,
      where `\n` is a backslash and an `n`. */
  function RowFrame(title: string, description: string, content: string, url: string): string {
    "\\TITLE: " + title + "\\DESCRIPTION: " + description + "\\BODY: " + content + "\\nURL: " + url
  }

  predicate HasRowKeys(s: Document) {
    TitleKey in s.meta && DescriptionKey in s.meta && UrlKey in s.meta
  }

  /** One framed CSV split; a missing metadata key raises KeyError. */
  function RowChunk(s: Document): (r: Result<Document>)
    ensures r.Success? <==> HasRowKeys(s)
    ensures r.Failure? ==> r.error == KeyError
    ensures r.Success? ==> r.value.meta == s.meta && r.value.id == s.id
  {
    if TitleKey !in s.meta || DescriptionKey !in s.meta || UrlKey !in s.meta then Failure(KeyError)
    else Success(s.(content := RowFrame(s.meta[TitleKey], s.meta[DescriptionKey], s.content, s.meta[UrlKey])))
  }

  /** A framed CSV split starts with its title and description labels and
      ends with its url. */
  lemma RowChunkFramed(s: Document)
    requires HasRowKeys(s)
    ensures StartsWith(RowChunk(s).value.content, "\\TITLE: " + s.meta[TitleKey] + "\\DESCRIPTION: ")
    ensures EndsWith(RowChunk(s).value.content, "\\nURL: " + s.meta[UrlKey])
  {
    var head := "\\TITLE: " + s.meta[TitleKey] + "\\DESCRIPTION: ";
    var body := s.meta[DescriptionKey] + "\\BODY: " + s.content;
    var tail := "\\nURL: " + s.meta[UrlKey];
    var content := RowFrame(s.meta[TitleKey], s.meta[DescriptionKey], s.content, s.meta[UrlKey]);
    assert content == head + body + tail;
    assert (head + body + tail)[..|head|] == head;
    assert (head + body + tail)[|head + body|..] == tail;
  }

  /** The framed CSV splits; the first split without the keys raises. */
  function RowChunks(splits: seq<Document>): (r: Result<seq<Document>>)
    ensures r.Success? ==> |r.value| == |splits|
  {
    if splits == [] then Success([])
    else
      match RowChunks(splits[..|splits| - 1])
      case Failure(e) => Failure(e)
      case Success(p) =>
        match RowChunk(splits[|splits| - 1])
        case Failure(e) => Failure(e)
        case Success(d) => Success(p + [d])
  }

  /** CSV chunks succeed exactly when every split has a title, a description and
      a url, and then each is its own split framed. */
  lemma {:induction false} RowChunksSpec(splits: seq<Document>)
    ensures RowChunks(splits).Success? <==> forall i :: 0 <= i < |splits| ==> HasRowKeys(splits[i])
    ensures RowChunks(splits).Failure? ==> RowChunks(splits).error == KeyError
    ensures RowChunks(splits).Success? ==> forall i :: 0 <= i < |splits| ==> RowChunks(splits).value[i] == RowChunk(splits[i]).value
    decreases |splits|
  {
    if splits != [] {
      var n := |splits| - 1;
      RowChunksSpec(splits[..n]);
      assert forall i :: 0 <= i < n ==> splits[..n][i] == splits[i];
      if RowChunks(splits).Success? {
        assert RowChunks(splits).value[..n] == RowChunks(splits[..n]).value;
      }
    }
  }

  /** `DFChunks`: every split is framed in place, in order. */
  method DFChunks(data: Data, split: Data -> seq<Document>) returns (r: Result<seq<Document>>)
    ensures r == RowChunks(split(data))
  {
    var orig := split(data);
    var splits := orig;
    RowChunksSpec(orig);
    for i := 0 to |splits|
      invariant |splits| == |orig|
      invariant forall j :: 0 <= j < i ==> HasRowKeys(orig[j]) && splits[j] == RowChunk(orig[j]).value
      invariant forall j :: i <= j < |splits| ==> splits[j] == orig[j]
    {
      var s := splits[i];
      if TitleKey !in s.meta || DescriptionKey !in s.meta || UrlKey !in s.meta {
        assert !HasRowKeys(orig[i]);
        return Failure(KeyError);
      }
      splits := splits[i := s.(content := RowFrame(s.meta[TitleKey], s.meta[DescriptionKey], s.content, s.meta[UrlKey]))];
    }
    assert RowChunks(orig).Success?;
    assert splits == RowChunks(orig).value;
    r := Success(splits);
  }

  // ------------------------------------------------------------------ all chunks

  /** The chunks of a text source: its splits, cut at the chunk size it gets
      from the file when it has none, framed under the file's first line. */
  function FramedText(d: Data, dataDir: string, tag: Option<string>, fileText: string -> string, split: Data -> seq<Document>): seq<Document>
  {
    var updated := WithChunkSize(d, fileText(dataDir + d.path));
    FrameTexts(split(updated), |split(updated)|, Title(fileText(dataDir + d.path)), d.path, tag)
  }

  /** The chunks of one source by its type; a source without a type gives none. */
  function ChunksOf(d: Data, dataDir: string, tag: Option<string>, fileText: string -> string, split: Data -> seq<Document>): Result<seq<Document>>
  {
    match d.dataType
    case Some(TEXT) => Success(FramedText(d, dataDir, tag, fileText, split))
    case Some(WEB) => Success(split(d))
    case Some(PDF) => Success(split(d))
    case Some(CSV) => RowChunks(split(d))
    case None => Success([])
  }

  /** The chunks of all sources, concatenated in the order of the sources. */
  function AllChunks(data: seq<Data>, dataDir: string, tag: Option<string>, fileText: string -> string, split: Data -> seq<Document>): Result<seq<Document>>
  {
    if data == [] then Success([])
    else
      match AllChunks(data[..|data| - 1], dataDir, tag, fileText, split)
      case Failure(e) => Failure(e)
      case Success(p) =>
        match ChunksOf(data[|data| - 1], dataDir, tag, fileText, split)
        case Failure(e) => Failure(e)
        case Success(c) => Success(p + c)
  }

  /** A source of no known type adds nothing. */
  lemma UntypedAddsNothing(data: seq<Data>, d: Data, dataDir: string, tag: Option<string>, fileText: string -> string, split: Data -> seq<Document>)
    requires d.dataType.None?
    ensures AllChunks(data + [d], dataDir, tag, fileText, split) == AllChunks(data, dataDir, tag, fileText, split)
  {
    assert (data + [d])[..|data|] == data;
    var r := AllChunks(data, dataDir, tag, fileText, split);
    if r.Success? {
      assert r.value + [] == r.value;
    }
  }

  /** The chunks numbered by position. */
  function Numbered(chunks: seq<Document>): (r: seq<Document>)
    ensures |r| == |chunks|
    ensures forall i :: 0 <= i < |r| ==> r[i] == chunks[i].(id := Some(i))
  {
    seq(|chunks|, i requires 0 <= i < |chunks| => chunks[i].(id := Some(i)))
  }

  /** Numbered chunks carry the ids 0..n-1, so their ids are distinct and
      deduplicating them by id changes nothing. */
  lemma NumberedIds(chunks: seq<Document>)
    ensures var r := Numbered(chunks);
            && DocSet.AllHaveIds(r)
            && (forall i :: 0 <= i < |r| ==> DocSet.Keys(r)[i] == i)
            && DocSet.NoDuplicates(DocSet.Keys(r))
            && DocSet.Dedup(r) == r
  {
    var r := Numbered(chunks);
    assert forall i :: 0 <= i < |r| ==> DocSet.Keys(r)[i] == i;
    DocSet.DedupOfDistinct(r);
  }

  /** The chunks of one source, by the loader its type selects. */
  method SourceChunks(d: Data, dataDir: string, tag: Option<string>,
                      fileText: string -> string, split: Data -> seq<Document>)
    returns (c: Result<seq<Document>>)
    ensures c == ChunksOf(d, dataDir, tag, fileText, split)
  {
    match d.dataType
    case Some(TEXT) =>
      var texts, _ := TextChunks(d, dataDir, tag, fileText, split);
      c := Success(texts);
    case Some(WEB) =>
      c := Success(split(d));
    case Some(PDF) =>
      c := Success(split(d));
    case Some(CSV) =>
      c := DFChunks(d, split);
    case None =>
      c := Success([]);
  }

  /** The id loop: every chunk gets its position. */
  method AssignIds(chunks: seq<Document>) returns (r: seq<Document>)
    ensures r == Numbered(chunks)
  {
    r := chunks;
    for i := 0 to |r|
      invariant |r| == |chunks|
      invariant forall j :: 0 <= j < |r| ==> r[j] == if j < i then chunks[j].(id := Some(j)) else chunks[j]
    {
      r := r[i := r[i].(id := Some(i))];
    }
  }

  /** `create_chunks`: the chunks of every source, in order, then ids by position. */
  method CreateChunks(data: seq<Data>, dataDir: string, tag: Option<string>,
                      fileText: string -> string, split: Data -> seq<Document>)
    returns (r: Result<seq<Document>>)
    ensures var all := AllChunks(data, dataDir, tag, fileText, split);
            && (all.Failure? ==> r == Failure(all.error))
            && (all.Success? ==> r == Success(Numbered(all.value)))
  {
    var chunks: seq<Document> := [];
    for k := 0 to |data|
      invariant AllChunks(data[..k], dataDir, tag, fileText, split) == Success(chunks)
    {
      assert data[..k + 1][..k] == data[..k];
      var c := SourceChunks(data[k], dataDir, tag, fileText, split);
      if c.Failure? {
        AllChunksFails(data, k, dataDir, tag, fileText, split);
        return Failure(c.error);
      }
      chunks := chunks + c.value;
    }
    assert data[..|data|] == data;
    chunks := AssignIds(chunks);
    r := Success(chunks);
  }

  /** A run that failed stays failed when one more source follows. */
  lemma AllChunksStaysFailed(data: seq<Data>, m: nat, e: Error, dataDir: string, tag: Option<string>, fileText: string -> string, split: Data -> seq<Document>)
    requires m < |data|
    requires AllChunks(data[..m], dataDir, tag, fileText, split) == Failure(e)
    ensures AllChunks(data[..m + 1], dataDir, tag, fileText, split) == Failure(e)
  {
    assert data[..m + 1][..m] == data[..m];
  }

  /** A failing source makes the whole run fail, whatever follows it. */
  lemma AllChunksFails(data: seq<Data>, k: nat, dataDir: string, tag: Option<string>, fileText: string -> string, split: Data -> seq<Document>)
    requires k < |data|
    requires AllChunks(data[..k], dataDir, tag, fileText, split).Success?
    requires ChunksOf(data[k], dataDir, tag, fileText, split).Failure?
    ensures AllChunks(data, dataDir, tag, fileText, split) == Failure(ChunksOf(data[k], dataDir, tag, fileText, split).error)
  {
    var e := ChunksOf(data[k], dataDir, tag, fileText, split).error;
    assert data[..k + 1][..k] == data[..k];
    assert AllChunks(data[..k + 1], dataDir, tag, fileText, split) == Failure(e);
    var m := k + 1;
    while m < |data|
      invariant k + 1 <= m <= |data|
      invariant AllChunks(data[..m], dataDir, tag, fileText, split) == Failure(e)
      decreases |data| - m
    {
      AllChunksStaysFailed(data, m, e, dataDir, tag, fileText, split);
      m := m + 1;
    }
    assert data[..|data|] == data;
  }

  // ------------------------------------------------------------------ titles

  /** `str(i) + ".txt"` holds no space and no slash. */
  lemma NumberSuffixPlain(i: int)
    ensures var suffix := IntToString(i) + ".txt";
            forall j :: 0 <= j < |suffix| ==> suffix[j] != ' ' && suffix[j] != '/'
  {
    var suffix := IntToString(i) + ".txt";
    forall j | 0 <= j < |suffix| ensures suffix[j] != ' ' && suffix[j] != '/' {
      if j < |IntToString(i)| {
        assert suffix[j] == IntToString(i)[j];
        if i >= 0 {
          assert IsDigit(NatToString(i)[j]);
        } else if j > 0 {
          assert IntToString(i)[j] == NatToString(-i)[j - 1];
        }
      }
    }
  }

  /** Replacing a character the suffix does not hold leaves the suffix alone. */
  lemma ReplaceKeepsSuffix(prefix: string, suffix: string, a: char, b: char)
    requires forall j :: 0 <= j < |suffix| ==> suffix[j] != a
    ensures EndsWith(ReplaceChar(prefix + suffix, a, b), suffix)
  {
    var r := ReplaceChar(prefix + suffix, a, b);
    forall j | 0 <= j < |suffix| ensures r[|prefix| + j] == suffix[j] {
      assert (prefix + suffix)[|prefix| + j] == suffix[j];
    }
    assert r[|r| - |suffix|..] == suffix;
  }

  /** Replacing `a` by `b` brings in no character other than `b`. */
  lemma ReplaceKeepsAbsent(s: string, a: char, b: char, c: char)
    requires c !in s && c != b
    ensures c !in ReplaceChar(s, a, b)
  {
    var r := ReplaceChar(s, a, b);
    forall j | 0 <= j < |r| ensures r[j] != c {
      if s[j] != a {
        assert s[j] in s;
      }
    }
  }

  /** The file a title is written to: spaces to `_`, then the index and `.txt`,
      then slashes to `_`. */
  function TitleFileName(title: string, i: int): (r: string)
    ensures ' ' !in r && '/' !in r
    ensures EndsWith(r, IntToString(i) + ".txt")
    ensures |r| == |title| + |IntToString(i)| + 4
  {
    var suffix := IntToString(i) + ".txt";
    var spaced := ReplaceChar(title, ' ', '_');
    NumberSuffixPlain(i);
    assert ' ' !in spaced + suffix by {
      forall j | 0 <= j < |spaced + suffix| ensures (spaced + suffix)[j] != ' ' {
        if j >= |spaced| {
          assert (spaced + suffix)[j] == suffix[j - |spaced|];
        }
      }
    }
    ReplaceKeepsAbsent(spaced + suffix, '/', '_', ' ');
    ReplaceKeepsSuffix(spaced, suffix, '/', '_');
    ReplaceChar(spaced + suffix, '/', '_')
  }

  /** A title with no space or `/` is used as it is, followed by the index. */
  lemma TitleFileNamePlain(title: string, i: int)
    requires ' ' !in title && '/' !in title
    ensures TitleFileName(title, i) == title + IntToString(i) + ".txt"
  {
    var suffix := IntToString(i) + ".txt";
    NumberSuffixPlain(i);
    assert ReplaceChar(title, ' ', '_') == title;
    var t := title + suffix;
    forall j | 0 <= j < |t| ensures t[j] != '/' {
      if j >= |title| {
        assert t[j] == suffix[j - |title|];
      }
    }
    assert ReplaceChar(t, '/', '_') == t;
    assert title + IntToString(i) + ".txt" == t;
  }

  /** The index does not keep file names apart: the title `a1` at position 0
      and the title `a` at position 10 are written to the same file. */
  lemma TitleFileNameCollision()
    ensures TitleFileName("a1", 0) == TitleFileName("a", 10) == "a10.txt"
  {
    TitleFileNamePlain("a1", 0);
    TitleFileNamePlain("a", 10);
    TenAndZero();
    assert "a1" + "0" + ".txt" == "a10.txt";
    assert "a" + "10" + ".txt" == "a10.txt";
  }

  lemma TenAndZero()
    ensures IntToString(10) == "10" && IntToString(0) == "0"
  {
    assert NatToString(1) == "1";
  }

  predicate AllTitled(docs: seq<Document>) {
    forall i :: 0 <= i < |docs| ==> TitleKey in docs[i].meta
  }

  /** The files after writing the titles of `docs`, the first at index `i`; the
      writing stops at the first document without a title. */
  function TitleFiles(docs: seq<Document>, i: int, files: map<string, string>): map<string, string>
    decreases |docs|
  {
    if docs == [] || TitleKey !in docs[0].meta then files
    else
      var title := docs[0].meta[TitleKey];
      TitleFiles(docs[1..], i + 1, files[TitleFileName(title, i) := title])
  }

  /** The names of the files written for `docs`, the first at index `i`. */
  function TitleNames(docs: seq<Document>, i: int): (r: set<string>)
    requires AllTitled(docs)
    ensures forall j :: 0 <= j < |docs| ==> TitleFileName(docs[j].meta[TitleKey], i + j) in r
    decreases |docs|
  {
    if docs == [] then {}
    else
      assert forall j :: 1 <= j < |docs| ==> docs[1..][j - 1] == docs[j];
      {TitleFileName(docs[0].meta[TitleKey], i)} + TitleNames(docs[1..], i + 1)
  }

  /** Every titled document has its file, and no other file appears. */
  lemma {:induction false} TitleFilesNames(docs: seq<Document>, i: int, files: map<string, string>)
    requires AllTitled(docs)
    ensures TitleFiles(docs, i, files).Keys == files.Keys + TitleNames(docs, i)
    decreases |docs|
  {
    if docs != [] {
      var title := docs[0].meta[TitleKey];
      TitleFilesNames(docs[1..], i + 1, files[TitleFileName(title, i) := title]);
    }
  }

  /** The writing loop of `create_title_file`; false when a document has no
      title, after the files of the documents before it were written. */
  method WriteTitles(documents: seq<Document>, dir: Directory) returns (ok: bool)
    modifies dir
    ensures dir.files == TitleFiles(documents, 0, old(dir.files))
    ensures ok <==> AllTitled(documents)
  {
    var i := 0;
    for k := 0 to |documents|
      invariant i == k
      invariant AllTitled(documents[..k])
      invariant TitleFiles(documents, 0, old(dir.files)) == TitleFiles(documents[k..], k, dir.files)
    {
      assert documents[k..][1..] == documents[k + 1..];
      var d := documents[k];
      if TitleKey !in d.meta {
        return false;
      }
      var title := d.meta[TitleKey];
      var filename := ReplaceChar(title, ' ', '_') + IntToString(i) + ".txt";
      filename := ReplaceChar(filename, '/', '_');
      assert filename == TitleFileName(title, i) by {
        assert ReplaceChar(title, ' ', '_') + IntToString(i) + ".txt" == ReplaceChar(title, ' ', '_') + (IntToString(i) + ".txt");
      }
      dir.files := dir.files[filename := title];
      i := i + 1;
      assert documents[..k + 1] == documents[..k] + [d];
    }
    assert documents[..|documents|] == documents;
    ok := true;
  }

  /** `listing` names exactly the files of a directory, as `os.listdir` does. */
  ghost predicate ListsFiles(listing: seq<string>, files: map<string, string>) {
    forall name :: name in listing <==> name in files
  }

  /** `create_title_file`: one file per document, named from its title and
      position and holding the title, then the sources of everything listed in
      the titles directory `dir`; `listDir` is `os.listdir`, which lists the
      directory's files in an order of its own. */
  method CreateTitleFile(documents: seq<Document>, dir: Directory,
                         listDir: map<string, string> -> seq<string>)
    returns (r: Result<seq<Data>>)
    requires forall files :: ListsFiles(listDir(files), files)
    modifies dir
    ensures dir.files == TitleFiles(documents, 0, old(dir.files))
    ensures r.Failure? <==> !AllTitled(documents)
    ensures r.Failure? ==> r.error == KeyError
    ensures r.Success? ==>
              var listing := listDir(dir.files);
              && |r.value| == |listing|
              && forall j :: 0 <= j < |listing| ==> r.value[j] == Data(listing[j], GetDataType(listing[j]), 0, 0, NoExtra)
    ensures r.Success? ==>
              && (forall j :: 0 <= j < |r.value| ==> r.value[j].path in dir.files)
              && forall name :: name in dir.files ==> exists j :: 0 <= j < |r.value| && r.value[j].path == name
    ensures r.Success? ==>
              forall j :: 0 <= j < |documents| ==>
                exists k :: 0 <= k < |r.value| && r.value[k].path == TitleFileName(documents[j].meta[TitleKey], j)
  {
    var ok := WriteTitles(documents, dir);
    if !ok {
      return Failure(KeyError);
    }
    var listing := listDir(dir.files);
    var dataList := new DataList();
    dataList.AddDir("", "", _ => listing);
    var sources := dataList.data;
    assert forall j :: 0 <= j < |listing| ==> sources[j] == Data(listing[j], GetDataType(listing[j]), 0, 0, NoExtra) by {
      assert forall j :: 0 <= j < |listing| ==> "" + listing[j] == listing[j];
    }
    ListedSources(sources, listing, documents, old(dir.files), dir.files);
    r := Success(sources);
  }

  /** The sources of a listing are the directory's files, each one, and so
      every title file written is one of them. */
  lemma ListedSources(sources: seq<Data>, listing: seq<string>, documents: seq<Document>,
                      before: map<string, string>, files: map<string, string>)
    requires ListsFiles(listing, files)
    requires AllTitled(documents) && files == TitleFiles(documents, 0, before)
    requires |sources| == |listing| && forall j :: 0 <= j < |listing| ==> sources[j].path == listing[j]
    ensures forall j :: 0 <= j < |sources| ==> sources[j].path in files
    ensures forall name :: name in files ==> exists j :: 0 <= j < |sources| && sources[j].path == name
    ensures forall j :: 0 <= j < |documents| ==>
              exists k :: 0 <= k < |sources| && sources[k].path == TitleFileName(documents[j].meta[TitleKey], j)
  {
    forall name | name in files
      ensures exists j :: 0 <= j < |sources| && sources[j].path == name
    {
      ListedFile(sources, listing, files, name);
    }
    forall j | 0 <= j < |documents|
      ensures exists k :: 0 <= k < |sources| && sources[k].path == TitleFileName(documents[j].meta[TitleKey], j)
    {
      var name := TitleFileName(documents[j].meta[TitleKey], j);
      assert name in files by {
        TitleFilesNames(documents, 0, before);
      }
      ListedFile(sources, listing, files, name);
    }
  }

  /** A file of the directory has its source. */
  lemma ListedFile(sources: seq<Data>, listing: seq<string>, files: map<string, string>, name: string)
    requires ListsFiles(listing, files) && name in files
    requires |sources| == |listing| && forall j :: 0 <= j < |listing| ==> sources[j].path == listing[j]
    ensures exists j :: 0 <= j < |sources| && sources[j].path == name
  {
    var j :| 0 <= j < |listing| && listing[j] == name;
    assert sources[j].path == name;
  }
}
