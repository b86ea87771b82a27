/** Splitting a Word document into text files at its header paragraphs: the
    paragraphs after the first are gathered into sections, a new section
    starting at every paragraph of the header style, and every non-empty section
    is written to `{output_dir}/{name}_{index}.txt`, its paragraphs joined by
    newlines. The document's paragraphs and the directory walk are inputs. */
module WordDocSplitter {
  import opened Wrappers
  import opened PyStr
  import opened Files

  /** A paragraph of the document: its style name and its text. */
  datatype Paragraph = Paragraph(style: string, text: string)

  /** A section handed to `write_paragraphs_to_file`: its index and paragraphs. */
  datatype Section = Section(index: nat, paragraphs: seq<string>)

  // ------------------------------------------------------------------ get_docs

  /** One step of `os.walk`: a directory and the names of its files. */
  datatype WalkStep = WalkStep(root: string, files: seq<string>)

  /** `root + f` for every file of every visited directory, in walk order. */
  function DocPaths(walk: seq<WalkStep>): (r: seq<string>)
  {
    if walk == [] then []
    else
      var w := walk[|walk| - 1];
      DocPaths(walk[..|walk| - 1]) + seq(|w.files|, j requires 0 <= j < |w.files| => w.root + w.files[j])
  }

  /** `get_docs`. */
  method GetDocs(walk: seq<WalkStep>) returns (docs: seq<string>)
    ensures docs == DocPaths(walk)
  {
    docs := [];
    for k := 0 to |walk|
      invariant docs == DocPaths(walk[..k])
    {
      assert walk[..k + 1][..k] == walk[..k];
      var w := walk[k];
      ghost var before := docs;
      for j := 0 to |w.files|
        invariant docs == before + seq(j, m requires 0 <= m < j => w.root + w.files[m])
      {
        docs := docs + [w.root + w.files[j]];
      }
    }
    assert walk[..|walk|] == walk;
  }

  /** Every file the walk reports is listed, under its directory's name followed
      directly by the file name, and nothing else is. */
  lemma {:induction false} DocPathsSpec(walk: seq<WalkStep>)
    ensures forall k, j :: 0 <= k < |walk| && 0 <= j < |walk[k].files| ==> walk[k].root + walk[k].files[j] in DocPaths(walk)
    ensures forall x :: x in DocPaths(walk) ==> exists k, j :: 0 <= k < |walk| && 0 <= j < |walk[k].files| && x == walk[k].root + walk[k].files[j]
    decreases |walk|
  {
    if walk != [] {
      var n := |walk| - 1;
      DocPathsSpec(walk[..n]);
      var w := walk[n];
      var tail := seq(|w.files|, j requires 0 <= j < |w.files| => w.root + w.files[j]);
      assert DocPaths(walk) == DocPaths(walk[..n]) + tail;
      forall k, j | 0 <= k < |walk| && 0 <= j < |walk[k].files|
        ensures walk[k].root + walk[k].files[j] in DocPaths(walk)
      {
        if k < n {
          assert walk[..n][k] == walk[k];
        } else {
          assert tail[j] == walk[k].root + walk[k].files[j];
        }
      }
      forall x | x in DocPaths(walk)
        ensures exists k, j :: 0 <= k < |walk| && 0 <= j < |walk[k].files| && x == walk[k].root + walk[k].files[j]
      {
        if x in DocPaths(walk[..n]) {
          var k, j :| 0 <= k < n && 0 <= j < |walk[..n][k].files| && x == walk[..n][k].root + walk[..n][k].files[j];
          assert walk[..n][k] == walk[k];
        } else {
          assert x in tail;
          var j :| 0 <= j < |tail| && tail[j] == x;
          assert x == walk[n].root + walk[n].files[j];
        }
      }
    }
  }

  /** No separator is put between a directory and a file: a file of a
      sub-directory runs into the sub-directory's name. */
  lemma RootJoinedWithoutSeparator()
    ensures DocPaths([WalkStep("./docs/", ["a.docx"]), WalkStep("./docs/sub", ["b.docx"])])
            == ["./docs/a.docx", "./docs/subb.docx"]
  {
    var w := [WalkStep("./docs/", ["a.docx"]), WalkStep("./docs/sub", ["b.docx"])];
    assert w[..1] == [WalkStep("./docs/", ["a.docx"])];
    assert w[..1][..0] == [];
    var first := seq(1, j requires 0 <= j < 1 => "./docs/" + ["a.docx"][j]);
    assert first == ["./docs/" + "a.docx"];
    assert DocPaths(w[..1]) == [] + first;
    var second := seq(1, j requires 0 <= j < 1 => "./docs/sub" + ["b.docx"][j]);
    assert second == ["./docs/sub" + "b.docx"];
    assert DocPaths(w) == DocPaths(w[..1]) + second;
    assert "./docs/" + "a.docx" == "./docs/a.docx";
    assert "./docs/sub" + "b.docx" == "./docs/subb.docx";
  }

  // ------------------------------------------------------------------ sections

  /** The texts of the paragraphs. */
  function Texts(ps: seq<Paragraph>): (r: seq<string>)
    ensures |r| == |ps| && forall i :: 0 <= i < |ps| ==> r[i] == ps[i].text
  {
    seq(|ps|, i requires 0 <= i < |ps| => ps[i].text)
  }

  /** The texts of the header paragraphs, in order. */
  function HeaderTexts(ps: seq<Paragraph>, header: string): seq<string>
  {
    if ps == [] then []
    else
      var p := ps[|ps| - 1];
      HeaderTexts(ps[..|ps| - 1], header) + (if p.style == header then [p.text] else [])
  }

  /** The paragraphs of each section. */
  function ParagraphsOf(secs: seq<Section>): (r: seq<seq<string>>)
    ensures |r| == |secs| && forall i :: 0 <= i < |secs| ==> r[i] == secs[i].paragraphs
  {
    seq(|secs|, i requires 0 <= i < |secs| => secs[i].paragraphs)
  }

  /** The loop's state: the sections written so far, the paragraphs gathered
      since, and the index the next write uses. */
  datatype ScanState = ScanState(written: seq<Section>, current: seq<string>, index: nat)

  /** The sections that a write would add: none for an empty gathering. */
  function Flush(current: seq<string>, index: nat): seq<Section> {
    if current != [] then [Section(index, current)] else []
  }

  /** The loop over the paragraphs `ps`: a header writes what was gathered and
      starts a new gathering with its own text; any other paragraph is gathered. */
  function Scan(ps: seq<Paragraph>, header: string): ScanState
  {
    if ps == [] then ScanState([], [], 0)
    else
      var st := Scan(ps[..|ps| - 1], header);
      var p := ps[|ps| - 1];
      if p.style == header then ScanState(st.written + Flush(st.current, st.index), [p.text], st.index + 1)
      else ScanState(st.written, st.current + [p.text], st.index)
  }

  /** The sections written for a document: those of the loop over every
      paragraph but the first, and then the last gathering. */
  function Sections(paragraphs: seq<Paragraph>, header: string): seq<Section>
  {
    var st := Scan(SliceFrom(paragraphs, 1), header);
    st.written + Flush(st.current, st.index)
  }

  /** The sections of a state's closed and gathered paragraphs. */
  predicate WellSectioned(secs: seq<Section>, texts: seq<string>, headers: seq<string>, bound: nat) {
    && Concat(ParagraphsOf(secs)) == texts
    && (forall k :: 0 <= k < |secs| ==> secs[k].paragraphs != [])
    && (forall k :: 0 <= k < |secs| ==> secs[k].index <= bound)
    && (forall k, l :: 0 <= k < l < |secs| ==> secs[k].index < secs[l].index)
    && (forall k :: 0 <= k < |secs| && secs[k].index >= 1 ==> secs[k].paragraphs[0] in headers)
  }

  lemma ConcatParagraphsAppend(secs: seq<Section>, s: Section)
    ensures Concat(ParagraphsOf(secs + [s])) == Concat(ParagraphsOf(secs)) + s.paragraphs
  {
    assert ParagraphsOf(secs + [s])[..|secs|] == ParagraphsOf(secs);
  }

  /** The loop loses no paragraph: the written sections and the gathering hold
      the paragraphs' texts in order. */
  lemma {:induction false} ScanTexts(ps: seq<Paragraph>, header: string)
    ensures var st := Scan(ps, header);
            Concat(ParagraphsOf(st.written)) + st.current == Texts(ps)
    decreases |ps|
  {
    if ps != [] {
      var n := |ps| - 1;
      ScanTexts(ps[..n], header);
      var st := Scan(ps[..n], header);
      assert Texts(ps) == Texts(ps[..n]) + [ps[n].text];
      if ps[n].style == header && st.current != [] {
        ConcatParagraphsAppend(st.written, Section(st.index, st.current));
      }
    }
  }

  /** Written sections are non-empty, with increasing indices below the next
      one, which counts the headers seen. */
  lemma {:induction false} ScanIndices(ps: seq<Paragraph>, header: string)
    ensures var st := Scan(ps, header);
            && st.index == |HeaderTexts(ps, header)|
            && (forall k :: 0 <= k < |st.written| ==> st.written[k].paragraphs != [] && st.written[k].index < st.index)
            && (forall k, l :: 0 <= k < l < |st.written| ==> st.written[k].index < st.written[l].index)
    decreases |ps|
  {
    if ps != [] {
      var n := |ps| - 1;
      ScanIndices(ps[..n], header);
      var st := Scan(ps[..n], header);
      if ps[n].style == header {
        var w := st.written + Flush(st.current, st.index);
        assert forall k :: 0 <= k < |st.written| ==> w[k] == st.written[k];
      }
    }
  }

  /** Every section after the first, and every gathering after a header, starts
      with a header's text. */
  lemma {:induction false} ScanHeaders(ps: seq<Paragraph>, header: string)
    ensures var st := Scan(ps, header);
            && (st.index >= 1 ==> st.current != [] && st.current[0] in HeaderTexts(ps, header))
            && (forall k :: 0 <= k < |st.written| && st.written[k].index >= 1 ==>
                  st.written[k].paragraphs != [] && st.written[k].paragraphs[0] in HeaderTexts(ps, header))
    decreases |ps|
  {
    if ps != [] {
      var n := |ps| - 1;
      ScanHeaders(ps[..n], header);
      ScanIndices(ps[..n], header);
      var st := Scan(ps[..n], header);
      var hs := HeaderTexts(ps, header);
      assert forall x :: x in HeaderTexts(ps[..n], header) ==> x in hs;
      if ps[n].style == header {
        var w := st.written + Flush(st.current, st.index);
        assert forall k :: 0 <= k < |st.written| ==> w[k] == st.written[k];
      }
    }
  }

  /** Where the `k`-th section starts among the paragraphs: after all the
      paragraphs of the sections before it. */
  function Start(secs: seq<Section>, k: nat): nat
    requires k <= |secs|
  {
    |Concat(ParagraphsOf(secs[..k]))|
  }

  /** `sec` is the section of `ps` that starts at paragraph `s`: it starts with
      a header exactly when its index is 1 or more, no later paragraph of it is
      a header, and its index is the number of headers up to its start. */
  predicate SectionAt(ps: seq<Paragraph>, header: string, sec: Section, s: nat) {
    && sec.paragraphs != [] && s + |sec.paragraphs| <= |ps|
    && (ps[s].style == header <==> sec.index >= 1)
    && (forall j :: s < j < s + |sec.paragraphs| ==> ps[j].style != header)
    && sec.index == |HeaderTexts(ps[..s + 1], header)|
  }

  /** The sections split `ps` at its header paragraphs. */
  predicate SplitAtHeaders(ps: seq<Paragraph>, header: string, secs: seq<Section>) {
    forall k {:trigger Start(secs, k)} :: 0 <= k < |secs| ==> SectionAt(ps, header, secs[k], Start(secs, k))
  }

  /** A section stays the same section when paragraphs follow. */
  lemma SectionAtExtend(ps: seq<Paragraph>, p: Paragraph, header: string, sec: Section, s: nat)
    requires SectionAt(ps, header, sec, s)
    ensures SectionAt(ps + [p], header, sec, s)
  {
    assert (ps + [p])[..s + 1] == ps[..s + 1];
  }

  lemma StartAppend(secs: seq<Section>, x: seq<Section>, k: nat)
    requires k <= |secs|
    ensures Start(secs + x, k) == Start(secs, k)
  {
    assert (secs + x)[..k] == secs[..k];
  }

  /** Sections written earlier keep their place when paragraphs follow and
      sections are written after them. */
  lemma WrittenExtend(q: seq<Paragraph>, p: Paragraph, header: string, written: seq<Section>, x: seq<Section>)
    requires SplitAtHeaders(q, header, written)
    ensures forall k :: 0 <= k < |written| ==> SectionAt(q + [p], header, (written + x)[k], Start(written + x, k))
  {
    forall k | 0 <= k < |written|
      ensures SectionAt(q + [p], header, (written + x)[k], Start(written + x, k))
    {
      SectionAtExtend(q, p, header, written[k], Start(written, k));
      StartAppend(written, x, k);
    }
  }

  /** A header opens a section of its own, numbered one past the headers before it. */
  lemma HeaderOpens(q: seq<Paragraph>, p: Paragraph, header: string, index: nat, s: nat)
    requires p.style == header && index == |HeaderTexts(q, header)| && s == |q|
    ensures SectionAt(q + [p], header, Section(index + 1, [p.text]), s)
  {
    assert (q + [p])[..|q| + 1] == q + [p];
    assert (q + [p])[..|q|] == q;
  }

  /** Any other paragraph joins the gathering that reaches up to it. */
  lemma TextGathered(q: seq<Paragraph>, p: Paragraph, header: string, sec: Section, s: nat)
    requires SectionAt(q, header, sec, s) && s + |sec.paragraphs| == |q| && p.style != header
    ensures SectionAt(q + [p], header, Section(sec.index, sec.paragraphs + [p.text]), s)
  {
    assert (q + [p])[..s + 1] == q[..s + 1];
  }

  /** A first paragraph that is not a header opens section 0. */
  lemma FirstGathered(p: Paragraph, header: string)
    requires p.style != header
    ensures SectionAt([p], header, Section(0, [p.text]), 0)
  {
    assert [p][..1] == [p];
    assert [p][..0] == [];
  }

  /** What the loop keeps over the paragraphs `ps` seen so far: the written
      sections and the current gathering are sections of `ps`. */
  predicate ScanSplit(ps: seq<Paragraph>, header: string, st: ScanState) {
    && (ps == [] <==> st.current == [])
    && SplitAtHeaders(ps, header, st.written)
    && (ps != [] ==> SectionAt(ps, header, Section(st.index, st.current), Start(st.written, |st.written|)))
  }

  /** The gathering, once written, ends where the paragraphs seen so far end. */
  lemma StartFlushed(written: seq<Section>, current: seq<string>, index: nat)
    ensures var w := written + Flush(current, index);
            Start(w, |w|) == Start(written, |written|) + |current|
  {
    var w := written + Flush(current, index);
    assert w[..|w|] == w;
    assert written[..|written|] == written;
    if current != [] {
      ConcatParagraphsAppend(written, Section(index, current));
    }
  }

  /** At a header the sections written so far, and the gathering written
      after them, stay sections. */
  lemma WrittenFlushed(q: seq<Paragraph>, p: Paragraph, header: string, st: ScanState)
    requires ScanSplit(q, header, st)
    ensures SplitAtHeaders(q + [p], header, st.written + Flush(st.current, st.index))
  {
    var x := Flush(st.current, st.index);
    WrittenExtend(q, p, header, st.written, x);
    if st.current != [] {
      StartAppend(st.written, x, |st.written|);
      SectionAtExtend(q, p, header, Section(st.index, st.current), Start(st.written, |st.written|));
      assert (st.written + x)[|st.written|] == Section(st.index, st.current);
    } else {
      assert st.written + x == st.written;
    }
  }

  /** A header closes the gathering and opens a section of its own. */
  lemma HeaderStep(q: seq<Paragraph>, p: Paragraph, header: string, st: ScanState)
    requires p.style == header && ScanSplit(q, header, st)
    requires st.index == |HeaderTexts(q, header)|
    requires Start(st.written, |st.written|) + |st.current| == |q|
    ensures ScanSplit(q + [p], header, ScanState(st.written + Flush(st.current, st.index), [p.text], st.index + 1))
  {
    var w := st.written + Flush(st.current, st.index);
    StartFlushed(st.written, st.current, st.index);
    HeaderOpens(q, p, header, st.index, Start(w, |w|));
    WrittenFlushed(q, p, header, st);
  }

  /** Any other paragraph joins the gathering. */
  lemma TextStep(q: seq<Paragraph>, p: Paragraph, header: string, st: ScanState)
    requires p.style != header && ScanSplit(q, header, st)
    requires st.index == |HeaderTexts(q, header)|
    requires Start(st.written, |st.written|) + |st.current| == |q|
    ensures ScanSplit(q + [p], header, ScanState(st.written, st.current + [p.text], st.index))
  {
    WrittenExtend(q, p, header, st.written, []);
    assert st.written + [] == st.written;
    if q == [] {
      FirstGathered(p, header);
    } else {
      TextGathered(q, p, header, Section(st.index, st.current), Start(st.written, |st.written|));
    }
  }

  /** The written sections and the gathering hold as many paragraphs as were seen. */
  lemma ScanLength(ps: seq<Paragraph>, header: string)
    ensures var st := Scan(ps, header);
            Start(st.written, |st.written|) + |st.current| == |ps|
  {
    var st := Scan(ps, header);
    ScanTexts(ps, header);
    assert st.written[..|st.written|] == st.written;
    assert |Texts(ps)| == |ps|;
  }

  /** The next index counts the headers seen. */
  lemma ScanCount(ps: seq<Paragraph>, header: string)
    ensures Scan(ps, header).index == |HeaderTexts(ps, header)|
  {
    ScanIndices(ps, header);
  }

  /** The loop closes each gathering at a header: every written section and
      the current gathering are sections of the paragraphs seen so far. */
  lemma {:induction false} ScanSections(ps: seq<Paragraph>, header: string)
    ensures ScanSplit(ps, header, Scan(ps, header))
    decreases |ps|
  {
    if ps != [] {
      var n := |ps| - 1;
      var q, p := ps[..n], ps[n];
      assert q + [p] == ps;
      ScanSections(q, header);
      var st := Scan(q, header);
      ScanLength(q, header);
      ScanCount(q, header);
      if p.style == header {
        var next := ScanState(st.written + Flush(st.current, st.index), [p.text], st.index + 1);
        assert Scan(ps, header) == next;
        HeaderStep(q, p, header, st);
        assert ScanSplit(q + [p], header, next);
      } else {
        var next := ScanState(st.written, st.current + [p.text], st.index);
        assert Scan(ps, header) == next;
        TextStep(q, p, header, st);
        assert ScanSplit(q + [p], header, next);
      }
    }
  }

  /** The written sections hold exactly the texts of every paragraph but the
      first, in order. */
  lemma SectionsTexts(paragraphs: seq<Paragraph>, header: string)
    ensures Concat(ParagraphsOf(Sections(paragraphs, header))) == Texts(SliceFrom(paragraphs, 1))
  {
    var ps := SliceFrom(paragraphs, 1);
    ScanTexts(ps, header);
    var st := Scan(ps, header);
    if st.current != [] {
      ConcatParagraphsAppend(st.written, Section(st.index, st.current));
    } else {
      assert Sections(paragraphs, header) == st.written;
    }
  }

  /** Each written section starts at a header, or at the first paragraph
      looked at when that is not one, and runs up to the next header. */
  lemma SectionsAtHeaders(paragraphs: seq<Paragraph>, header: string)
    ensures SplitAtHeaders(SliceFrom(paragraphs, 1), header, Sections(paragraphs, header))
  {
    var ps := SliceFrom(paragraphs, 1);
    ScanSections(ps, header);
    var st := Scan(ps, header);
    var secs := Sections(paragraphs, header);
    forall k | 0 <= k < |secs|
      ensures SectionAt(ps, header, secs[k], Start(secs, k))
    {
      StartAppend(st.written, Flush(st.current, st.index), k);
      if k < |st.written| {
        assert secs[k] == st.written[k];
      } else {
        assert secs[k] == Section(st.index, st.current);
      }
    }
  }

  /** The written sections: together exactly the texts of every paragraph but
      the first; none empty; indices increasing and at most the number of
      headers; every section with index 1 or more starts with a header's text. */
  lemma SectionsSpec(paragraphs: seq<Paragraph>, header: string)
    ensures var ps := SliceFrom(paragraphs, 1);
            WellSectioned(Sections(paragraphs, header), Texts(ps), HeaderTexts(ps, header), |HeaderTexts(ps, header)|)
    ensures SplitAtHeaders(SliceFrom(paragraphs, 1), header, Sections(paragraphs, header))
  {
    SectionsWellFormed(paragraphs, header);
    SectionsAtHeaders(paragraphs, header);
  }

  lemma SectionsWellFormed(paragraphs: seq<Paragraph>, header: string)
    ensures var ps := SliceFrom(paragraphs, 1);
            WellSectioned(Sections(paragraphs, header), Texts(ps), HeaderTexts(ps, header), |HeaderTexts(ps, header)|)
  {
    var ps := SliceFrom(paragraphs, 1);
    SectionsTexts(paragraphs, header);
    SectionsShaped(paragraphs, header, Sections(paragraphs, header), HeaderTexts(ps, header));
    SectionsIncreasing(paragraphs, header, Sections(paragraphs, header));
  }

  /** Each section is non-empty, its index at most the header count, and one
      with index 1 or more starts with a header's text. */
  lemma SectionsShaped(paragraphs: seq<Paragraph>, header: string, secs: seq<Section>, hs: seq<string>)
    requires secs == Sections(paragraphs, header) && hs == HeaderTexts(SliceFrom(paragraphs, 1), header)
    ensures forall k :: 0 <= k < |secs| ==> secs[k].paragraphs != []
    ensures forall k :: 0 <= k < |secs| ==> secs[k].index <= |hs|
    ensures forall k :: 0 <= k < |secs| && secs[k].index >= 1 ==> secs[k].paragraphs[0] in hs
  {
    var ps := SliceFrom(paragraphs, 1);
    var st := Scan(ps, header);
    ScanIndices(ps, header);
    ScanHeaders(ps, header);
    forall k | 0 <= k < |secs|
      ensures secs[k].paragraphs != [] && secs[k].index <= |hs|
      ensures secs[k].index >= 1 ==> secs[k].paragraphs[0] in hs
    {
      if k < |st.written| {
        assert secs[k] == st.written[k];
      } else {
        assert secs[k] == Section(st.index, st.current);
      }
    }
  }

  /** The indices of the sections increase. */
  lemma SectionsIncreasing(paragraphs: seq<Paragraph>, header: string, secs: seq<Section>)
    requires secs == Sections(paragraphs, header)
    ensures forall k, l :: 0 <= k < l < |secs| ==> secs[k].index < secs[l].index
  {
    var ps := SliceFrom(paragraphs, 1);
    var st := Scan(ps, header);
    ScanIndices(ps, header);
    forall k, l | 0 <= k < l < |secs|
      ensures secs[k].index < secs[l].index
    {
      assert secs[k] == st.written[k];
      if l < |st.written| {
        assert secs[l] == st.written[l];
      } else {
        assert secs[l] == Section(st.index, st.current);
      }
    }
  }

  /** A concrete split: the text before the first header is section 0, and
      the header opens section 1 with its own text. */
  lemma SplitAtHeaderExample()
    ensures Sections([Paragraph("Title", "t"), Paragraph("Normal", "a"), Paragraph("Heading 2", "h"),
                      Paragraph("Normal", "b")], "Heading 2")
            == [Section(0, ["a"]), Section(1, ["h", "b"])]
  {
    var ps := [Paragraph("Title", "t"), Paragraph("Normal", "a"), Paragraph("Heading 2", "h"), Paragraph("Normal", "b")];
    var rest := SliceFrom(ps, 1);
    assert rest == ps[1..];
    assert rest[..2][..1] == [Paragraph("Normal", "a")];
    assert rest[..2] == [Paragraph("Normal", "a"), Paragraph("Heading 2", "h")];
    assert rest[..3] == [Paragraph("Normal", "a"), Paragraph("Heading 2", "h"), Paragraph("Normal", "b")];
    assert Scan(rest[..2][..1], "Heading 2") == ScanState([], ["a"], 0);
    assert Scan(rest[..2], "Heading 2") == ScanState([Section(0, ["a"])], ["h"], 1);
    assert Scan(rest, "Heading 2") == ScanState([Section(0, ["a"])], ["h", "b"], 1);
  }

  /** The document's first paragraph never reaches a file. */
  lemma FirstParagraphIgnored(p: Paragraph, q: Paragraph, rest: seq<Paragraph>, header: string)
    ensures Sections([p] + rest, header) == Sections([q] + rest, header)
  {
    assert SliceFrom([p] + rest, 1) == rest == SliceFrom([q] + rest, 1);
  }

  // ------------------------------------------------------------------ files

  /** The third `/`-field of the document path, up to its first `.`; fewer than
      three fields raise IndexError. */
  function BaseName(docPath: string): (r: Result<string>)
    ensures r.Failure? <==> |Split(docPath, '/')| < 3
    ensures r.Failure? ==> r.error == IndexError
    ensures r.Success? ==> '.' !in r.value && '/' !in r.value
  {
    var fields := Split(docPath, '/');
    if |fields| < 3 then Failure(IndexError)
    else
      var name := Split(fields[2], '.')[0];
      assert forall c :: c in name ==> c in fields[2] by {
        JoinSplit(fields[2], '.');
        JoinHasParts(['.'], Split(fields[2], '.'), 0);
      }
      Success(name)
  }

  lemma SplitFileName()
    ensures Split("m.x", '.') == ["m", "x"] && Split("m.x", '/') == ["m.x"]
  {
    assert "m.x"[1..] == ".x" && ".x"[1..] == "x" && "x"[1..] == "";
    assert ['x'] + "" == "x" && [""][1..] == [];
    assert Split("x", '.') == [['x'] + ""] + [""][1..];
    assert Split("x", '/') == [['x'] + ""] + [""][1..];
    assert Split(".x", '.') == ["", "x"];
    assert Split(".x", '/') == [['.'] + "x"] && ['.'] + "x" == ".x";
    assert Split("m.x", '.') == [['m'] + ""] + ["x"] && ['m'] + "" == "m";
    assert Split("m.x", '/') == [['m'] + ".x"] && ['m'] + ".x" == "m.x";
  }

  lemma SplitDirPath()
    ensures Split("d/m.x", '/') == ["d", "m.x"]
  {
    SplitFileName();
    assert "d/m.x"[1..] == "/m.x" && "/m.x"[1..] == "m.x";
    assert Split("/m.x", '/') == ["", "m.x"];
    assert Split("d/m.x", '/') == [['d'] + ""] + ["m.x"] && ['d'] + "" == "d";
  }

  lemma SplitDocPath()
    ensures Split("./d/m.x", '/') == [".", "d", "m.x"]
  {
    SplitDirPath();
    assert "./d/m.x"[1..] == "/d/m.x" && "/d/m.x"[1..] == "d/m.x";
    assert Split("/d/m.x", '/') == ["", "d", "m.x"];
    assert Split("./d/m.x", '/') == [['.'] + ""] + ["d", "m.x"] && ['.'] + "" == ".";
  }

  /** A document found by the walk of `./d/` is named after its file; a bare
      file name has no third field. */
  lemma BaseNameOfWalkedDoc()
    ensures BaseName("./d/m.x") == Success("m")
    ensures BaseName("m.x") == Failure(IndexError)
  {
    SplitFileName();
    SplitDocPath();
  }

  /** A part of a join is a slice of it. */
  lemma {:induction false} JoinHasParts(sep: string, parts: seq<string>, i: nat)
    requires i < |parts|
    ensures forall c :: c in parts[i] ==> c in Join(sep, parts)
    decreases |parts|
  {
    if |parts| > 1 && i < |parts| - 1 {
      JoinHasParts(sep, parts[..|parts| - 1], i);
      assert parts[..|parts| - 1][i] == parts[i];
    }
  }

  /** `{output_dir}/{name}_{index}.txt`. */
  function SectionPath(outputDir: string, name: string, index: int): string {
    outputDir + "/" + name + "_" + IntToString(index) + ".txt"
  }

  /** The files after writing `secs` in order, each its paragraphs joined by
      newlines. */
  function WriteAll(secs: seq<Section>, outputDir: string, name: string, files: map<string, string>): map<string, string>
  {
    if secs == [] then files
    else
      var s := secs[|secs| - 1];
      WriteAll(secs[..|secs| - 1], outputDir, name, files)[SectionPath(outputDir, name, s.index) := Join("\n", s.paragraphs)]
  }

  /** `write_paragraphs_to_file`: nothing for an empty gathering; otherwise the
      file of the section, whose name may raise. */
  method WriteParagraphs(docPath: string, outputDir: string, paragraphs: seq<string>, index: nat, dir: Directory)
    returns (r: Result<()>)
    modifies dir
    ensures paragraphs == [] ==> r == Success(()) && dir.files == old(dir.files)
    ensures paragraphs != [] && BaseName(docPath).Failure? ==> r == Failure(IndexError) && dir.files == old(dir.files)
    ensures paragraphs != [] && BaseName(docPath).Success? ==>
              r == Success(()) && dir.files == old(dir.files)[SectionPath(outputDir, BaseName(docPath).value, index) := Join("\n", paragraphs)]
  {
    if paragraphs != [] {
      var fields := Split(docPath, '/');
      if |fields| < 3 {
        return Failure(IndexError);
      }
      var name := fields[2];
      name := Split(name, '.')[0];
      var fileName := name + "_" + IntToString(index) + ".txt";
      var filePath := outputDir + "/" + fileName;
      assert filePath == SectionPath(outputDir, name, index);
      dir.files := dir.files[filePath := Join("\n", paragraphs)];
    }
    r := Success(());
  }

  /** The files of the sections written so far. */
  predicate FilesWritten(written: seq<Section>, docPath: string, outputDir: string,
                         before: map<string, string>, files: map<string, string>) {
    if written == [] then files == before
    else BaseName(docPath).Success? && files == WriteAll(written, outputDir, BaseName(docPath).value, before)
  }

  /** One more paragraph: the loop's state after it. */
  lemma ScanStep(ps: seq<Paragraph>, i: nat, header: string)
    requires i < |ps|
    ensures var st := Scan(ps[..i], header);
            Scan(ps[..i + 1], header)
            == if ps[i].style == header then ScanState(st.written + Flush(st.current, st.index), [ps[i].text], st.index + 1)
               else ScanState(st.written, st.current + [ps[i].text], st.index)
  {
    assert ps[..i + 1][..i] == ps[..i];
  }

  /** Writing the gathering adds its section to the files written. */
  lemma FlushFiles(written: seq<Section>, current: seq<string>, index: nat, docPath: string, outputDir: string,
                   before: map<string, string>, files: map<string, string>, files': map<string, string>)
    requires FilesWritten(written, docPath, outputDir, before, files)
    requires current == [] ==> files' == files
    requires current != [] ==> BaseName(docPath).Success?
                               && files' == files[SectionPath(outputDir, BaseName(docPath).value, index) := Join("\n", current)]
    ensures FilesWritten(written + Flush(current, index), docPath, outputDir, before, files')
  {
    if current == [] {
      assert written + Flush(current, index) == written;
    } else {
      var w := written + [Section(index, current)];
      assert w[..|written|] == written;
    }
  }

  /** A write of the gathering inside `split_document_by_header`: the section
      joins the files written, or the write raises and nothing changes. */
  method WriteGathering(docPath: string, outputDir: string, current: seq<string>, index: nat,
                        ghost written: seq<Section>, ghost before: map<string, string>, dir: Directory)
    returns (r: Result<()>)
    modifies dir
    requires FilesWritten(written, docPath, outputDir, before, dir.files)
    ensures r.Failure? ==> r.error == IndexError && current != [] && BaseName(docPath).Failure? && dir.files == old(dir.files)
    ensures r.Success? ==> FilesWritten(written + Flush(current, index), docPath, outputDir, before, dir.files)
  {
    r := WriteParagraphs(docPath, outputDir, current, index, dir);
    if r.Success? {
      FlushFiles(written, current, index, docPath, outputDir, before, old(dir.files), dir.files);
    }
  }

  /** `split_document_by_header` on the document's paragraphs: every section is
      written, in order; when the document path has no name, the first write
      raises and nothing is written. */
  method SplitDocumentByHeader(docPath: string, outputDir: string, header: string,
                               paragraphs: seq<Paragraph>, dir: Directory)
    returns (r: Result<()>)
    modifies dir
    ensures var secs := Sections(paragraphs, header);
            && (r.Failure? <==> secs != [] && BaseName(docPath).Failure?)
            && (r.Failure? ==> r.error == IndexError && dir.files == old(dir.files))
            && (r.Success? ==> FilesWritten(secs, docPath, outputDir, old(dir.files), dir.files))
  {
    var fileIndex: nat := 0;
    var current: seq<string> := [];
    ghost var written: seq<Section> := [];
    var ps := SliceFrom(paragraphs, 1);
    for i := 0 to |ps|
      invariant Scan(ps[..i], header) == ScanState(written, current, fileIndex)
      invariant FilesWritten(written, docPath, outputDir, old(dir.files), dir.files)
    {
      ScanStep(ps, i, header);
      var para := ps[i];
      if para.style == header {
        r := WriteGathering(docPath, outputDir, current, fileIndex, written, old(dir.files), dir);
        if r.Failure? {
          ScanWrites(ps, i + 1, header);
          return;
        }
        written := written + Flush(current, fileIndex);
        current := [para.text];
        fileIndex := fileIndex + 1;
      } else {
        current := current + [para.text];
      }
    }
    assert ps[..|ps|] == ps;
    r := WriteGathering(docPath, outputDir, current, fileIndex, written, old(dir.files), dir);
  }

  /** Once something was written, the loop never writes nothing again. */
  lemma {:induction false} ScanWrites(ps: seq<Paragraph>, i: nat, header: string)
    requires i <= |ps|
    requires Scan(ps[..i], header).written != []
    ensures Scan(ps, header).written != []
    decreases |ps| - i
  {
    if i < |ps| {
      assert ps[..i + 1][..i] == ps[..i];
      ScanWrites(ps, i + 1, header);
    } else {
      assert ps[..i] == ps;
    }
  }
}
