/** Turning a parsed PDF into markdown and the markdown into titled sections
    (RPEM.py). The regular-expression split that produces the parts is not
    modelled: the assembly works on the sequence of parts it yields. */
module Segmenter {
  import opened Json
  import opened Text
  import opened Seqs

  /** One element of a parsed PDF: a title, or any other text block. */
  datatype Element = Title(text: string) | Other(text: string)

  /** The markdown of one element: a title becomes a level-two header line. */
  function Rendered(e: Element): string {
    match e
    case Title(t) => "\n## " + t + "\n"
    case Other(t) => t + "\n"
  }

  /** The markdown of a document: its elements' renderings in order. */
  function Markdown(els: seq<Element>): string {
    if els == [] then "" else Markdown(els[..|els| - 1]) + Rendered(els[|els| - 1])
  }

  /** `elements_to_markdown`: accumulates the rendering element by element. */
  method ElementsToMarkdown(elements: seq<Element>) returns (md: string)
    ensures md == Markdown(elements)
  {
    md := "";
    for i := 0 to |elements|
      invariant md == Markdown(elements[..i])
    {
      assert elements[..i + 1][..i] == elements[..i];
      if elements[i].Title? {
        md := md + "\n## " + elements[i].text + "\n";
      } else {
        md := md + elements[i].text + "\n";
      }
    }
    assert elements[..|elements|] == elements;
  }

  /** The markdown of two runs of elements is the markdown of each, joined. */
  lemma {:induction false} MarkdownAppend(a: seq<Element>, b: seq<Element>)
    ensures Markdown(a + b) == Markdown(a) + Markdown(b)
    decreases |b|
  {
    if b != [] {
      var b' := b[..|b| - 1];
      assert (a + b)[..|a + b| - 1] == a + b';
      MarkdownAppend(a, b');
    } else {
      assert a + b == a;
    }
  }

  /** Element `k` is rendered, intact, right after the markdown of the elements
      before it. */
  lemma RenderedAt(els: seq<Element>, k: int)
    requires 0 <= k < |els|
    ensures var start := |Markdown(els[..k])|;
            var md := Markdown(els);
            start + |Rendered(els[k])| <= |md| &&
            md[start..start + |Rendered(els[k])|] == Rendered(els[k])
  {
    assert els == els[..k] + [els[k]] + els[k + 1..];
    MarkdownAppend(els[..k] + [els[k]], els[k + 1..]);
    MarkdownAppend(els[..k], [els[k]]);
    assert Markdown([els[k]]) == Rendered(els[k]) by {
      assert [els[k]][..0] == [];
    }
  }

  /** One section: its header line, stripped, and its stripped body text. */
  datatype Section = Section(title: string, content: string)

  function TitleOf(s: Section): string {
    s.title
  }

  /** `part.startswith("#")`: the test that makes a part a title. Any part
      starting with `#` passes, whether or not the split produced it as a header. */
  predicate IsHeader(part: string) {
    |part| > 0 && part[0] == '#'
  }

  /** The parts, joined. */
  function Concat(parts: seq<string>): string {
    if parts == [] then "" else parts[0] + Concat(parts[1..])
  }

  /** The number of leading parts that are not headers. */
  function BodyLen(parts: seq<string>): (n: nat)
    ensures n <= |parts|
    ensures forall j :: 0 <= j < n ==> !IsHeader(parts[j])
    ensures n < |parts| ==> IsHeader(parts[n])
  {
    if parts == [] || IsHeader(parts[0]) then 0 else 1 + BodyLen(parts[1..])
  }

  /** The sections of a split document, read header by header: every header
      opens a section whose body is the run of non-header parts after it, and
      the parts before the first header belong to no section. */
  function Sections(parts: seq<string>): seq<Section>
    decreases |parts|
  {
    if parts == [] then []
    else if !IsHeader(parts[0]) then Sections(parts[1..])
    else
      var rest := parts[1..];
      var n := BodyLen(rest);
      [Section(Strip(parts[0]), Strip(Concat(rest[..n])))] + Sections(rest[n..])
  }

  /** The sections still to come when the loop of `split_into_sections` has
      read up to `rest`, holding an open section `title` with body `content`. */
  function Resume(title: Option<string>, content: string, rest: seq<string>): seq<Section> {
    match title
    case None => Sections(rest)
    case Some(t) =>
      var n := BodyLen(rest);
      [Section(t, Strip(content + Concat(rest[..n])))] + Sections(rest[n..])
  }

  /** A header closes the open section and opens its own. */
  lemma ResumeAtHeader(title: Option<string>, content: string, rest: seq<string>)
    requires rest != [] && IsHeader(rest[0])
    ensures Resume(title, content, rest)
            == (if title.Some? then [Section(title.value, Strip(content))] else [])
               + Resume(Some(Strip(rest[0])), "", rest[1..])
  {
    var r := rest[1..];
    var n := BodyLen(r);
    assert "" + Concat(r[..n]) == Concat(r[..n]);
    if title.Some? {
      assert rest[..0] == [] && rest[0..] == rest;
      assert content + Concat([]) == content;
    }
  }

  /** A non-header part joins the body of the open section, if any. */
  lemma ResumeAtBody(title: Option<string>, content: string, rest: seq<string>)
    requires rest != [] && !IsHeader(rest[0])
    ensures Resume(title, content, rest) == Resume(title, content + rest[0], rest[1..])
  {
    if title.Some? {
      var n := BodyLen(rest[1..]);
      assert BodyLen(rest) == n + 1;
      assert rest[..n + 1] == [rest[0]] + rest[1..][..n];
      assert Concat(rest[..n + 1]) == rest[0] + Concat(rest[1..][..n]);
      assert content + (rest[0] + Concat(rest[1..][..n])) == (content + rest[0]) + Concat(rest[1..][..n]);
      assert rest[n + 1..] == rest[1..][n..];
    }
  }

  /** `split_into_sections`, over the parts the split produced. */
  method SplitIntoSections(parts: seq<string>) returns (sections: seq<Section>)
    ensures sections == Sections(parts)
  {
    sections := [];
    var currentTitle: Option<string> := None;
    var currentContent := "";
    for i := 0 to |parts|
      invariant sections + Resume(currentTitle, currentContent, parts[i..]) == Sections(parts)
      invariant currentTitle.Some? ==> currentTitle.value != ""
    {
      var part := parts[i];
      ghost var before := sections;
      HeaderOrBodyStep(sections, currentTitle, currentContent, parts, i);
      if |part| > 0 && part[0] == '#' {
        ghost var closing := if currentTitle.Some? then [Section(currentTitle.value, Strip(currentContent))] else [];
        if currentTitle.Some? && currentTitle.value != "" {
          sections := sections + [Section(currentTitle.value, Strip(currentContent))];
        }
        assert sections == before + closing;
        StripKeepsFirst(part);
        currentTitle := Some(Strip(part));
        currentContent := "";
      } else {
        currentContent := currentContent + part;
      }
    }
    ResumeAtEnd(currentTitle, currentContent);
    assert parts[|parts|..] == [];
    if currentTitle.Some? && currentTitle.value != "" {
      sections := sections + [Section(currentTitle.value, Strip(currentContent))];
    }
  }

  /** After the last part, only the open section remains. */
  lemma ResumeAtEnd(title: Option<string>, content: string)
    ensures Resume(title, content, []) == if title.Some? then [Section(title.value, Strip(content))] else []
  {
    var e: seq<string> := [];
    assert e[..0] == e && e[0..] == e;
    assert content + Concat(e) == content;
  }

  /** One turn of the loop of `SplitIntoSections` keeps its invariant. */
  lemma HeaderOrBodyStep(done: seq<Section>, title: Option<string>, content: string, parts: seq<string>, i: int)
    requires 0 <= i < |parts|
    ensures IsHeader(parts[i]) ==>
              done + Resume(title, content, parts[i..])
              == (done + (if title.Some? then [Section(title.value, Strip(content))] else []))
                 + Resume(Some(Strip(parts[i])), "", parts[i + 1..])
    ensures !IsHeader(parts[i]) ==>
              done + Resume(title, content, parts[i..]) == done + Resume(title, content + parts[i], parts[i + 1..])
  {
    assert parts[i..][1..] == parts[i + 1..];
    if IsHeader(parts[i]) {
      ResumeAtHeader(title, content, parts[i..]);
    } else {
      ResumeAtBody(title, content, parts[i..]);
    }
  }

  /** The titles of the sections opened by a header and by those after its body. */
  lemma HeaderTitles(parts: seq<string>)
    requires parts != [] && IsHeader(parts[0])
    requires var rest := parts[1..];
             Map(Sections(rest[BodyLen(rest)..]), TitleOf) == Map(Filter(rest[BodyLen(rest)..], IsHeader), Strip)
    ensures Map(Sections(parts), TitleOf) == Map(Filter(parts, IsHeader), Strip)
  {
    var rest := parts[1..];
    var n := BodyLen(rest);
    var tail := rest[n..];
    FilterFront(parts, IsHeader);
    BodyHasNoHeader(rest);
    var head := Section(Strip(parts[0]), Strip(Concat(rest[..n])));
    MapAppend([head], Sections(tail), TitleOf);
    MapAppend([parts[0]], Filter(tail, IsHeader), Strip);
  }

  /** The body after a header holds no header. */
  lemma BodyHasNoHeader(rest: seq<string>)
    ensures Filter(rest, IsHeader) == Filter(rest[BodyLen(rest)..], IsHeader)
  {
    var n := BodyLen(rest);
    FilterSplit(rest, n, IsHeader);
    FilterNone(rest[..n], IsHeader);
  }

  /** One section per header part, in order, titled by that part stripped. */
  lemma {:induction false} SectionTitles(parts: seq<string>)
    ensures Map(Sections(parts), TitleOf) == Map(Filter(parts, IsHeader), Strip)
    decreases |parts|
  {
    if parts != [] {
      var rest := parts[1..];
      if !IsHeader(parts[0]) {
        FilterFront(parts, IsHeader);
        assert Filter(parts, IsHeader) == Filter(rest, IsHeader);
        assert Sections(parts) == Sections(rest);
        SectionTitles(rest);
      } else {
        SectionTitles(rest[BodyLen(rest)..]);
        HeaderTitles(parts);
      }
    }
  }

  /** As many sections as header parts. */
  lemma SectionCount(parts: seq<string>)
    ensures |Sections(parts)| == Count(parts, IsHeader)
  {
    SectionTitles(parts);
    CountIsFilterLength(parts, IsHeader);
  }

  /** No section at all exactly when no part starts with `#`. */
  lemma NoHeaderNoSection(parts: seq<string>)
    ensures Sections(parts) == [] <==> forall i :: 0 <= i < |parts| ==> !IsHeader(parts[i])
  {
    SectionTitles(parts);
    if forall i :: 0 <= i < |parts| ==> !IsHeader(parts[i]) {
      FilterNone(parts, IsHeader);
    } else {
      var i :| 0 <= i < |parts| && IsHeader(parts[i]);
      assert parts[i] in parts;
      FilterMembers(parts, IsHeader, parts[i]);
    }
  }

  /** Every title is non-empty and starts with `#`. */
  lemma SectionTitlesAreHeaders(parts: seq<string>)
    ensures forall k :: 0 <= k < |Sections(parts)| ==>
              Sections(parts)[k].title != "" && Sections(parts)[k].title[0] == '#'
  {
    SectionTitles(parts);
    var hs := Filter(parts, IsHeader);
    forall k | 0 <= k < |Sections(parts)|
      ensures Sections(parts)[k].title != "" && Sections(parts)[k].title[0] == '#'
    {
      MapAt(Sections(parts), TitleOf, k);
      MapAt(hs, Strip, k);
      assert hs[k] in hs;
      FilterMembers(parts, IsHeader, hs[k]);
      StripKeepsFirst(hs[k]);
    }
  }

  /** Text before the first header is discarded: it changes no section. */
  lemma {:induction false} PreambleDiscarded(preamble: seq<string>, parts: seq<string>)
    requires forall i :: 0 <= i < |preamble| ==> !IsHeader(preamble[i])
    ensures Sections(preamble + parts) == Sections(parts)
    decreases |preamble|
  {
    if preamble != [] {
      var whole := preamble + parts;
      assert whole[0] == preamble[0] && !IsHeader(whole[0]);
      assert Sections(whole) == Sections(whole[1..]);
      assert whole[1..] == preamble[1..] + parts;
      PreambleDiscarded(preamble[1..], parts);
    } else {
      assert preamble + parts == parts;
    }
  }
}
