/** Chunker: splits a parsed runbook into sections at markdown headings and
    splits every section that is too long into overlapping word windows. The
    size test counts characters, the windows count words. */
module Chunker {
  import opened Wrappers
  import opened Text
  import opened DocumentParser

  /** A run of lines under one heading (or under `"Introduction"` before the
      first heading). */
  datatype Section = Section(title: string, content: string)

  datatype ChunkType = SectionChunk | SubsectionChunk {
    function Name(): string {
      match this
      case SectionChunk => "section"
      case SubsectionChunk => "subsection"
    }
  }

  /** The parent document's metadata plus the chunk's own keys;
      `chunkIndex` is present on subsection chunks only. */
  datatype ChunkMetadata = ChunkMetadata(
    parent: DocMetadata,
    sectionTitle: string,
    chunkType: ChunkType,
    chunkIndex: Option<nat>)

  datatype Chunk = Chunk(content: string, metadata: ChunkMetadata)

  const Introduction: Section := Section("Introduction", "")

  // ----- Headings -------------------------------------------------------

  /** Number of `#` characters that open `s`. */
  function LeadingHashes(s: string): (h: nat)
    ensures h <= |s|
    ensures forall i :: 0 <= i < h ==> s[i] == '#'
    ensures h == |s| || s[h] != '#'
    decreases |s|
  {
    if s != [] && s[0] == '#' then 1 + LeadingHashes(s[1..]) else 0
  }

  /** `re.match(r'^(#{1,6})\s+(.+)$', line)` on a line of `content.split('\n')`,
      giving the stripped second group. With more than six `#` the `\s+`
      meets a seventh `#` however few of them `#{1,6}` takes, so the line is
      not a heading. */
  function HeadingTitle(line: string): Option<string> {
    var h := LeadingHashes(line);
    if 1 <= h <= 6 then
      var r := RestOfLine(line, h, 1);
      if r.Some? then Some(Strip(line[r.value.0..r.value.1])) else None
    else None
  }

  /** What a heading line looks like, without the regex: 1 to 6 `#`, at least
      one whitespace character, and then either some text, whose trimmed
      form is the title, or at least one more whitespace character, which
      gives an empty title (the `\s+` gives one back to `.+`). */
  function HeadingShape(line: string): Option<string> {
    ShapeAfter(line, LeadingHashes(line), SpaceRun(line, LeadingHashes(line)))
  }

  /** `HeadingShape` for a line with `h` leading `#` followed by `w`
      whitespace characters. */
  function ShapeAfter(line: string, h: nat, w: nat): Option<string>
    requires h + w <= |line|
  {
    if h < 1 || 6 < h then None
    else if 1 <= w && h + w < |line| then Some(Strip(line[h + w..|line|]))
    else if 2 <= w then Some([])
    else None
  }

  /** On a line, the header pattern matches exactly the lines of that shape,
      with that title. */
  lemma HeadingTitleShape(line: string)
    requires '\n' !in line
    ensures HeadingTitle(line) == HeadingShape(line)
  {
    var h := LeadingHashes(line);
    if 1 <= h <= 6 {
      var w := SpaceRun(line, h);
      assert forall a :: h <= a < |line| ==> LineStartable(line, a) by {
        forall a | h <= a < |line| ensures LineStartable(line, a) {
          assert line[a] in line;
        }
      }
      if h + w < |line| && 1 <= w {
        ShapeWithText(line, h, w);
      } else if |line| <= h + w && 2 <= w {
        ShapeWithoutText(line, h, w);
      } else {
        ShapeNotHeading(line, h, w);
      }
    }
  }

  /** Text after the whitespace is the title. */
  lemma ShapeWithText(line: string, h: nat, w: nat)
    requires h == LeadingHashes(line) && 1 <= h <= 6 && w == SpaceRun(line, h)
    requires forall a :: h <= a < |line| ==> LineStartable(line, a)
    requires h + w < |line| && 1 <= w
    ensures HeadingTitle(line) == HeadingShape(line)
  {
    TitleOfText(line, h, w);
    ShapeOfText(line, h, w);
  }

  /** The shape's title when text follows the whitespace. */
  lemma ShapeOfText(line: string, h: nat, w: nat)
    requires h == LeadingHashes(line) && 1 <= h <= 6 && w == SpaceRun(line, h)
    requires h + w < |line| && 1 <= w
    ensures HeadingShape(line).Some? && HeadingShape(line).value == Strip(line[h + w..|line|])
  {
    assert HeadingShape(line) == ShapeAfter(line, h, w);
  }

  /** The pattern's title when text follows the whitespace. */
  lemma TitleOfText(line: string, h: nat, w: nat)
    requires h == LeadingHashes(line) && 1 <= h <= 6 && w == SpaceRun(line, h)
    requires forall a :: h <= a < |line| ==> LineStartable(line, a)
    requires h + w < |line| && 1 <= w
    ensures HeadingTitle(line) == Some(Strip(line[h + w..|line|]))
  {
    RestOfLineOneLine(line, h, 1);
    TitleIsRest(line, h, RestOfLine(line, h, 1), h + w);
  }

  /** Whitespace to the end of the line: `.+` takes its last character. */
  lemma ShapeWithoutText(line: string, h: nat, w: nat)
    requires h == LeadingHashes(line) && 1 <= h <= 6 && w == SpaceRun(line, h)
    requires forall a :: h <= a < |line| ==> LineStartable(line, a)
    requires |line| <= h + w && 2 <= w
    ensures HeadingTitle(line) == HeadingShape(line)
  {
    RestOfLineOneLine(line, h, 1);
    TitleIsRest(line, h, RestOfLine(line, h, 1), |line| - 1);
    BlankLast(line);
  }

  /** No whitespace after the `#`, or only one character of it at the end. */
  lemma ShapeNotHeading(line: string, h: nat, w: nat)
    requires h == LeadingHashes(line) && 1 <= h <= 6 && w == SpaceRun(line, h)
    requires forall a :: h <= a < |line| ==> LineStartable(line, a)
    requires (h + w < |line| && w < 1) || (|line| <= h + w && w < 2)
    ensures HeadingTitle(line) == HeadingShape(line)
  {
    RestOfLineOneLine(line, h, 1);
    TitleOfRest(line, h, RestOfLine(line, h, 1));
  }

  /** When `\s+(.+)` captures from `a` to the end of the line, the title is
      that text, stripped. */
  lemma TitleIsRest(line: string, h: nat, r: Option<(nat, nat)>, a: nat)
    requires h == LeadingHashes(line) && 1 <= h <= 6 && r == RestOfLine(line, h, 1)
    requires r.Some? && r.value.0 == a && r.value.1 == |line|
    ensures HeadingTitle(line) == Some(Strip(line[a..|line|]))
  {
    TitleOfRest(line, h, r);
  }

  /** With 1 to 6 leading `#`, the title is what `\s+(.+)` captures after
      them, stripped. */
  lemma TitleOfRest(line: string, h: nat, r: Option<(nat, nat)>)
    requires h == LeadingHashes(line) && 1 <= h <= 6 && r == RestOfLine(line, h, 1)
    ensures r.Some? ==> HeadingTitle(line) == Some(Strip(line[r.value.0..r.value.1]))
    ensures r.None? ==> HeadingTitle(line).None?
  {
  }

  /** The last character of a line that ends in whitespace strips away. */
  lemma BlankLast(line: string)
    requires line != [] && IsSpace(line[|line| - 1])
    ensures Strip(line[|line| - 1..|line|]) == ""
  {
    assert IsBlank(line[|line| - 1..|line|]);
  }

  // ----- Sections -------------------------------------------------------

  /** A line of the document, classified once: a heading with its title, or
      body text. */
  datatype Line = HeadingLine(title: string) | TextLine(text: string)

  function Classify(line: string): (r: Line)
    ensures r.HeadingLine? <==> HeadingTitle(line).Some?
    ensures r.HeadingLine? ==> r.title == HeadingTitle(line).value
    ensures r.TextLine? ==> r.text == line
  {
    match HeadingTitle(line)
    case Some(t) => HeadingLine(t)
    case None => TextLine(line)
  }

  function ClassifyAll(lines: seq<string>): (r: seq<Line>)
    ensures |r| == |lines|
    decreases |lines|
  {
    if lines == [] then [] else [Classify(lines[0])] + ClassifyAll(lines[1..])
  }

  /** Line `i` is classified on its own. */
  lemma {:induction false} ClassifyAllAt(lines: seq<string>, i: nat)
    requires i < |lines|
    ensures ClassifyAll(lines)[i] == Classify(lines[i])
    decreases |lines|
  {
    if i > 0 {
      ClassifyAllAt(lines[1..], i - 1);
    }
  }

  /** Every section the loop of `_split_by_headers` builds, blank ones
      included, from the current section `cur` and the remaining lines. */
  function Grouped(items: seq<Line>, cur: Section): (r: seq<Section>)
    ensures |r| >= 1 && r[0].title == cur.title
    decreases |items|
  {
    if items == [] then [cur]
    else
      match items[0]
      case HeadingLine(t) => [cur] + Grouped(items[1..], Section(t, ""))
      case TextLine(l) => Grouped(items[1..], Section(cur.title, cur.content + l + "\n"))
  }

  /** The sections whose content is not whitespace only, in order. */
  function Kept(ss: seq<Section>): (r: seq<Section>)
    ensures |r| <= |ss|
    ensures forall k :: 0 <= k < |r| ==> r[k] in ss && !IsBlank(r[k].content)
    decreases |ss|
  {
    if ss == [] then []
    else if IsBlank(ss[0].content) then Kept(ss[1..])
    else [ss[0]] + Kept(ss[1..])
  }

  /** The lines of a document, classified. */
  function LinesOf(content: string): seq<Line> {
    ClassifyAll(SplitOn(content, {'\n'}))
  }

  /** `_split_by_headers(content)` as a value. */
  function SectionsOf(content: string): seq<Section> {
    Kept(Grouped(LinesOf(content), Introduction))
  }

  /** Every body line followed by a line feed, in order. */
  function Body(items: seq<Line>): string
    decreases |items|
  {
    if items == [] then ""
    else
      match items[0]
      case HeadingLine(_) => Body(items[1..])
      case TextLine(l) => l + "\n" + Body(items[1..])
  }

  /** The titles of the heading lines, in order. */
  function HeadingTitles(items: seq<Line>): seq<string>
    decreases |items|
  {
    if items == [] then []
    else
      match items[0]
      case HeadingLine(t) => [t] + HeadingTitles(items[1..])
      case TextLine(_) => HeadingTitles(items[1..])
  }

  function Contents(ss: seq<Section>): string
    decreases |ss|
  {
    if ss == [] then "" else ss[0].content + Contents(ss[1..])
  }

  function Titles(ss: seq<Section>): (r: seq<string>)
    ensures |r| == |ss| && forall k :: 0 <= k < |ss| ==> r[k] == ss[k].title
  {
    seq(|ss|, k requires 0 <= k < |ss| => ss[k].title)
  }

  /** Header splitting loses nothing: the bodies of all sections, the blank
      ones included, are every non-heading line with its line feed, in the
      original order. */
  lemma {:induction false} GroupedLossless(items: seq<Line>, cur: Section)
    ensures Contents(Grouped(items, cur)) == cur.content + Body(items)
    decreases |items|
  {
    if items != [] {
      match items[0]
      case HeadingLine(t) =>
        GroupedLossless(items[1..], Section(t, ""));
        var g := Grouped(items[1..], Section(t, ""));
        assert ([cur] + g)[1..] == g;
      case TextLine(l) =>
        GroupedLossless(items[1..], Section(cur.title, cur.content + l + "\n"));
    }
  }

  /** The first section is the current one, and each heading line opens one
      more section, titled by the heading. */
  lemma {:induction false} GroupedTitles(items: seq<Line>, cur: Section)
    ensures Titles(Grouped(items, cur)) == [cur.title] + HeadingTitles(items)
    decreases |items|
  {
    if items != [] {
      match items[0]
      case HeadingLine(t) =>
        GroupedTitles(items[1..], Section(t, ""));
        var g := Grouped(items[1..], Section(t, ""));
        assert Titles([cur] + g) == [cur.title] + Titles(g);
      case TextLine(l) =>
        GroupedTitles(items[1..], Section(cur.title, cur.content + l + "\n"));
    }
  }

  /** Sections of a document: none is blank, each is titled `"Introduction"`
      or by a heading of the text, and together with the dropped blank
      sections they hold exactly the body lines. */
  lemma SectionsOfShape(content: string)
    ensures forall k :: 0 <= k < |SectionsOf(content)| ==> !IsBlank(SectionsOf(content)[k].content)
    ensures forall k :: 0 <= k < |SectionsOf(content)| ==>
      SectionsOf(content)[k].title in [Introduction.title] + HeadingTitles(LinesOf(content))
    ensures Contents(Grouped(LinesOf(content), Introduction)) == Body(LinesOf(content))
    ensures var g := Grouped(LinesOf(content), Introduction); var ix := KeptIndices(g);
      && |SectionsOf(content)| == |ix|
      && (forall k :: 0 <= k < |ix| ==> ix[k] < |g| && SectionsOf(content)[k] == g[ix[k]])
      && (forall k, l :: 0 <= k < l < |ix| ==> ix[k] < ix[l])
      && (forall i :: 0 <= i < |g| && !IsBlank(g[i].content) ==> i in ix)
  {
    var items := LinesOf(content);
    var g := Grouped(items, Introduction);
    KeptAt(g);
    GroupedTitles(items, Introduction);
    GroupedLossless(items, Introduction);
    forall k | 0 <= k < |SectionsOf(content)|
      ensures SectionsOf(content)[k].title in [Introduction.title] + HeadingTitles(items)
    {
      var s := SectionsOf(content)[k];
      var j :| 0 <= j < |g| && g[j] == s;
      assert Titles(g)[j] == s.title;
    }
  }

  /** The positions in `ss` of the sections that `Kept` keeps, in order. */
  function KeptIndices(ss: seq<Section>): seq<nat>
    decreases |ss|
  {
    if ss == [] then []
    else KeptIndices(ss[..|ss| - 1]) + (if IsBlank(ss[|ss| - 1].content) then [] else [|ss| - 1])
  }

  /** Keeping sections works from the back as well. */
  lemma {:induction false} KeptSnoc(ss: seq<Section>, s: Section)
    ensures Kept(ss + [s]) == Kept(ss) + (if IsBlank(s.content) then [] else [s])
    decreases |ss|
  {
    if ss == [] {
      assert [] + [s] == [s] + [];
      KeptCons(s, []);
    } else {
      assert ss + [s] == [ss[0]] + (ss[1..] + [s]);
      assert ss == [ss[0]] + ss[1..];
      KeptCons(ss[0], ss[1..] + [s]);
      KeptCons(ss[0], ss[1..]);
      KeptSnoc(ss[1..], s);
    }
  }

  /** `Kept` keeps one section per kept index, and the `k`-th kept section
      is the one at the `k`-th kept index. */
  lemma {:induction false} KeptSelects(ss: seq<Section>)
    ensures |Kept(ss)| == |KeptIndices(ss)|
    ensures forall k :: 0 <= k < |KeptIndices(ss)| ==> KeptIndices(ss)[k] < |ss| && Kept(ss)[k] == ss[KeptIndices(ss)[k]]
    decreases |ss|
  {
    if ss != [] {
      var p := ss[..|ss| - 1];
      var s := ss[|ss| - 1];
      assert ss == p + [s];
      KeptSelects(p);
      KeptSnoc(p, s);
      forall k | 0 <= k < |KeptIndices(ss)|
        ensures KeptIndices(ss)[k] < |ss| && Kept(ss)[k] == ss[KeptIndices(ss)[k]]
      {
        if k < |KeptIndices(p)| {
          assert KeptIndices(ss)[k] == KeptIndices(p)[k];
          assert Kept(ss)[k] == Kept(p)[k];
        }
      }
    }
  }

  /** The kept indices lie in `ss` and increase. */
  lemma {:induction false} KeptIndicesIncreasing(ss: seq<Section>)
    ensures forall x :: x in KeptIndices(ss) ==> x < |ss|
    ensures forall k, l :: 0 <= k < l < |KeptIndices(ss)| ==> KeptIndices(ss)[k] < KeptIndices(ss)[l]
    decreases |ss|
  {
    if ss != [] {
      var p := ss[..|ss| - 1];
      KeptIndicesIncreasing(p);
      var ix := KeptIndices(ss);
      var ip := KeptIndices(p);
      assert ix == ip + (if IsBlank(ss[|ss| - 1].content) then [] else [|ss| - 1]);
      forall k, l | 0 <= k < l < |ix|
        ensures ix[k] < ix[l]
      {
        if l >= |ip| {
          assert ix[k] == ip[k] && ip[k] in ip;
        } else {
          assert ix[k] == ip[k] && ix[l] == ip[l];
        }
      }
    }
  }

  /** No section that is not blank is dropped. */
  lemma {:induction false} KeptCovers(ss: seq<Section>)
    ensures forall i :: 0 <= i < |ss| && !IsBlank(ss[i].content) ==> i in KeptIndices(ss)
    decreases |ss|
  {
    if ss != [] {
      var p := ss[..|ss| - 1];
      KeptCovers(p);
      forall i | 0 <= i < |ss| && !IsBlank(ss[i].content)
        ensures i in KeptIndices(ss)
      {
        if i < |p| {
          assert p[i] == ss[i] && i in KeptIndices(p);
        }
      }
    }
  }

  /** `Kept` drops exactly the blank sections and keeps the others in order:
      its `k`-th result is the section at the `k`-th kept index, the indices
      increase, and every section that is not blank has its index among them. */
  lemma KeptAt(ss: seq<Section>)
    ensures |Kept(ss)| == |KeptIndices(ss)|
    ensures forall k :: 0 <= k < |KeptIndices(ss)| ==> KeptIndices(ss)[k] < |ss| && Kept(ss)[k] == ss[KeptIndices(ss)[k]]
    ensures forall k, l :: 0 <= k < l < |KeptIndices(ss)| ==> KeptIndices(ss)[k] < KeptIndices(ss)[l]
    ensures forall i :: 0 <= i < |ss| && !IsBlank(ss[i].content) ==> i in KeptIndices(ss)
  {
    KeptSelects(ss);
    KeptIndicesIncreasing(ss);
    KeptCovers(ss);
  }

  /** Where the first heading line is, or `|items|` when there is none. */
  function FirstHeading(items: seq<Line>): (n: nat)
    ensures n <= |items|
    ensures n < |items| ==> items[n].HeadingLine?
    ensures forall j :: 0 <= j < n ==> items[j].TextLine?
    decreases |items|
  {
    if items == [] || items[0].HeadingLine? then 0 else 1 + FirstHeading(items[1..])
  }

  /** The current section takes every body line up to the next heading line;
      that heading opens the next section, which starts out empty. */
  lemma {:induction false} GroupedSplit(items: seq<Line>, cur: Section)
    ensures Grouped(items, cur) ==
      [Section(cur.title, cur.content + Body(items[..FirstHeading(items)]))] +
      (if FirstHeading(items) < |items|
       then Grouped(items[FirstHeading(items) + 1..], Section(items[FirstHeading(items)].title, ""))
       else [])
    decreases |items|
  {
    var n := FirstHeading(items);
    if items == [] || items[0].HeadingLine? {
      assert items[..n] == [] && cur.content + Body([]) == cur.content;
    } else {
      var l := items[0].text;
      var next := Section(cur.title, cur.content + l + "\n");
      var tail := items[1..];
      GroupedSplit(tail, next);
      var m := FirstHeading(tail);
      assert n == m + 1;
      assert items[..n][0] == items[0] && items[..n][1..] == tail[..m];
      assert Body(items[..n]) == l + "\n" + Body(tail[..m]);
      assert next.content + Body(tail[..m]) == cur.content + Body(items[..n]);
      if n < |items| {
        assert tail[m + 1..] == items[n + 1..] && tail[m] == items[n];
      }
    }
  }

  /** A heading line cuts the sections in two: those of the lines before it,
      then those it opens. */
  lemma {:induction false} GroupedCut(items: seq<Line>, cur: Section, i: nat)
    requires i < |items| && items[i].HeadingLine?
    ensures Grouped(items, cur) == Grouped(items[..i], cur) + Grouped(items[i + 1..], Section(items[i].title, ""))
    decreases i
  {
    var tail := items[1..];
    var after := Grouped(items[i + 1..], Section(items[i].title, ""));
    if i == 0 {
      assert items[..i] == [] && tail == items[i + 1..];
    } else {
      var next := match items[0]
        case HeadingLine(t) => Section(t, "")
        case TextLine(l) => Section(cur.title, cur.content + l + "\n");
      var front: seq<Section> := if items[0].HeadingLine? then [cur] else [];
      assert Grouped(items, cur) == front + Grouped(tail, next);
      assert items[..i][0] == items[0] && items[..i][1..] == tail[..i - 1];
      assert Grouped(items[..i], cur) == front + Grouped(tail[..i - 1], next);
      assert tail[i - 1] == items[i] && tail[i - 1 + 1..] == items[i + 1..];
      GroupedCut(tail, next, i - 1);
      assert Grouped(tail, next) == Grouped(tail[..i - 1], next) + after;
      assert front + (Grouped(tail[..i - 1], next) + after) == (front + Grouped(tail[..i - 1], next)) + after;
    }
  }

  /** The section opened by heading line `i` comes after one section per
      earlier heading and the first one, and holds exactly the body lines
      between that heading and the next. */
  lemma GroupedAt(items: seq<Line>, cur: Section, i: nat)
    requires i < |items| && items[i].HeadingLine?
    ensures 1 + |HeadingTitles(items[..i])| < |Grouped(items, cur)|
    ensures Grouped(items, cur)[1 + |HeadingTitles(items[..i])|] ==
      Section(items[i].title, Body(items[i + 1..][..FirstHeading(items[i + 1..])]))
  {
    var before := Grouped(items[..i], cur);
    var rest := items[i + 1..];
    var after := Grouped(rest, Section(items[i].title, ""));
    GroupedCut(items, cur, i);
    GroupedTitles(items[..i], cur);
    assert |before| == |Titles(before)| == 1 + |HeadingTitles(items[..i])|;
    GroupedSplit(rest, Section(items[i].title, ""));
    assert after[0] == Section(items[i].title, "" + Body(rest[..FirstHeading(rest)]));
    assert (before + after)[|before|] == after[0];
  }

  /** The sections of a document, blank ones included: `"Introduction"` holds
      the body lines before the first heading, and the section of the `j`-th
      heading line holds the body lines from it to the next heading. */
  lemma GroupedOfDocument(content: string)
    ensures |Grouped(LinesOf(content), Introduction)| == 1 + |HeadingTitles(LinesOf(content))|
    ensures Grouped(LinesOf(content), Introduction)[0] ==
      Section(Introduction.title, Body(LinesOf(content)[..FirstHeading(LinesOf(content))]))
    ensures forall i :: 0 <= i < |LinesOf(content)| && LinesOf(content)[i].HeadingLine? ==>
      1 + |HeadingTitles(LinesOf(content)[..i])| < |Grouped(LinesOf(content), Introduction)| &&
      Grouped(LinesOf(content), Introduction)[1 + |HeadingTitles(LinesOf(content)[..i])|] ==
        Section(LinesOf(content)[i].title,
                Body(LinesOf(content)[i + 1..][..FirstHeading(LinesOf(content)[i + 1..])]))
  {
    var items := LinesOf(content);
    GroupedTitles(items, Introduction);
    GroupedSplit(items, Introduction);
    forall i | 0 <= i < |items| && items[i].HeadingLine?
      ensures 1 + |HeadingTitles(items[..i])| < |Grouped(items, Introduction)| &&
        Grouped(items, Introduction)[1 + |HeadingTitles(items[..i])|] ==
        Section(items[i].title, Body(items[i + 1..][..FirstHeading(items[i + 1..])]))
    {
      GroupedAt(items, Introduction, i);
    }
  }

  // ----- Word windows ---------------------------------------------------

  /** The windows `words[i:i+size]` for `i` in `range(from, len(words), step)`. */
  function Windows(words: seq<string>, from: nat, size: nat, step: nat): (r: seq<seq<string>>)
    requires step >= 1
    decreases |words| - from
  {
    if from >= |words| then []
    else
      var e := if from + size <= |words| then from + size else |words|;
      [words[from..e]] + Windows(words, from + step, size, step)
  }

  function Min(a: nat, b: nat): nat {
    if a <= b then a else b
  }

  /** Where window `k` starts, relative to the first one: `k * step`. */
  function Offset(k: nat, step: nat): nat {
    k * step
  }

  /** Window `k` starts at word `from + k*step` and holds the next `size`
      words, or the rest of them when fewer remain. */
  lemma {:induction false} WindowAt(words: seq<string>, from: nat, size: nat, step: nat, k: nat)
    requires step >= 1
    requires k < |Windows(words, from, size, step)|
    ensures from + Offset(k, step) < |words|
    ensures Windows(words, from, size, step)[k] == words[from + Offset(k, step) .. Min(from + Offset(k, step) + size, |words|)]
    decreases k
  {
    var r := Windows(words, from, size, step);
    if k > 0 {
      var rest := Windows(words, from + step, size, step);
      assert r[k] == rest[k - 1];
      WindowAt(words, from + step, size, step, k - 1);
      assert from + step + Offset(k - 1, step) == from + Offset(k, step);
    }
  }

  /** There are as many windows as steps needed to pass the last word:
      `ceil((len(words) - from) / step)`, stated without division. */
  lemma {:induction false} WindowCount(words: seq<string>, from: nat, size: nat, step: nat)
    requires step >= 1
    ensures var n := |Windows(words, from, size, step)|;
      if from < |words| then n * step >= |words| - from && (n - 1) * step < |words| - from
      else n == 0
    decreases |words| - from
  {
    if from < |words| {
      var n := |Windows(words, from, size, step)|;
      var m := |Windows(words, from + step, size, step)|;
      WindowCount(words, from + step, size, step);
      assert n == m + 1;
      assert n * step == m * step + step;
    }
  }

  /** The first `step` words of every window but the last, then the whole last
      window: the words the windows were cut from. */
  function Rebuild(ws: seq<seq<string>>, step: nat): seq<string>
    decreases |ws|
  {
    if ws == [] then []
    else if |ws| == 1 then ws[0]
    else ws[0][..Min(step, |ws[0]|)] + Rebuild(ws[1..], step)
  }

  /** With overlapping windows (`step <= size`), the windows cover the words
      without gaps: rebuilding them gives the words back. */
  lemma {:induction false} WindowsRebuild(words: seq<string>, from: nat, size: nat, step: nat)
    requires 1 <= step <= size
    requires from <= |words|
    ensures Rebuild(Windows(words, from, size, step), step) == words[from..]
    decreases |words| - from
  {
    if from < |words| {
      var r := Windows(words, from, size, step);
      var rest := Windows(words, from + step, size, step);
      assert r[1..] == rest;
      if from + step < |words| {
        WindowsRebuild(words, from + step, size, step);
        assert |rest| >= 1;
        assert words[from..][..step] + words[from + step..] == words[from..];
      } else {
        assert rest == [];
      }
    }
  }

  /** `' '.join(window)` for every window, in order. */
  function JoinAll(ws: seq<seq<string>>): (r: seq<string>)
    ensures |r| == |ws|
    decreases |ws|
  {
    if ws == [] then [] else [JoinWith(" ", ws[0])] + JoinAll(ws[1..])
  }

  /** Each window is joined with single spaces, in order. */
  lemma {:induction false} JoinAllAt(ws: seq<seq<string>>, k: nat)
    requires k < |ws|
    ensures JoinAll(ws)[k] == JoinWith(" ", ws[k])
    decreases |ws|
  {
    if k > 0 {
      JoinAllAt(ws[1..], k - 1);
    }
  }

  /** One turn of the loop of `_split_text`: the window at `i` is the next
      chunk, and the rest start at `i + step`. */
  lemma SplitStep(words: seq<string>, i: nat, size: nat, step: nat, chunks: seq<string>, total: seq<string>,
                  e: nat, piece: string)
    requires step >= 1 && i < |words|
    requires e == (if i + size <= |words| then i + size else |words|)
    requires piece == JoinWith(" ", words[i..e])
    requires chunks + JoinAll(Windows(words, i, size, step)) == total
    ensures (chunks + [piece]) + JoinAll(Windows(words, i + step, size, step)) == total
  {
    var rest := Windows(words, i + step, size, step);
    assert Windows(words, i, size, step) == [words[i..e]] + rest;
    assert ([words[i..e]] + rest)[1..] == rest;
    assert JoinAll([words[i..e]] + rest) == [piece] + JoinAll(rest);
    assert chunks + [piece] + JoinAll(rest) == chunks + ([piece] + JoinAll(rest));
  }

  /** `_split_text(text)` as a value. */
  function TextWindows(text: string, size: nat, overlap: nat): seq<string>
    requires overlap < size
  {
    JoinAll(Windows(Words(text), 0, size, size - overlap))
  }

  /** There is one chunk of a split text per step needed to pass its last
      word, and none for a text without words. */
  lemma TextWindowCount(text: string, size: nat, overlap: nat)
    requires overlap < size
    ensures var n := |Words(text)|;
      var r := TextWindows(text, size, overlap);
      && (n == 0 <==> r == [])
      && (n > 0 ==> |r| * (size - overlap) >= n && (|r| - 1) * (size - overlap) < n)
  {
    WindowCount(Words(text), 0, size, size - overlap);
  }

  /** Chunk `k` of a split text is the window of words `k*step` up to
      `k*step + size` joined by single spaces: splitting it at whitespace
      gives the window back, so it has between 1 and `size` words, and it is
      not blank. */
  lemma TextWindowAt(text: string, size: nat, overlap: nat, k: nat)
    requires overlap < size
    requires k < |TextWindows(text, size, overlap)|
    ensures var words := Words(text);
      var lo := Offset(k, size - overlap);
      var c := TextWindows(text, size, overlap)[k];
      && lo < |words|
      && Words(c) == words[lo .. Min(lo + size, |words|)]
      && 1 <= |Words(c)| <= size
      && !IsBlank(c)
  {
    var words := Words(text);
    var step := size - overlap;
    var ws := Windows(words, 0, size, step);
    WindowAt(words, 0, size, step, k);
    var lo, hi := Offset(k, step), Min(Offset(k, step) + size, |words|);
    var c := TextWindows(text, size, overlap)[k];
    JoinAllAt(ws, k);
    assert c == JoinWith(" ", words[lo..hi]);
    WindowOfWords(words, lo, hi);
  }

  /** A non-empty run of words joined by single spaces splits back into the
      same words and is not blank. */
  lemma WindowOfWords(words: seq<string>, lo: nat, hi: nat)
    requires lo < hi <= |words|
    requires forall j :: 0 <= j < |words| ==> IsWord(words[j])
    ensures Words(JoinWith(" ", words[lo..hi])) == words[lo..hi]
    ensures !IsBlank(JoinWith(" ", words[lo..hi]))
  {
    var w := words[lo..hi];
    assert forall j :: 0 <= j < |w| ==> w[j] == words[lo + j];
    WordsOfJoin(w);
    JoinOfWordsNotBlank(w);
  }

  /** A non-empty list of words joins into text that is not blank. */
  lemma JoinOfWordsNotBlank(ws: seq<string>)
    requires ws != [] && forall k :: 0 <= k < |ws| ==> IsWord(ws[k])
    ensures !IsBlank(JoinWith(" ", ws))
  {
    var j := JoinWith(" ", ws);
    assert |ws| == 1 || j == ws[0] + " " + JoinWith(" ", ws[1..]);
    assert j[0] == ws[0][0];
  }

  // ----- Chunks ---------------------------------------------------------

  function Subsections(texts: seq<string>, meta: DocMetadata, title: string): (r: seq<Chunk>)
    ensures |r| == |texts|
    ensures forall i :: 0 <= i < |r| ==>
      r[i] == Chunk(texts[i], ChunkMetadata(meta, title, SubsectionChunk, Some(i)))
  {
    seq(|texts|, i requires 0 <= i < |texts| =>
      Chunk(texts[i], ChunkMetadata(meta, title, SubsectionChunk, Some(i))))
  }

  /** The chunks of one section: the section itself when its text has at most
      `size` characters, otherwise its word windows numbered from 0. */
  function SectionChunks(sec: Section, meta: DocMetadata, size: nat, overlap: nat): seq<Chunk>
    requires overlap < size
  {
    if |sec.content| <= size then [Chunk(sec.content, ChunkMetadata(meta, sec.title, SectionChunk, None))]
    else Subsections(TextWindows(sec.content, size, overlap), meta, sec.title)
  }

  /** The chunks of the sections, section after section. */
  function AllChunks(secs: seq<Section>, meta: DocMetadata, size: nat, overlap: nat): seq<Chunk>
    requires overlap < size
    decreases |secs|
  {
    if secs == [] then []
    else AllChunks(secs[..|secs| - 1], meta, size, overlap) + SectionChunks(secs[|secs| - 1], meta, size, overlap)
  }

  /** One more section adds its own chunks at the end. */
  lemma AllChunksStep(secs: seq<Section>, k: nat, meta: DocMetadata, size: nat, overlap: nat)
    requires overlap < size && k < |secs|
    ensures AllChunks(secs[..k + 1], meta, size, overlap)
      == AllChunks(secs[..k], meta, size, overlap) + SectionChunks(secs[k], meta, size, overlap)
  {
    assert secs[..k + 1][..k] == secs[..k];
  }

  /** `chunk_document(document)` as a value. */
  function DocumentChunks(doc: ParsedDocument, size: nat, overlap: nat): seq<Chunk>
    requires overlap < size
  {
    AllChunks(SectionsOf(doc.content), doc.metadata, size, overlap)
  }

  /** A short section is one `"section"` chunk with the section text
      unchanged; a long one gives `"subsection"` chunks numbered 0, 1, 2, …,
      at least one since the section is not blank. Every chunk keeps the
      parent metadata and the section title, and none is blank. */
  lemma SectionChunksShape(sec: Section, meta: DocMetadata, size: nat, overlap: nat)
    requires overlap < size
    requires !IsBlank(sec.content)
    ensures var r := SectionChunks(sec, meta, size, overlap);
      && (|sec.content| <= size ==>
            r == [Chunk(sec.content, ChunkMetadata(meta, sec.title, SectionChunk, None))])
      && (|sec.content| > size ==>
            |r| >= 1 && forall i :: 0 <= i < |r| ==>
              r[i].metadata.chunkType == SubsectionChunk && r[i].metadata.chunkIndex == Some(i))
      && forall i :: 0 <= i < |r| ==>
           r[i].metadata.parent == meta && r[i].metadata.sectionTitle == sec.title
           && !IsBlank(r[i].content)
  {
    if |sec.content| > size {
      var texts := TextWindows(sec.content, size, overlap);
      TextWindowCount(sec.content, size, overlap);
      WordsNonEmpty(sec.content);
      forall i | 0 <= i < |texts| ensures !IsBlank(texts[i]) {
        TextWindowAt(sec.content, size, overlap, i);
      }
    }
  }

  /** Text that is not blank has at least one word. */
  lemma {:induction false} WordsNonEmpty(s: string)
    requires !IsBlank(s)
    ensures Words(s) != []
    decreases |s|
  {
    if IsSpace(s[0]) {
      assert !IsBlank(s[1..]) by {
        var i :| 0 <= i < |s| && !IsSpace(s[i]);
        assert s[1..][i - 1] == s[i];
      }
      WordsNonEmpty(s[1..]);
    }
  }

  /** The chunk carries the document's metadata and the title of one of the
      sections, and is not blank. */
  ghost predicate ChunkOfSections(c: Chunk, meta: DocMetadata, secs: seq<Section>) {
    c.metadata.parent == meta && !IsBlank(c.content)
    && exists k :: 0 <= k < |secs| && c.metadata.sectionTitle == secs[k].title
  }

  /** In the chunks of a document, every chunk carries the document's
      metadata and the title of a section it came from, and none is blank. */
  lemma {:induction false} AllChunksShape(secs: seq<Section>, meta: DocMetadata, size: nat, overlap: nat)
    requires overlap < size
    requires forall k :: 0 <= k < |secs| ==> !IsBlank(secs[k].content)
    ensures forall i :: 0 <= i < |AllChunks(secs, meta, size, overlap)| ==>
      ChunkOfSections(AllChunks(secs, meta, size, overlap)[i], meta, secs)
    decreases |secs|
  {
    if secs != [] {
      var init := secs[..|secs| - 1];
      var last := secs[|secs| - 1];
      AllChunksShape(init, meta, size, overlap);
      SectionChunksShape(last, meta, size, overlap);
      var a: seq<Chunk> := AllChunks(init, meta, size, overlap);
      var b: seq<Chunk> := SectionChunks(last, meta, size, overlap);
      assert AllChunks(secs, meta, size, overlap) == a + b;
      forall i | 0 <= i < |a| + |b|
        ensures ChunkOfSections((a + b)[i], meta, secs)
      {
        if i < |a| {
          assert (a + b)[i] == a[i];
          assert ChunkOfSections(a[i], meta, init);
          var k :| 0 <= k < |init| && a[i].metadata.sectionTitle == init[k].title;
          assert secs[k] == init[k];
        } else {
          assert (a + b)[i] == b[i - |a|];
          assert secs[|secs| - 1] == last;
        }
      }
    }
  }

  /** `chunk_document` as a whole: every chunk carries the document's
      metadata, is not blank, and is titled `"Introduction"` or by a heading
      of the document. */
  lemma DocumentChunksShape(doc: ParsedDocument, size: nat, overlap: nat)
    requires overlap < size
    ensures forall i :: 0 <= i < |DocumentChunks(doc, size, overlap)| ==>
      && DocumentChunks(doc, size, overlap)[i].metadata.parent == doc.metadata
      && !IsBlank(DocumentChunks(doc, size, overlap)[i].content)
      && DocumentChunks(doc, size, overlap)[i].metadata.sectionTitle in
           [Introduction.title] + HeadingTitles(LinesOf(doc.content))
  {
    var secs := SectionsOf(doc.content);
    var chunks := DocumentChunks(doc, size, overlap);
    SectionsOfShape(doc.content);
    AllChunksShape(secs, doc.metadata, size, overlap);
    forall i | 0 <= i < |chunks|
      ensures chunks[i].metadata.sectionTitle in [Introduction.title] + HeadingTitles(LinesOf(doc.content))
    {
      assert ChunkOfSections(chunks[i], doc.metadata, secs);
      var k :| 0 <= k < |secs| && chunks[i].metadata.sectionTitle == secs[k].title;
    }
  }

  /** Keeping sections works one section at a time. */
  lemma KeptCons(c: Section, g: seq<Section>)
    ensures Kept([c] + g) == (if IsBlank(c.content) then [] else [c]) + Kept(g)
  {
    assert ([c] + g)[0] == c && ([c] + g)[1..] == g;
  }

  /** A heading line closes the current section and opens an empty one. */
  lemma GroupedHeading(items: seq<Line>, i: nat, cur: Section, t: string)
    requires i < |items| && items[i] == HeadingLine(t)
    ensures Grouped(items[i..], cur) == [cur] + Grouped(items[i + 1..], Section(t, ""))
  {
    assert items[i..][0] == items[i] && items[i..][1..] == items[i + 1..];
  }

  /** A body line is appended to the current section. */
  lemma GroupedText(items: seq<Line>, i: nat, cur: Section, l: string, next: Section)
    requires i < |items| && items[i] == TextLine(l)
    requires next == Section(cur.title, cur.content + l + "\n")
    ensures Grouped(items[i..], cur) == Grouped(items[i + 1..], next)
  {
    assert items[i..][0] == items[i] && items[i..][1..] == items[i + 1..];
  }

  /** The header test of the loop of `_split_by_headers`, on line `i`. */
  method ClassifyLine(lines: seq<string>, i: nat) returns (item: Line)
    requires i < |lines|
    ensures item == ClassifyAll(lines)[i]
  {
    item := Classify(lines[i]);
    ClassifyAllAt(lines, i);
  }

  class ChunkingEngine {
    const chunkSize: nat
    const chunkOverlap: nat

    /** The defaults are 500 and 50. The source accepts any pair; windows only
        advance when the overlap is below the size. */
    constructor(chunkSize: nat, chunkOverlap: nat)
      requires chunkOverlap < chunkSize
      ensures this.chunkSize == chunkSize && this.chunkOverlap == chunkOverlap
    {
      this.chunkSize := chunkSize;
      this.chunkOverlap := chunkOverlap;
    }

    /** `_split_by_headers`: a section is closed at every heading line and at
        the end, and kept only when its content is not blank. */
    method SplitByHeaders(content: string) returns (sections: seq<Section>)
      ensures sections == SectionsOf(content)
    {
      var lines := SplitOn(content, {'\n'});
      ghost var items := ClassifyAll(lines);
      var cur := Introduction;
      sections := [];
      for i := 0 to |lines|
        invariant sections + Kept(Grouped(items[i..], cur)) == SectionsOf(content)
      {
        var item := ClassifyLine(lines, i);
        match item
        case HeadingLine(t) =>
          GroupedHeading(items, i, cur, t);
          sections := CloseSection(sections, cur, Grouped(items[i + 1..], Section(t, "")), SectionsOf(content));
          cur := Section(t, "");
        case TextLine(l) =>
          var next := Section(cur.title, cur.content + l + "\n");
          GroupedText(items, i, cur, l, next);
          cur := next;
      }
      assert items[|lines|..] == [];
      sections := CloseSection(sections, cur, [], SectionsOf(content));
    }

    /** Closing a section: it is appended only when its content is not
        blank, and what is left to emit shrinks by exactly that section. */
    method CloseSection(sections: seq<Section>, cur: Section, ghost rest: seq<Section>, ghost total: seq<Section>)
      returns (closed: seq<Section>)
      requires sections + Kept([cur] + rest) == total
      ensures closed == sections + (if IsBlank(cur.content) then [] else [cur])
      ensures closed + Kept(rest) == total
    {
      KeptCons(cur, rest);
      if !IsBlank(cur.content) {
        assert sections + ([cur] + Kept(rest)) == (sections + [cur]) + Kept(rest);
        closed := sections + [cur];
      } else {
        assert sections + ([] + Kept(rest)) == sections + Kept(rest);
        closed := sections;
      }
    }

    /** `_split_text`: windows of `chunkSize` words, started every
        `chunkSize - chunkOverlap` words, each joined by single spaces. */
    method SplitText(text: string) returns (chunks: seq<string>)
      requires chunkOverlap < chunkSize
      ensures chunks == TextWindows(text, chunkSize, chunkOverlap)
    {
      var words := Words(text);
      var step := chunkSize - chunkOverlap;
      chunks := [];
      var i := 0;
      while i < |words|
        invariant chunks + JoinAll(Windows(words, i, chunkSize, step)) == TextWindows(text, chunkSize, chunkOverlap)
        decreases |words| - i
      {
        var e := if i + chunkSize <= |words| then i + chunkSize else |words|;
        var piece := JoinWith(" ", words[i..e]);
        SplitStep(words, i, chunkSize, step, chunks, TextWindows(text, chunkSize, chunkOverlap), e, piece);
        chunks := chunks + [piece];
        i := i + step;
      }
    }

    /** `chunk_document`: the chunks of every section, section after section. */
    method ChunkDocument(doc: ParsedDocument) returns (chunks: seq<Chunk>)
      requires chunkOverlap < chunkSize
      ensures chunks == DocumentChunks(doc, chunkSize, chunkOverlap)
    {
      var sections := SplitByHeaders(doc.content);
      chunks := [];
      for k := 0 to |sections|
        invariant chunks == AllChunks(sections[..k], doc.metadata, chunkSize, chunkOverlap)
      {
        var sectionChunks := ChunkSection(sections[k], doc.metadata);
        AllChunksStep(sections, k, doc.metadata, chunkSize, chunkOverlap);
        chunks := chunks + sectionChunks;
      }
      assert sections[..|sections|] == sections;
    }

    /** The body of the loop of `chunk_document` for one section: the section
        as it is when short enough, otherwise its numbered word windows. */
    method ChunkSection(section: Section, meta: DocMetadata) returns (chunks: seq<Chunk>)
      requires chunkOverlap < chunkSize
      ensures chunks == SectionChunks(section, meta, chunkSize, chunkOverlap)
    {
      if |section.content| <= chunkSize {
        chunks := [Chunk(section.content, ChunkMetadata(meta, section.title, SectionChunk, None))];
      } else {
        var texts := SplitText(section.content);
        ghost var subs := Subsections(texts, meta, section.title);
        chunks := [];
        for i := 0 to |texts|
          invariant chunks == subs[..i]
        {
          assert subs[..i + 1] == subs[..i] + [subs[i]];
          chunks := chunks + [Chunk(texts[i], ChunkMetadata(meta, section.title, SubsectionChunk, Some(i)))];
        }
        assert subs[..|texts|] == subs;
      }
    }
  }
}
