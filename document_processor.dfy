/** DocumentProcessor: the character-window chunker used by the upload path.
    The text is first normalised (every whitespace run becomes one space,
    then the ends are trimmed); windows of `chunkSize` characters are then
    pulled back to a sentence end when one lies inside, and consecutive
    windows overlap by `chunkOverlap` characters. */
module DocumentProcessor {
  import opened Wrappers
  import opened Text

  // ----- Whitespace normalisation ---------------------------------------

  /** `re.sub(r'\s+', ' ', s)`: every maximal whitespace run becomes one
      space. */
  function Collapse(s: string): string
    decreases |s|
  {
    if s == [] then []
    else if IsSpace(s[0]) then " " + Collapse(s[SpaceRun(s, 0)..])
    else [s[0]] + Collapse(s[1..])
  }

  /** `re.sub(r'\s+', ' ', text).strip()`. */
  function Normalize(s: string): string {
    Strip(Collapse(s))
  }

  lemma {:induction false} CollapseWord(w: string, t: string)
    requires forall i :: 0 <= i < |w| ==> !IsSpace(w[i])
    ensures Collapse(w + t) == w + Collapse(t)
    decreases |w|
  {
    if w != [] {
      assert w + t == [w[0]] + (w[1..] + t);
      CollapseNonSpace(w[0], w[1..] + t);
      CollapseWord(w[1..], t);
      assert [w[0]] + (w[1..] + Collapse(t)) == w + Collapse(t);
    } else {
      assert w + t == t && w + Collapse(t) == Collapse(t);
    }
  }

  lemma CollapseNonSpace(c: char, r: string)
    requires !IsSpace(c)
    ensures Collapse([c] + r) == [c] + Collapse(r)
  {
    assert ([c] + r)[1..] == r;
  }

  lemma {:induction false} WordsSkipSpaces(s: string, k: nat)
    requires k <= |s| && forall i :: 0 <= i < k ==> IsSpace(s[i])
    ensures Words(s) == Words(s[k..])
    decreases k
  {
    if k > 0 {
      WordsSkipSpaces(s[1..], k - 1);
      assert s[1..][k - 1..] == s[k..];
    }
  }

  /** The collapsed text is the words joined by single spaces, with at most
      one space before (exactly one when the text starts with whitespace and
      has a word) and some whitespace after. */
  lemma {:induction false} CollapseShape(s: string) returns (lead: string, trail: string)
    ensures Collapse(s) == lead + JoinWith(" ", Words(s)) + trail
    ensures IsBlank(lead) && IsBlank(trail)
    ensures Words(s) != [] ==> lead == (if IsSpace(s[0]) then " " else "")
    decreases |s|, 1
  {
    if s == [] {
      lead, trail := "", "";
    } else if IsSpace(s[0]) {
      lead, trail := CollapseShapeSpace(s);
    } else {
      lead, trail := CollapseShapeWord(s);
    }
  }

  lemma {:induction false} CollapseShapeSpace(s: string) returns (lead: string, trail: string)
    requires s != [] && IsSpace(s[0])
    ensures Collapse(s) == lead + JoinWith(" ", Words(s)) + trail
    ensures IsBlank(lead) && IsBlank(trail)
    ensures Words(s) != [] ==> lead == " "
    decreases |s|, 0
  {
    var k := SpaceRun(s, 0);
    var rest := s[k..];
    assert Collapse(s) == " " + Collapse(rest);
    WordsSkipSpaces(s, k);
    var l, tr := CollapseShape(rest);
    var j := JoinWith(" ", Words(rest));
    Regroup(" ", l, j, tr);
    lead, trail := " " + l, tr;
    if Words(s) != [] {
      assert rest != [] && !IsSpace(rest[0]);
    }
  }

  lemma {:induction false} CollapseShapeWord(s: string) returns (lead: string, trail: string)
    requires s != [] && !IsSpace(s[0])
    ensures Collapse(s) == lead + JoinWith(" ", Words(s)) + trail
    ensures IsBlank(lead) && IsBlank(trail)
    ensures lead == ""
    decreases |s|, 0
  {
    var e := NonSpaceRun(s, 0);
    var w, t := s[..e], s[e..];
    assert s == w + t;
    CollapseWord(w, t);
    var l, tr := CollapseShape(t);
    var ws := Words(t);
    var j := JoinWith(" ", ws);
    assert Words(s) == [w] + ws;
    assert Collapse(s) == w + (l + j + tr);
    JoinCons(" ", w, ws);
    if ws == [] {
      lead, trail := "", l + tr;
      Regroup(w, l, j, tr);
    } else {
      assert t != [] && IsSpace(t[0]);
      lead, trail := "", tr;
      Regroup(w, l, j, tr);
    }
  }

  /** Joining a list that starts with `w`. */
  lemma JoinCons(sep: string, w: string, ws: seq<string>)
    ensures JoinWith(sep, [w] + ws) == if ws == [] then w else w + sep + JoinWith(sep, ws)
  {
    assert ([w] + ws)[1..] == ws;
  }

  lemma Regroup(a: string, b: string, c: string, d: string)
    ensures a + (b + c + d) == (a + b) + c + d
    ensures a + (b + c + d) == [] + (a + b + c) + d
    ensures c == [] ==> a + (b + c + d) == [] + a + (b + d)
  {
  }

  /** Words joined by single spaces neither start nor end with whitespace. */
  lemma {:induction false} JoinedWordsTrimmed(ws: seq<string>)
    requires forall k :: 0 <= k < |ws| ==> IsWord(ws[k])
    ensures var j := JoinWith(" ", ws);
      j == [] || (!IsSpace(j[0]) && !IsSpace(j[|j| - 1]))
    decreases |ws|
  {
    if |ws| > 1 {
      JoinedWordsTrimmed(ws[1..]);
      var rest := JoinWith(" ", ws[1..]);
      assert rest != [] by {
        assert ws[1..][0] == ws[1];
        JoinStartsWithFirst(ws[1..]);
      }
      var j := ws[0] + " " + rest;
      assert j[0] == ws[0][0];
      assert j[|j| - 1] == rest[|rest| - 1];
    }
  }

  lemma JoinStartsWithFirst(ws: seq<string>)
    requires ws != [] && IsWord(ws[0])
    ensures JoinWith(" ", ws) != [] && JoinWith(" ", ws)[0] == ws[0][0]
  {
    assert |ws| == 1 || JoinWith(" ", ws) == ws[0] + " " + JoinWith(" ", ws[1..]);
  }

  /** Normalising a text is joining its words with single spaces. */
  lemma NormalizeJoinsWords(s: string)
    ensures Normalize(s) == JoinWith(" ", Words(s))
  {
    var lead, trail := CollapseShape(s);
    JoinedWordsTrimmed(Words(s));
    StripAround(lead, JoinWith(" ", Words(s)), trail);
  }

  /** Normalising keeps the words and their order, and normalising twice
      changes nothing more. */
  lemma NormalizeKeepsWords(s: string)
    ensures Words(Normalize(s)) == Words(s)
    ensures Normalize(Normalize(s)) == Normalize(s)
  {
    NormalizeJoinsWords(s);
    WordsOfJoin(Words(s));
    NormalizeJoinsWords(Normalize(s));
  }

  // ----- Sentence boundaries --------------------------------------------

  /** A sentence mark `mark` followed by a space at `i`. */
  predicate MarkAt(t: string, i: nat, mark: char) {
    i + 2 <= |t| && t[i] == mark && t[i + 1] == ' '
  }

  /** `t.rfind(mark + " ", lo, hi)` for `hi <= len(t)`: the last position
      `i` with `lo <= i` and `i + 2 <= hi` where the mark and a space occur;
      `None` stands for `-1`. */
  function FindLast(t: string, mark: char, lo: nat, hi: nat): (r: Option<nat>)
    requires hi <= |t|
    ensures r.Some? ==> lo <= r.value && r.value + 2 <= hi
    decreases hi
  {
    if hi < lo + 2 then None
    else if MarkAt(t, hi - 2, mark) then Some(hi - 2)
    else FindLast(t, mark, lo, hi - 1)
  }

  /** `rfind` finds the last occurrence in the range, and `-1` exactly when
      there is none. */
  lemma {:induction false} FindLastSpec(t: string, mark: char, lo: nat, hi: nat)
    requires hi <= |t|
    ensures var r := FindLast(t, mark, lo, hi);
      && (r.Some? ==> MarkAt(t, r.value, mark) && forall i :: r.value < i && i + 2 <= hi ==> !MarkAt(t, i, mark))
      && (r.None? <==> forall i :: lo <= i && i + 2 <= hi ==> !MarkAt(t, i, mark))
    decreases hi
  {
    if hi >= lo + 2 && !MarkAt(t, hi - 2, mark) {
      FindLastSpec(t, mark, lo, hi - 1);
    }
  }

  /** The sentence-end search of `chunk_text`: the last `". "` in the window,
      only if there is none the last `"! "`, only if there is none of those
      either the last `"? "`. */
  function SentenceEnd(t: string, lo: nat, hi: nat): (r: Option<nat>)
    requires hi <= |t|
    ensures r.Some? ==> lo <= r.value && r.value + 2 <= hi
  {
    match FindLast(t, '.', lo, hi)
    case Some(i) => Some(i)
    case None =>
      match FindLast(t, '!', lo, hi)
      case Some(i) => Some(i)
      case None => FindLast(t, '?', lo, hi)
  }

  /** A place where a sentence ends inside `[lo, hi)`. */
  predicate SentenceMarkAt(t: string, i: nat) {
    MarkAt(t, i, '.') || MarkAt(t, i, '!') || MarkAt(t, i, '?')
  }

  /** The chosen boundary follows the priority `.` over `!` over `?`, not
      position: a full stop anywhere in the window wins over a later `!` or
      `?`, and a `!` over a later `?`. There is no boundary exactly when no
      mark followed by a space lies in the window. */
  lemma SentenceEndPriority(t: string, lo: nat, hi: nat)
    requires hi <= |t|
    ensures var r := SentenceEnd(t, lo, hi);
      && (r.None? <==> forall i :: lo <= i && i + 2 <= hi ==> !SentenceMarkAt(t, i))
      && (r.Some? ==> SentenceMarkAt(t, r.value))
      && ((exists i :: lo <= i && i + 2 <= hi && MarkAt(t, i, '.')) ==>
            r.Some? && MarkAt(t, r.value, '.')
            && forall i :: r.value < i && i + 2 <= hi ==> !MarkAt(t, i, '.'))
      && ((forall i :: lo <= i && i + 2 <= hi ==> !MarkAt(t, i, '.'))
          && (exists i :: lo <= i && i + 2 <= hi && MarkAt(t, i, '!')) ==>
            r.Some? && MarkAt(t, r.value, '!')
            && forall i :: r.value < i && i + 2 <= hi ==> !MarkAt(t, i, '!'))
      && ((forall i :: lo <= i && i + 2 <= hi ==> !MarkAt(t, i, '.') && !MarkAt(t, i, '!')) ==>
            r == FindLast(t, '?', lo, hi))
  {
    FindLastSpec(t, '.', lo, hi);
    FindLastSpec(t, '!', lo, hi);
    FindLastSpec(t, '?', lo, hi);
    var r := SentenceEnd(t, lo, hi);
    if r.Some? {
      assert SentenceMarkAt(t, r.value);
    }
  }

  // ----- Chunks ---------------------------------------------------------

  /** A chunk as `chunk_text` emits it; `endIdx` may lie past the text. */
  datatype TextChunk = TextChunk(chunkId: nat, text: string, startIdx: nat, endIdx: nat)

  /** How the loop of `chunk_text` ends. `Finished`: `start` reached the end
      of the text. `Stalled`: the next start would not lie after the current
      one. When it equals it, the source repeats the same window forever.
      When it lies before it but not below 0, the source goes back over text
      it has already cut. When it is below 0, Python reads it from the end
      of the text: `rfind` and the slice see an empty range, no chunk is
      emitted, and the loop goes on and may finish. The model follows none
      of these: it stops there and keeps the chunks emitted so far. */
  datatype ChunkRun = Finished(chunks: seq<TextChunk>) | Stalled(chunks: seq<TextChunk>, at: nat)

  /** Where a window starting at `start` ends: `start + size`, pulled back to
      just after the sentence mark when the window does not reach the end of
      the text and holds a boundary. */
  function WindowEnd(t: string, start: nat, size: nat): (e: nat)
    ensures start <= e <= start + size
    ensures size >= 1 ==> start < e
    ensures start + size >= |t| ==> e == start + size
  {
    var end := start + size;
    if end < |t| then
      match SentenceEnd(t, start, end)
      case Some(i) => i + 1
      case None => end
    else end
  }

  /** `end - overlap` while the text goes on, `end` once it is reached. */
  function NextStart(t: string, end: nat, overlap: nat): int {
    if end < |t| then end - overlap else end
  }

  function Min(a: nat, b: nat): nat {
    if a <= b then a else b
  }

  /** The windows `(start, end)` the loop visits from `start`, and where it
      stalls, if it does. */
  datatype Windows = Windows(spans: seq<(nat, nat)>, stalledAt: Option<nat>)

  function WindowsFrom(t: string, start: nat, size: nat, overlap: nat): Windows
    decreases |t| - start
  {
    if start >= |t| then Windows([], None)
    else
      var end := WindowEnd(t, start, size);
      var next := NextStart(t, end, overlap);
      if next <= start then Windows([(start, end)], Some(start))
      else
        var rest := WindowsFrom(t, next, size, overlap);
        Windows([(start, end)] + rest.spans, rest.stalledAt)
  }

  /** `text[a:b].strip()`, with Python's clipping of slice bounds. */
  function Piece(t: string, a: nat, b: nat): string {
    var hi := Min(b, |t|);
    if a <= hi then Strip(t[a..hi]) else ""
  }

  /** The stripped text of every window. */
  function PiecesOf(t: string, spans: seq<(nat, nat)>): (ps: seq<string>)
    ensures |ps| == |spans|
    decreases |spans|
  {
    if spans == [] then [] else [Piece(t, spans[0].0, spans[0].1)] + PiecesOf(t, spans[1..])
  }

  /** The chunks cut from a list of windows and their stripped texts: one
      per window whose text is not empty, numbered from `id`. */
  function ChunksOf(spans: seq<(nat, nat)>, pieces: seq<string>, id: nat): seq<TextChunk>
    requires |pieces| == |spans|
    decreases |spans|
  {
    if spans == [] then []
    else if |pieces[0]| > 0 then
      [TextChunk(id, pieces[0], spans[0].0, spans[0].1)] + ChunksOf(spans[1..], pieces[1..], id + 1)
    else ChunksOf(spans[1..], pieces[1..], id)
  }

  /** `chunk_text(text)` as a value. */
  function ChunkRunOf(text: string, size: nat, overlap: nat): ChunkRun {
    RunOf(Normalize(text), size, overlap)
  }

  /** The loop of `chunk_text` over the normalised text `t`. */
  function RunOf(t: string, size: nat, overlap: nat): ChunkRun {
    var w := WindowsFrom(t, 0, size, overlap);
    var cs := ChunksOf(w.spans, PiecesOf(t, w.spans), 0);
    match w.stalledAt
    case None => Finished(cs)
    case Some(a) => Stalled(cs, a)
  }

  lemma {:induction false} ChunksOfAppend(xs: seq<(nat, nat)>, ys: seq<(nat, nat)>, ps: seq<string>, qs: seq<string>, id: nat)
    requires |ps| == |xs| && |qs| == |ys|
    ensures ChunksOf(xs + ys, ps + qs, id) == ChunksOf(xs, ps, id) + ChunksOf(ys, qs, id + |ChunksOf(xs, ps, id)|)
    decreases |xs|
  {
    if xs != [] {
      assert (xs + ys)[0] == xs[0] && (ps + qs)[0] == ps[0];
      assert (xs + ys)[1..] == xs[1..] + ys && (ps + qs)[1..] == ps[1..] + qs;
      if |ps[0]| > 0 {
        ChunksOfAppend(xs[1..], ys, ps[1..], qs, id + 1);
      } else {
        ChunksOfAppend(xs[1..], ys, ps[1..], qs, id);
      }
    } else {
      assert xs + ys == ys && ps + qs == qs;
    }
  }

  lemma {:induction false} PiecesOfAppend(t: string, spans: seq<(nat, nat)>, a: nat, b: nat)
    ensures PiecesOf(t, spans + [(a, b)]) == PiecesOf(t, spans) + [Piece(t, a, b)]
    decreases |spans|
  {
    if spans == [] {
      assert [(a, b)][1..] == [];
    } else {
      PiecesOfAppend(t, spans[1..], a, b);
      assert (spans + [(a, b)])[1..] == spans[1..] + [(a, b)];
    }
  }

  lemma PiecesOfTail(t: string, spans: seq<(nat, nat)>)
    requires spans != []
    ensures PiecesOf(t, spans)[1..] == PiecesOf(t, spans[1..])
    ensures PiecesOf(t, spans)[0] == Piece(t, spans[0].0, spans[0].1)
  {
  }

  /** The windows of a run from `start`: each starts inside the text at or
      after `start` and after the window before it, and spans at most `size`
      characters. */
  ghost predicate SpansOk(spans: seq<(nat, nat)>, t: string, start: nat, size: nat) {
    forall k :: 0 <= k < |spans| ==>
      && start <= spans[k].0 < |t|
      && spans[k].0 <= spans[k].1 <= spans[k].0 + size
      && (k > 0 ==> spans[k - 1].0 < spans[k].0)
  }

  lemma {:induction false} WindowsFromOk(t: string, start: nat, size: nat, overlap: nat)
    ensures SpansOk(WindowsFrom(t, start, size, overlap).spans, t, start, size)
    decreases |t| - start
  {
    if start < |t| {
      var end := WindowEnd(t, start, size);
      var next := NextStart(t, end, overlap);
      if next > start {
        WindowsFromOk(t, next, size, overlap);
        var rest := WindowsFrom(t, next, size, overlap).spans;
        var spans := [(start, end)] + rest;
        forall k | 0 <= k < |spans|
          ensures start <= spans[k].0 < |t| && spans[k].0 <= spans[k].1 <= spans[k].0 + size
          ensures k > 0 ==> spans[k - 1].0 < spans[k].0
        {
          if k > 0 {
            assert spans[k] == rest[k - 1];
          }
          if k > 1 {
            assert spans[k - 1] == rest[k - 2];
          }
        }
      }
    }
  }

  /** What `chunk_text` promises of one chunk: it starts inside the text, ends
      after its start and at most `size` characters later, and its text is
      the stripped slice `t[startIdx:endIdx]`, which is not empty. */
  predicate ChunkOk(c: TextChunk, t: string, size: nat) {
    && c.startIdx < |t|
    && c.startIdx < c.endIdx <= c.startIdx + size
    && c.text == Piece(t, c.startIdx, c.endIdx)
    && |c.text| > 0
  }

  /** Every chunk is `ChunkOk`, starts at or after `start` and after the
      chunk before it, and ids are consecutive from `id`. */
  ghost predicate WellFormedRun(cs: seq<TextChunk>, t: string, start: nat, id: nat, size: nat) {
    forall i :: 0 <= i < |cs| ==>
      && cs[i].chunkId == id + i
      && start <= cs[i].startIdx
      && ChunkOk(cs[i], t, size)
      && (i > 0 ==> cs[i - 1].startIdx < cs[i].startIdx)
  }

  lemma {:induction false} ChunksOfWellFormed(t: string, spans: seq<(nat, nat)>, start: nat, id: nat, size: nat)
    requires SpansOk(spans, t, start, size)
    ensures WellFormedRun(ChunksOf(spans, PiecesOf(t, spans), id), t, start, id, size)
    decreases |spans|
  {
    if spans != [] {
      var (a, b) := spans[0];
      PiecesOfTail(t, spans);
      var p := Piece(t, a, b);
      var next := if |p| > 0 then id + 1 else id;
      assert SpansOk(spans[1..], t, a + 1, size) by {
        forall k | 0 <= k < |spans[1..]|
          ensures a + 1 <= spans[1..][k].0 < |t| && spans[1..][k].0 <= spans[1..][k].1 <= spans[1..][k].0 + size
          ensures k > 0 ==> spans[1..][k - 1].0 < spans[1..][k].0
        {
          SpansIncrease(spans, t, start, size, 0, k + 1);
        }
      }
      ChunksOfWellFormed(t, spans[1..], a + 1, next, size);
      var rest := ChunksOf(spans[1..], PiecesOf(t, spans[1..]), next);
      if |p| > 0 {
        var cs := [TextChunk(id, p, a, b)] + rest;
        forall i | 0 <= i < |cs|
          ensures cs[i].chunkId == id + i && start <= cs[i].startIdx && ChunkOk(cs[i], t, size)
          ensures i > 0 ==> cs[i - 1].startIdx < cs[i].startIdx
        {
          if i > 0 {
            assert cs[i] == rest[i - 1];
          }
          if i > 1 {
            assert cs[i - 1] == rest[i - 2];
          }
        }
      } else {
        forall i | 0 <= i < |rest| ensures start <= rest[i].startIdx { }
      }
    }
  }

  lemma {:induction false} SpansIncrease(spans: seq<(nat, nat)>, t: string, start: nat, size: nat, j: nat, k: nat)
    requires SpansOk(spans, t, start, size)
    requires j < k < |spans|
    ensures spans[j].0 < spans[k].0
    decreases k - j
  {
    if j + 1 < k {
      SpansIncrease(spans, t, start, size, j, k - 1);
    }
  }

  /** Every chunk of `chunk_text`'s result lies in the normalised text, is
      the stripped, non-empty slice it records, spans at most `size`
      characters, starts after the chunk before it, and the ids count up
      from 0 in list order. */
  lemma ChunkRunWellFormed(text: string, size: nat, overlap: nat)
    ensures WellFormedRun(ChunkRunOf(text, size, overlap).chunks, Normalize(text), 0, 0, size)
  {
    var t := Normalize(text);
    WindowsFromOk(t, 0, size, overlap);
    ChunksOfWellFormed(t, WindowsFrom(t, 0, size, overlap).spans, 0, 0, size);
  }

  /** Without overlap (and with a positive size) every window moves `start`
      forward, so the loop always finishes. */
  lemma {:induction false} NoOverlapFinishes(t: string, start: nat, size: nat)
    requires size >= 1
    ensures WindowsFrom(t, start, size, 0).stalledAt.None?
    decreases |t| - start
  {
    if start < |t| {
      NoOverlapFinishes(t, WindowEnd(t, start, size), size);
    }
  }

  lemma ChunkTextFinishesWithoutOverlap(text: string, size: nat)
    requires size >= 1
    ensures ChunkRunOf(text, size, 0).Finished?
  {
    NoOverlapFinishes(Normalize(text), 0, size);
  }

  /** A run stalls only at a window that does not reach the end of the text
      and ends at most `overlap` characters after its start: a sentence
      boundary close to `start`, or an overlap not below the size. */
  lemma {:induction false} StallCause(t: string, start: nat, size: nat, overlap: nat)
    requires WindowsFrom(t, start, size, overlap).stalledAt.Some?
    ensures var a := WindowsFrom(t, start, size, overlap).stalledAt.value;
      && start <= a < |t|
      && WindowEnd(t, a, size) < |t|
      && WindowEnd(t, a, size) <= a + overlap
    decreases |t| - start
  {
    var next := NextStart(t, WindowEnd(t, start, size), overlap);
    if next > start {
      StallCause(t, next, size, overlap);
    }
  }

  lemma ChunkTextStallCause(text: string, size: nat, overlap: nat)
    requires ChunkRunOf(text, size, overlap).Stalled?
    ensures var t := Normalize(text);
      var a := ChunkRunOf(text, size, overlap).at;
      && a < |t|
      && WindowEnd(t, a, size) < |t|
      && WindowEnd(t, a, size) <= a + overlap
  {
    StallCause(Normalize(text), 0, size, overlap);
  }

  /** When the loop finishes, its windows leave no gap: every position of the
      text from `start` on lies in some window `[start, end)`. */
  lemma {:induction false} WindowsCover(t: string, start: nat, size: nat, overlap: nat, p: nat)
    requires WindowsFrom(t, start, size, overlap).stalledAt.None?
    requires start <= p < |t|
    ensures var spans := WindowsFrom(t, start, size, overlap).spans;
      exists k :: 0 <= k < |spans| && spans[k].0 <= p < spans[k].1
    decreases |t| - start
  {
    var end := WindowEnd(t, start, size);
    var next := NextStart(t, end, overlap);
    var spans := WindowsFrom(t, start, size, overlap).spans;
    assert next > start;
    if p < end {
      assert spans[0] == (start, end);
    } else {
      WindowsCover(t, next, size, overlap, p);
      var rest := WindowsFrom(t, next, size, overlap).spans;
      var k :| 0 <= k < |rest| && rest[k].0 <= p < rest[k].1;
      assert spans[k + 1] == rest[k];
    }
  }

  /** A window whose end is not pulled back is `size` long: a sentence mark
      is the only reason a window stops short inside the text. */
  lemma WindowEndBoundary(t: string, start: nat, size: nat)
    requires start + size < |t|
    ensures var e := WindowEnd(t, start, size);
      && (e < start + size <==> exists i :: start <= i && i + 2 <= start + size && SentenceMarkAt(t, i))
      && (e < start + size ==> SentenceMarkAt(t, e - 1))
  {
    SentenceEndPriority(t, start, start + size);
  }

  class DocumentProcessor {
    const chunkSize: nat
    const chunkOverlap: nat

    /** The sizes come from the settings; nothing relates them. */
    constructor(chunkSize: nat, chunkOverlap: nat)
      ensures this.chunkSize == chunkSize && this.chunkOverlap == chunkOverlap
    {
      this.chunkSize := chunkSize;
      this.chunkOverlap := chunkOverlap;
    }

    /** `chunk_text`: the loop over windows. Where the next start would not
        move forward, the method reports `Stalled`. */
    method ChunkText(text: string) returns (run: ChunkRun)
      ensures run == ChunkRunOf(text, chunkSize, chunkOverlap)
    {
      run := ChunkNormalized(Normalize(text));
    }

    method ChunkNormalized(t: string) returns (run: ChunkRun)
      ensures run == RunOf(t, chunkSize, chunkOverlap)
    {
      var chunks: seq<TextChunk> := [];
      var start: nat := 0;
      var chunkId: nat := 0;
      ghost var spans: seq<(nat, nat)> := [];
      ghost var total := WindowsFrom(t, 0, chunkSize, chunkOverlap);
      while start < |t|
        invariant spans + WindowsFrom(t, start, chunkSize, chunkOverlap).spans == total.spans
        invariant WindowsFrom(t, start, chunkSize, chunkOverlap).stalledAt == total.stalledAt
        invariant chunks == ChunksOf(spans, PiecesOf(t, spans), 0) && chunkId == |chunks|
        decreases |t| - start
      {
        var end: nat := WindowEndAt(t, start);
        ghost var span: (nat, nat) := (start, end);
        chunks, chunkId := EmitChunk(t, start, end, chunks, chunkId, spans);
        var next := if end < |t| then end - chunkOverlap else end;
        WindowsAdvance(t, start, chunkSize, chunkOverlap, spans, total, span, next);
        spans := spans + [span];
        if next <= start {
          run := Stalled(chunks, start);
          return;
        }
        start := next;
      }
      assert WindowsFrom(t, start, chunkSize, chunkOverlap) == Windows([], None);
      assert spans + [] == spans;
      assert spans == total.spans && total.stalledAt.None?;
      run := Finished(chunks);
    }

    /** The body of the loop of `chunk_text` after the window end is known:
        append the stripped window with the next id unless it is empty. */
    method EmitChunk(t: string, start: nat, end: nat, chunks: seq<TextChunk>, chunkId: nat,
                     ghost spans: seq<(nat, nat)>)
      returns (chunks': seq<TextChunk>, chunkId': nat)
      requires chunks == ChunksOf(spans, PiecesOf(t, spans), 0) && chunkId == |chunks|
      ensures chunks' == ChunksOf(spans + [(start, end)], PiecesOf(t, spans + [(start, end)]), 0)
      ensures chunkId' == |chunks'|
    {
      var chunkText := Piece(t, start, end);
      PiecesOfAppend(t, spans, start, end);
      ChunksSnoc(spans, PiecesOf(t, spans), (start, end), chunkText);
      chunks', chunkId' := chunks, chunkId;
      if |chunkText| > 0 {
        chunks' := chunks + [TextChunk(chunkId, chunkText, start, end)];
        chunkId' := chunkId + 1;
      }
    }

    /** The window end of `chunk_text`: the sentence-end search for `". "`,
        then `"! "`, then `"? "`, each with `rfind` in `[start, end)`. */
    method WindowEndAt(t: string, start: nat) returns (end: nat)
      ensures end == WindowEnd(t, start, chunkSize)
    {
      end := start + chunkSize;
      if end < |t| {
        var sentenceEnd := FindLast(t, '.', start, end);
        if sentenceEnd.None? {
          sentenceEnd := FindLast(t, '!', start, end);
        }
        if sentenceEnd.None? {
          sentenceEnd := FindLast(t, '?', start, end);
        }
        if sentenceEnd.Some? {
          end := sentenceEnd.value + 1;
        }
      }
    }
  }

  /** One more window of the loop: either the run stalls there, or the
      windows seen so far grow by it and the rest starts at the next start. */
  lemma WindowsAdvance(t: string, start: nat, size: nat, overlap: nat, spans: seq<(nat, nat)>, total: Windows,
                       span: (nat, nat), next: int)
    requires start < |t|
    requires span == (start, WindowEnd(t, start, size)) && next == NextStart(t, span.1, overlap)
    requires spans + WindowsFrom(t, start, size, overlap).spans == total.spans
    requires WindowsFrom(t, start, size, overlap).stalledAt == total.stalledAt
    ensures next <= start ==> total == Windows(spans + [span], Some(start))
    ensures next > start ==>
      && (spans + [span]) + WindowsFrom(t, next, size, overlap).spans == total.spans
      && WindowsFrom(t, next, size, overlap).stalledAt == total.stalledAt
  {
    if next > start {
      var rest := WindowsFrom(t, next, size, overlap).spans;
      assert WindowsFrom(t, start, size, overlap).spans == [span] + rest;
      assert (spans + [span]) + rest == spans + ([span] + rest);
    }
  }

  /** One more window adds its chunk, numbered after the ones before it,
      exactly when its stripped text is not empty. */
  lemma ChunksSnoc(spans: seq<(nat, nat)>, pieces: seq<string>, span: (nat, nat), p: string)
    requires |pieces| == |spans|
    ensures var before := ChunksOf(spans, pieces, 0);
      ChunksOf(spans + [span], pieces + [p], 0)
      == before + (if |p| > 0 then [TextChunk(|before|, p, span.0, span.1)] else [])
  {
    var before := ChunksOf(spans, pieces, 0);
    var one := ChunksOf([span], [p], |before|);
    assert ChunksOf(spans + [span], pieces + [p], 0) == before + one by {
      ChunksOfAppend(spans, [span], pieces, [p], 0);
    }
    ChunksOfOne(span, p, |before|);
  }

  lemma ChunksOfOne(span: (nat, nat), p: string, id: nat)
    ensures ChunksOf([span], [p], id) == if |p| > 0 then [TextChunk(id, p, span.0, span.1)] else []
  {
    assert [span][1..] == [] && [p][1..] == [];
  }

  /** With overlap, a full stop near the window start stalls the loop: in
      `"a. bcdef"` (already normalised) with size 5 and overlap 2 the first
      window is pulled back to `"a."`, and the next start is 0 again. */
  lemma StallExample()
    ensures ChunkRunOf("a. bcdef", 5, 2) == Stalled([TextChunk(0, "a.", 0, 2)], 0)
  {
    NormalizedExample();
    StallExampleRun();
  }

  lemma StallExampleRun()
    ensures RunOf("a. bcdef", 5, 2) == Stalled([TextChunk(0, "a.", 0, 2)], 0)
  {
    var t := "a. bcdef";
    assert FindLast(t, '.', 0, 5) == Some(1);
    assert WindowEnd(t, 0, 5) == 2;
    assert WindowsFrom(t, 0, 5, 2) == Windows([(0, 2)], Some(0));
    assert t[0..2] == "a.";
    assert Strip("a.") == "a." by {
      StripAround("", "a.", "");
    }
    assert PiecesOf(t, [(0, 2)]) == ["a."];
    assert ChunksOf([(0, 2)], ["a."], 0) == [TextChunk(0, "a.", 0, 2)];
  }

  /** A next start below 0: in `"a. bcd"` with size 5 and overlap 3 the
      first window is pulled back to `"a."` and the next start is
      `2 - 3 = -1`. Python reads that from the end of the text, so the
      source's window at -1 is empty, the loop goes on from 1, emits
      `". bcd"` and finishes; the model stalls at 0 instead. */
  lemma NegativeStartExample()
    ensures NextStart("a. bcd", WindowEnd("a. bcd", 0, 5), 3) == -1
    ensures ChunkRunOf("a. bcd", 5, 3) == Stalled([TextChunk(0, "a.", 0, 2)], 0)
  {
    NegativeStartNormalized();
    NegativeStartRun();
  }

  lemma NegativeStartRun()
    ensures WindowEnd("a. bcd", 0, 5) == 2
    ensures RunOf("a. bcd", 5, 3) == Stalled([TextChunk(0, "a.", 0, 2)], 0)
  {
    var t := "a. bcd";
    assert FindLast(t, '.', 0, 5) == Some(1);
    assert WindowEnd(t, 0, 5) == 2;
    assert WindowsFrom(t, 0, 5, 3) == Windows([(0, 2)], Some(0));
    assert t[0..2] == "a.";
    assert Strip("a.") == "a." by {
      StripAround("", "a.", "");
    }
    assert PiecesOf(t, [(0, 2)]) == ["a."];
    assert ChunksOf([(0, 2)], ["a."], 0) == [TextChunk(0, "a.", 0, 2)];
  }

  lemma NegativeStartNormalized()
    ensures Normalize("a. bcd") == "a. bcd"
  {
    NegativeStartWords();
    NormalizeJoinsWords("a. bcd");
    assert JoinWith(" ", ["a.", "bcd"]) == "a." + " " + "bcd";
  }

  lemma NegativeStartWords()
    ensures Words("a. bcd") == ["a.", "bcd"]
  {
    WordsOfWordThen("bcd", "");
    assert "bcd" + "" == "bcd";
    WordsSkipSpaces(" bcd", 1);
    assert " bcd"[1..] == "bcd";
    WordsOfWordThen("a.", " bcd");
    assert "a." + " bcd" == "a. bcd";
  }

  /** The boundary is the last full stop, even when a `!` comes later: in
      `"a. b! cdef"` the first 7-character window ends after `"a."`, not
      after `"a. b!"`. */
  lemma PriorityExample()
    ensures WindowEnd("a. b! cdef", 0, 7) == 2
  {
    assert FindLast("a. b! cdef", '.', 0, 7) == Some(1);
  }

  lemma NormalizedExample()
    ensures Normalize("a. bcdef") == "a. bcdef"
  {
    WordsExample();
    NormalizeJoinsWords("a. bcdef");
    assert JoinWith(" ", ["a.", "bcdef"]) == "a." + " " + "bcdef";
  }

  lemma WordsExample()
    ensures Words("a. bcdef") == ["a.", "bcdef"]
  {
    WordsOfWordThen("bcdef", "");
    assert "bcdef" + "" == "bcdef";
    WordsSkipSpaces(" bcdef", 1);
    assert " bcdef"[1..] == "bcdef";
    WordsOfWordThen("a.", " bcdef");
    assert "a." + " bcdef" == "a. bcdef";
  }
}
