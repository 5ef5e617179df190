/** ContextBuilder: the retrieved runbook passages packed, in rank order,
    into one prompt context under a character budget. Packing is greedy and
    stops at the first passage that does not fit. The budget counts the
    passages' blocks but not the newlines that join them. */
module ContextBuilder {
  import opened Wrappers
  import opened Text

  /** One search hit as the vector store returns it: the passage and the two
      metadata entries the builder reads, `None` when the key is absent. */
  datatype SearchResult = SearchResult(content: string, filename: Option<string>, sectionTitle: Option<string>)

  /** The budget `build_context` uses when the caller gives none. */
  const DefaultMaxContextLength: int := 3000

  /** The source named in a block: the file name, `"unknown"` without one. */
  function SourceName(r: SearchResult): (s: string)
    ensures r.filename.Some? ==> s == r.filename.value
    ensures r.filename.None? ==> s == "unknown"
  {
    r.filename.GetOr("unknown")
  }

  /** The f-string that opens each block. */
  function Header(i: nat, source: string): string {
    Interpolate(["\n--- Runbook ", " (from ", ") ---\n"], [NatToString(i), source])
  }

  /** The section line, present only for a non-empty section title (an empty
      string is false in the source's `if section:`). */
  function SectionLine(r: SearchResult): (l: string)
    ensures l == [] <==> r.sectionTitle.None? || r.sectionTitle.value == []
  {
    match r.sectionTitle
    case Some(t) => if t != [] then "Section: " + t + "\n" else ""
    case None => ""
  }

  /** The block of the `i`-th result (counting from 1). */
  function Block(i: nat, r: SearchResult): string {
    Header(i, SourceName(r)) + SectionLine(r) + (r.content + "\n")
  }

  /** A block is a header naming the rank and the source, then the optional
      section line, then the passage and a newline; its length is theirs. */
  lemma BlockShape(i: nat, r: SearchResult)
    ensures var b, h := Block(i, r), Header(i, SourceName(r));
      && |b| == |h| + |SectionLine(r)| + |r.content| + 1
      && b[..|h|] == h
      && b[|h|..|b| - |r.content| - 1] == SectionLine(r)
      && b[|b| - |r.content| - 1..] == r.content + "\n"
  {
    var h := Header(i, SourceName(r));
    var l := SectionLine(r);
    var b := Block(i, r);
    assert b[..|h|] == h;
    assert b[|h|..|h| + |l|] == l;
    assert b[|h| + |l|..] == r.content + "\n";
  }

  /** The results numbered from 1 in rank order, each made into a block by
      `block`. */
  function Ranked(results: seq<SearchResult>, block: (nat, SearchResult) -> string): (bs: seq<string>)
    ensures |bs| == |results|
    decreases |results|
  {
    if results == [] then []
    else Ranked(results[..|results| - 1], block) + [block(|results|, results[|results| - 1])]
  }

  /** Entry `k` is made from result `k` with rank `k + 1`. */
  lemma {:induction false} RankedAt(results: seq<SearchResult>, block: (nat, SearchResult) -> string, k: nat)
    requires k < |results|
    ensures Ranked(results, block)[k] == block(k + 1, results[k])
    decreases |results|
  {
    var n := |results| - 1;
    if k < n {
      RankedAt(results[..n], block, k);
      assert results[..n][k] == results[k];
    }
  }

  /** The blocks of all results, numbered from 1 in rank order. */
  function Blocks(results: seq<SearchResult>): (bs: seq<string>)
    ensures |bs| == |results|
  {
    Ranked(results, Block)
  }

  /** Block `k` belongs to result `k` and carries rank `k + 1`. */
  lemma BlockAt(results: seq<SearchResult>, k: nat)
    requires k < |results|
    ensures Blocks(results)[k] == Block(k + 1, results[k])
  {
    RankedAt(results, Block, k);
  }

  /** Greedy packing after `used` characters: take blocks while the running
      total stays within `max`, stop at the first that would exceed it. */
  function Packed(blocks: seq<string>, used: int, max: int): (r: seq<string>)
    ensures |r| <= |blocks|
    decreases |blocks|
  {
    if blocks == [] || used + |blocks[0]| > max then []
    else [blocks[0]] + Packed(blocks[1..], used + |blocks[0]|, max)
  }

  /** What `build_context` returns: the packed blocks joined by newlines. */
  function ContextOf(results: seq<SearchResult>, max: int): string {
    JoinWith("\n", Packed(Blocks(results), 0, max))
  }

  /** Packing takes exactly the longest prefix that fits: it is a prefix, and
      a non-empty prefix of the blocks fits in the budget after `used` iff it
      is no longer than the packed one. So nothing is skipped or reordered. */
  lemma {:induction false} PackedIsLongestFit(blocks: seq<string>, used: int, max: int)
    ensures var p := Packed(blocks, used, max);
      && p == blocks[..|p|]
      && forall m :: 1 <= m <= |blocks| ==> (used + SumLengths(blocks[..m]) <= max <==> m <= |p|)
    decreases |blocks|
  {
    var p := Packed(blocks, used, max);
    if blocks == [] {
    } else {
      var b := blocks[0];
      var rest := blocks[1..];
      forall m | 1 <= m <= |blocks|
        ensures SumLengths(blocks[..m]) == |b| + SumLengths(rest[..m - 1])
      {
        assert blocks[..m][0] == b;
        assert blocks[..m][1..] == rest[..m - 1];
      }
      if used + |b| > max {
        forall m | 1 <= m <= |blocks|
          ensures !(used + SumLengths(blocks[..m]) <= max)
        {
          assert SumLengths(blocks[..m]) == |b| + SumLengths(rest[..m - 1]);
        }
      } else {
        PackedIsLongestFit(rest, used + |b|, max);
        var q := Packed(rest, used + |b|, max);
        assert p == [b] + q;
        assert blocks == [b] + rest;
        forall m | 1 <= m <= |blocks|
          ensures used + SumLengths(blocks[..m]) <= max <==> m <= |p|
        {
          assert SumLengths(blocks[..m]) == |b| + SumLengths(rest[..m - 1]);
          if m > 1 {
            assert (used + |b|) + SumLengths(rest[..m - 1]) <= max <==> m - 1 <= |q|;
          } else {
            assert rest[..0] == [];
          }
        }
      }
    }
  }

  /** The packed blocks together stay within the budget after `used`
      (trivially so when none is packed). */
  lemma {:induction false} PackedWithinBudget(blocks: seq<string>, used: int, max: int)
    ensures Packed(blocks, used, max) != [] ==> used + SumLengths(Packed(blocks, used, max)) <= max
    decreases |blocks|
  {
    if blocks != [] && used + |blocks[0]| <= max {
      PackedWithinBudget(blocks[1..], used + |blocks[0]|, max);
    }
  }

  /** The included results are the longest prefix of the ranking whose blocks
      fit the budget; their blocks total at most `max`; the returned text is
      longer than that total by one newline per pair of neighbouring blocks,
      so it can exceed `max` by up to `k - 1` for `k` included results. */
  lemma ContextBound(results: seq<SearchResult>, max: int)
    ensures var p := Packed(Blocks(results), 0, max);
      && p == Blocks(results)[..|p|]
      && (|p| == |results| || SumLengths(Blocks(results)[..|p| + 1]) > max)
      && (p == [] ==> ContextOf(results, max) == "")
      && (p != [] ==> SumLengths(p) <= max
                      && |ContextOf(results, max)| == SumLengths(p) + |p| - 1
                      && |ContextOf(results, max)| <= max + |p| - 1)
  {
    var bs := Blocks(results);
    var p := Packed(bs, 0, max);
    PackedIsLongestFit(bs, 0, max);
    PackedWithinBudget(bs, 0, max);
    if |p| < |results| {
      assert !(0 + SumLengths(bs[..|p| + 1]) <= max);
    }
    if p != [] {
      JoinNewlines(p);
    }
  }

  /** Joining with newlines adds one character per pair of neighbours. */
  lemma JoinNewlines(parts: seq<string>)
    requires parts != []
    ensures |JoinWith("\n", parts)| == SumLengths(parts) + |parts| - 1
  {
    JoinLength("\n", parts);
  }

  /** No results give the empty context. */
  lemma NoResultsEmpty(max: int)
    ensures ContextOf([], max) == ""
  {
    assert Blocks([]) == [];
  }

  /** Two results whose blocks are 30 characters each fill a budget of 60
      exactly, and the joined context has 61 characters. */
  lemma BudgetOverrunExample()
    ensures var rs := [SearchResult("x", Some("a"), None), SearchResult("x", Some("a"), None)];
      |Packed(Blocks(rs), 0, 60)| == 2 && |ContextOf(rs, 60)| == 61
  {
    var r := SearchResult("x", Some("a"), None);
    var rs := [r, r];
    HeaderLength(1, "a");
    HeaderLength(2, "a");
    var bs := Blocks(rs);
    BlockAt(rs, 0);
    BlockAt(rs, 1);
    assert |bs[0]| == 30 && |bs[1]| == 30;
    assert bs[1..][0] == bs[1] && bs[1..][1..] == [];
    assert Packed(bs[1..], 30, 60) == [bs[1]] + Packed([], 60, 60);
    assert Packed(bs, 0, 60) == [bs[0]] + Packed(bs[1..], 30, 60);
    assert Packed(bs, 0, 60) == [bs[0], bs[1]];
    JoinLength("\n", [bs[0], bs[1]]);
  }

  /** A header of a one-digit rank is 27 characters plus the source's length. */
  lemma HeaderLength(i: nat, source: string)
    requires 1 <= i <= 9
    ensures |Header(i, source)| == 27 + |source|
  {
    var fields := [NatToString(i), source];
    InterpolateLength(["\n--- Runbook ", " (from ", ") ---\n"], fields);
    assert fields[1..][1..] == [];
  }

  /** Packing from block `i` on, by index, as the loop of `build_context`
      walks the blocks. */
  function PackedFrom(bs: seq<string>, i: nat, used: int, max: int): seq<string>
    decreases |bs| - i
  {
    if i >= |bs| || used + |bs[i]| > max then []
    else [bs[i]] + PackedFrom(bs, i + 1, used + |bs[i]|, max)
  }

  /** Packing by index is packing of the remaining blocks. */
  lemma {:induction false} PackedFromIsPacked(bs: seq<string>, i: nat, used: int, max: int)
    requires i <= |bs|
    ensures PackedFrom(bs, i, used, max) == Packed(bs[i..], used, max)
    decreases |bs| - i
  {
    if i < |bs| && used + |bs[i]| <= max {
      PackedFromIsPacked(bs, i + 1, used + |bs[i]|, max);
      assert bs[i..][0] == bs[i] && bs[i..][1..] == bs[i + 1..];
    }
  }

  /** One step of the packing loop: the block at `i` fits, so it is the next
      packed block. */
  lemma PackAdvances(bs: seq<string>, i: nat, used: int, max: int, parts: seq<string>, part: string, total: seq<string>)
    requires i < |bs| && part == bs[i] && used + |part| <= max
    requires used == SumLengths(parts) && parts + PackedFrom(bs, i, used, max) == total
    ensures used + |part| == SumLengths(parts + [part])
    ensures (parts + [part]) + PackedFrom(bs, i + 1, used + |part|, max) == total
  {
    SumLengthsAppend(parts, [part]);
    var later := PackedFrom(bs, i + 1, used + |part|, max);
    assert parts + [part] + later == parts + ([part] + later);
  }

  class ContextBuilder {
    constructor()
    {
    }

    /** `build_context`: the loop accumulates the blocks and their total
        length, leaving at the first block that would exceed the budget. */
    method BuildContext(searchResults: seq<SearchResult>, maxContextLength: int := DefaultMaxContextLength)
      returns (context: string)
      ensures context == ContextOf(searchResults, maxContextLength)
    {
      ghost var bs := Blocks(searchResults);
      ghost var total := PackedFrom(bs, 0, 0, maxContextLength);
      var contextParts: seq<string> := [];
      var currentLength := 0;
      var i := 0;
      while i < |searchResults|
        invariant 0 <= i <= |searchResults|
        invariant currentLength == SumLengths(contextParts)
        invariant contextParts + PackedFrom(bs, i, currentLength, maxContextLength) == total
      {
        var part := BlockText(searchResults, i);
        if currentLength + |part| > maxContextLength {
          break;
        }
        PackAdvances(bs, i, currentLength, maxContextLength, contextParts, part, total);
        contextParts := contextParts + [part];
        currentLength := currentLength + |part|;
        i := i + 1;
      }
      assert contextParts + [] == contextParts;
      PackedFromIsPacked(bs, 0, 0, maxContextLength);
      assert bs[0..] == bs;
      context := JoinWith("\n", contextParts);
    }

    /** The body of the loop of `build_context` up to the budget test, for
        the result at `k`: the header with rank `k + 1` and source, the
        section line when there is a non-empty title, then the content. */
    method BlockText(results: seq<SearchResult>, k: nat) returns (part: string)
      requires k < |results|
      ensures part == Blocks(results)[k]
    {
      var rank, result := k + 1, results[k];
      var source := SourceName(result);
      part := Header(rank, source);
      if result.sectionTitle.Some? && result.sectionTitle.value != [] {
        part := part + ("Section: " + result.sectionTitle.value + "\n");
      }
      assert part == Header(rank, source) + SectionLine(result);
      part := part + (result.content + "\n");
      BlockAt(results, k);
    }
  }
}
