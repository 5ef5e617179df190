/** The Python string operations the pipeline relies on, stated on `seq<char>`:
    whitespace as `str.isspace` defines it, ASCII case folding, `strip`,
    `split`, `join`, decimal conversion, and the leftmost-match search that
    `re.search` performs. Each regular expression of the pipeline is written
    out in its own module as a matcher at one position; `Search` finds the
    leftmost position where it succeeds. */
module Text {
  import opened Wrappers

  /** The characters Python's `str.isspace()` accepts; for `str` values the
      regex class `\s`, `strip()` and `split()` all use exactly this set. */
  predicate IsSpace(c: char) {
    || ('\t' <= c <= '\r')
    || ('\U{1C}' <= c <= ' ')
    || c == '\U{85}' || c == '\U{A0}' || c == '\U{1680}'
    || ('\U{2000}' <= c <= '\U{200A}')
    || c == '\U{2028}' || c == '\U{2029}' || c == '\U{202F}' || c == '\U{205F}' || c == '\U{3000}'
  }

  predicate IsBlank(s: string) {
    forall i :: 0 <= i < |s| ==> IsSpace(s[i])
  }

  /** `\d`, restricted to ASCII digits. */
  predicate IsDigit(c: char) {
    '0' <= c <= '9'
  }

  /** `\w`, restricted to ASCII letters, digits and underscore. */
  predicate IsWordChar(c: char) {
    ('a' <= c <= 'z') || ('A' <= c <= 'Z') || IsDigit(c) || c == '_'
  }

  /** ASCII lower-casing, the part of `str.lower()` and of `re.IGNORECASE`
      this model covers. */
  function LowerChar(c: char): char {
    if 'A' <= c <= 'Z' then (c as int + 32) as char else c
  }

  function Lower(s: string): (r: string)
    ensures |r| == |s|
    ensures forall i :: 0 <= i < |s| ==> r[i] == LowerChar(s[i])
  {
    seq(|s|, i requires 0 <= i < |s| => LowerChar(s[i]))
  }

  /** Text without upper-case letters is its own lower-casing. */
  lemma LowerOfLowerCase(s: string)
    requires forall i :: 0 <= i < |s| ==> !('A' <= s[i] <= 'Z')
    ensures Lower(s) == s
  {
  }

  /** `w` occurs in `s` at position `i`. */
  predicate At(s: string, i: nat, w: string) {
    i + |w| <= |s| && forall k :: 0 <= k < |w| ==> s[i + k] == w[k]
  }

  /** `w` occurs in `s` at position `i`, ignoring ASCII case. */
  predicate AtCI(s: string, i: nat, w: string) {
    i + |w| <= |s| && forall k :: 0 <= k < |w| ==> LowerChar(s[i + k]) == LowerChar(w[k])
  }

  /** Whether `re.search` finds the literal `w` under `(?i)` at or after `i`. */
  function OccursCI(s: string, w: string, i: nat): (r: bool)
    requires i <= |s|
    ensures r <==> exists j :: i <= j && AtCI(s, j, w)
    decreases |s| - i
  {
    if i + |w| > |s| then false
    else if AtCI(s, i, w) then true
    else OccursCI(s, w, i + 1)
  }

  /** Python's `w in s[i:]`: whether `w` occurs at or after `i`. */
  function Occurs(s: string, w: string, i: nat): (r: bool)
    requires i <= |s|
    ensures r <==> exists j :: i <= j && At(s, j, w)
    decreases |s| - i
  {
    if i + |w| > |s| then false
    else if At(s, i, w) then true
    else Occurs(s, w, i + 1)
  }

  /** Length of the run of whitespace that starts at `i` (what a greedy `\s*` consumes). */
  function SpaceRun(s: string, i: nat): (k: nat)
    requires i <= |s|
    ensures i + k <= |s|
    ensures forall j :: i <= j < i + k ==> IsSpace(s[j])
    ensures i + k == |s| || !IsSpace(s[i + k])
    decreases |s| - i
  {
    if i < |s| && IsSpace(s[i]) then 1 + SpaceRun(s, i + 1) else 0
  }

  /** Length of the run of non-whitespace that starts at `i`. */
  function NonSpaceRun(s: string, i: nat): (k: nat)
    requires i <= |s|
    ensures i + k <= |s|
    ensures forall j :: i <= j < i + k ==> !IsSpace(s[j])
    ensures i + k == |s| || IsSpace(s[i + k])
    decreases |s| - i
  {
    if i < |s| && !IsSpace(s[i]) then 1 + NonSpaceRun(s, i + 1) else 0
  }

  /** Index of the first line feed at or after `i`, or `|s|`: where a greedy
      `.+` without DOTALL stops. */
  function LineEnd(s: string, i: nat): (e: nat)
    requires i <= |s|
    ensures i <= e <= |s|
    ensures e == |s| || s[e] == '\n'
    ensures forall j :: i <= j < e ==> s[j] != '\n'
    decreases |s| - i
  {
    if i == |s| || s[i] == '\n' then i else LineEnd(s, i + 1)
  }

  function StripStart(s: string): (r: string)
    ensures |r| <= |s| && r == s[|s| - |r|..]
    ensures forall i :: 0 <= i < |s| - |r| ==> IsSpace(s[i])
    ensures r == [] || !IsSpace(r[0])
    decreases |s|
  {
    if s != [] && IsSpace(s[0]) then StripStart(s[1..]) else s
  }

  function StripEnd(s: string): (r: string)
    ensures |r| <= |s| && r == s[..|r|]
    ensures forall i :: |r| <= i < |s| ==> IsSpace(s[i])
    ensures r == [] || !IsSpace(r[|r| - 1])
    decreases |s|
  {
    if s != [] && IsSpace(s[|s| - 1]) then StripEnd(s[..|s| - 1]) else s
  }

  /** Python's `s.strip()`: `s` without its leading and trailing whitespace.
      It drops the leading whitespace one character at a time and then strips
      the end (`StripIsEnds`). */
  function Strip(s: string): (r: string)
    ensures r == [] <==> IsBlank(s)
    ensures r == [] || (!IsSpace(r[0]) && !IsSpace(r[|r| - 1]))
    decreases |s|
  {
    if s != [] && IsSpace(s[0]) then Strip(s[1..])
    else
      var r := StripEnd(s);
      assert r == [] ==> IsBlank(s);
      r
  }

  /** `strip()` is `lstrip()` followed by `rstrip()`. */
  lemma {:induction false} StripIsEnds(s: string)
    ensures Strip(s) == StripEnd(StripStart(s))
    decreases |s|
  {
    if s != [] && IsSpace(s[0]) {
      StripIsEnds(s[1..]);
    }
  }

  /** `strip()` removes exactly the whitespace around a middle part that
      neither starts nor ends with whitespace. */
  lemma {:induction false} StripAround(a: string, m: string, b: string)
    requires IsBlank(a) && IsBlank(b)
    requires m == [] || (!IsSpace(m[0]) && !IsSpace(m[|m| - 1]))
    ensures Strip(a + m + b) == m
    decreases |a|
  {
    if a != [] {
      assert (a + m + b)[0] == a[0];
      assert (a + m + b)[1..] == a[1..] + m + b;
      StripAround(a[1..], m, b);
    } else if m != [] {
      assert a + m + b == m + b;
      StripEndBlank(m, b);
    } else {
      assert a + m + b == b;
    }
  }

  lemma {:induction false} StripStartBlank(a: string, t: string)
    requires IsBlank(a)
    requires t != [] && !IsSpace(t[0])
    ensures StripStart(a + t) == t
    decreases |a|
  {
    if a == [] {
      assert a + t == t;
    } else {
      assert (a + t)[1..] == a[1..] + t;
      StripStartBlank(a[1..], t);
    }
  }

  lemma {:induction false} StripEndBlank(t: string, b: string)
    requires IsBlank(b)
    requires t != [] && !IsSpace(t[|t| - 1])
    ensures StripEnd(t + b) == t
    decreases |b|
  {
    if b == [] {
      assert t + b == t;
    } else {
      var u := t + b;
      assert u[..|u| - 1] == t + b[..|b| - 1];
      StripEndBlank(t, b[..|b| - 1]);
    }
  }

  /** `s.strip()` is a contiguous slice of `s`. */
  lemma {:induction false} StripSlice(s: string) returns (a: nat)
    ensures a + |Strip(s)| <= |s| && Strip(s) == s[a..a + |Strip(s)|]
    decreases |s|
  {
    if s != [] && IsSpace(s[0]) {
      var t := s[1..];
      var a' := StripSlice(t);
      var r := Strip(t);
      assert Strip(s) == r;
      a := a' + 1;
      assert t[a'..a' + |r|] == s[a..a + |r|];
    } else {
      a := 0;
      var r := StripEnd(s);
      assert Strip(s) == r;
      assert s[0..|r|] == s[..|r|];
    }
  }

  lemma StripKeepsAbsent(s: string, c: char)
    requires c !in s
    ensures c !in Strip(s)
  {
    var a := StripSlice(s);
  }

  /** Python's `s.split(sep)` for a one-character separator, and
      `re.split('[...]', s)` for a class of them: the pieces between
      separators, empty pieces included. */
  function SplitOn(s: string, seps: set<char>): (r: seq<string>)
    ensures |r| == Count(s, seps) + 1
    ensures forall k :: 0 <= k < |r| ==> forall i :: 0 <= i < |r[k]| ==> r[k][i] !in seps
    decreases |s|
  {
    if s == [] then [""]
    else
      var rest := SplitOn(s[1..], seps);
      if s[0] in seps then [""] + rest
      else
        assert forall k :: 1 <= k < |rest| ==> rest[1..][k - 1] == rest[k];
        [[s[0]] + rest[0]] + rest[1..]
  }

  /** Number of characters of `s` that belong to `seps`. */
  function Count(s: string, seps: set<char>): nat
    decreases |s|
  {
    if s == [] then 0 else (if s[0] in seps then 1 else 0) + Count(s[1..], seps)
  }

  /** Python's `sep.join(parts)`. */
  function JoinWith(sep: string, parts: seq<string>): string
    decreases |parts|
  {
    if |parts| == 0 then ""
    else if |parts| == 1 then parts[0]
    else parts[0] + sep + JoinWith(sep, parts[1..])
  }

  /** Splitting on a single separator and joining with it again gives the
      original string back: `sep.join(s.split(sep)) == s`. */
  lemma {:induction false} JoinSplit(s: string, sep: char)
    ensures JoinWith([sep], SplitOn(s, {sep})) == s
    decreases |s|
  {
    if s != [] {
      var rest := SplitOn(s[1..], {sep});
      JoinSplit(s[1..], sep);
      if s[0] == sep {
        assert SplitOn(s, {sep}) == [""] + rest;
        assert ([""] + rest)[1..] == rest;
      } else {
        var r := [[s[0]] + rest[0]] + rest[1..];
        assert SplitOn(s, {sep}) == r;
        if |rest| == 1 {
          assert rest == [s[1..]];
        } else {
          assert r[1..] == rest[1..];
          assert JoinWith([sep], rest) == rest[0] + [sep] + JoinWith([sep], rest[1..]);
        }
      }
    }
  }

  /** A string without separators is one piece. */
  lemma {:induction false} SplitOnPlain(s: string, seps: set<char>)
    requires forall i :: 0 <= i < |s| ==> s[i] !in seps
    ensures SplitOn(s, seps) == [s]
    decreases |s|
  {
    if s != [] {
      assert forall i :: 0 <= i < |s[1..]| ==> s[1..][i] == s[i + 1];
      SplitOnPlain(s[1..], seps);
      assert [s[0]] + s[1..] == s;
    }
  }

  /** A leading separator closes an empty piece. */
  lemma SplitOnSep(x: char, t: string, seps: set<char>)
    requires x in seps
    ensures SplitOn([x] + t, seps) == [""] + SplitOn(t, seps)
  {
    assert ([x] + t)[0] == x && ([x] + t)[1..] == t;
  }

  /** Any other leading character opens the first piece. */
  lemma SplitOnChar(x: char, t: string, seps: set<char>)
    requires x !in seps
    ensures SplitOn([x] + t, seps) == [[x] + SplitOn(t, seps)[0]] + SplitOn(t, seps)[1..]
  {
    assert ([x] + t)[0] == x && ([x] + t)[1..] == t;
  }

  /** A separator cuts: the pieces of a string around it are the pieces
      before it followed by the pieces after it. With `SplitOnPlain` this fixes
      `SplitOn` on every string: the maximal runs between separators, in
      order, empty ones included. */
  lemma {:induction false} SplitOnAround(a: string, c: char, b: string, seps: set<char>)
    requires c in seps
    ensures SplitOn(a + [c] + b, seps) == SplitOn(a, seps) + SplitOn(b, seps)
    decreases |a|
  {
    if a == [] {
      assert a + [c] + b == [c] + b;
      SplitOnSep(c, b, seps);
    } else {
      SplitOnAround(a[1..], c, b, seps);
      SplitOnConsAppend(a[0], a[1..], a[1..] + [c] + b, SplitOn(b, seps), seps);
      assert a + [c] + b == [a[0]] + (a[1..] + [c] + b);
      assert a == [a[0]] + a[1..];
    }
  }

  /** Putting a character in front keeps pieces appended after the last one. */
  lemma SplitOnConsAppend(x: char, u: string, w: string, more: seq<string>, seps: set<char>)
    requires SplitOn(w, seps) == SplitOn(u, seps) + more
    ensures SplitOn([x] + w, seps) == SplitOn([x] + u, seps) + more
  {
    if x in seps {
      SplitOnSep(x, w, seps);
      SplitOnSep(x, u, seps);
      AppendAssoc([""], SplitOn(u, seps), more);
    } else {
      SplitOnChar(x, w, seps);
      SplitOnChar(x, u, seps);
      ExtendFirst([x], SplitOn(u, seps), more);
    }
  }

  lemma AppendAssoc<T>(a: seq<T>, b: seq<T>, c: seq<T>)
    ensures a + (b + c) == (a + b) + c
  {
  }

  /** Extending the first of some parts, then appending more parts. */
  lemma ExtendFirst<T>(x: seq<T>, parts: seq<seq<T>>, more: seq<seq<T>>)
    requires parts != []
    ensures [x + (parts + more)[0]] + (parts + more)[1..] == ([x + parts[0]] + parts[1..]) + more
  {
    assert (parts + more)[0] == parts[0];
    assert (parts + more)[1..] == parts[1..] + more;
  }

  /** The total length of the parts. */
  function SumLengths(parts: seq<string>): nat
    decreases |parts|
  {
    if parts == [] then 0 else |parts[0]| + SumLengths(parts[1..])
  }

  /** Lengths add up over a concatenation of part lists. */
  lemma {:induction false} SumLengthsAppend(xs: seq<string>, ys: seq<string>)
    ensures SumLengths(xs + ys) == SumLengths(xs) + SumLengths(ys)
    decreases |xs|
  {
    if xs == [] {
      assert xs + ys == ys;
    } else {
      assert (xs + ys)[1..] == xs[1..] + ys;
      SumLengthsAppend(xs[1..], ys);
    }
  }

  /** When the parts are non-empty, the joined string has the total length of
      the parts plus one separator between each two of them. */
  lemma {:induction false} JoinLength(sep: string, parts: seq<string>)
    requires parts != []
    ensures |JoinWith(sep, parts)| == SumLengths(parts) + (|parts| - 1) * |sep|
    decreases |parts|
  {
    if |parts| > 1 {
      JoinLength(sep, parts[1..]);
    }
  }

  /** A Python f-string: its literal pieces with one field after each piece
      for as long as fields remain, so `a{x}b{y}c` is `[a, b, c]` with
      `[x, y]`. */
  function Interpolate(pieces: seq<string>, fields: seq<string>): string
    decreases |pieces|
  {
    if pieces == [] then ""
    else pieces[0] + (if fields == [] then "" else fields[0])
         + Interpolate(pieces[1..], if fields == [] then [] else fields[1..])
  }

  /** With no more fields than pieces, every piece and every field appears
      once in the result. */
  lemma {:induction false} InterpolateLength(pieces: seq<string>, fields: seq<string>)
    requires |fields| <= |pieces|
    ensures |Interpolate(pieces, fields)| == SumLengths(pieces) + SumLengths(fields)
    decreases |pieces|
  {
    if pieces != [] {
      InterpolateLength(pieces[1..], if fields == [] then [] else fields[1..]);
    }
  }

  /** A word in the sense of `str.split()`: non-empty and free of whitespace. */
  predicate IsWord(w: string) {
    w != [] && forall i :: 0 <= i < |w| ==> !IsSpace(w[i])
  }

  /** Python's `s.split()` with no argument: the maximal runs of
      non-whitespace, in order. */
  function Words(s: string): (r: seq<string>)
    ensures forall k :: 0 <= k < |r| ==> IsWord(r[k])
    decreases |s|
  {
    if s == [] then []
    else if IsSpace(s[0]) then Words(s[1..])
    else
      var e := NonSpaceRun(s, 0);
      [s[..e]] + Words(s[e..])
  }

  lemma WordsOfWordThen(w: string, t: string)
    requires IsWord(w)
    requires t == [] || IsSpace(t[0])
    ensures Words(w + t) == [w] + Words(t)
  {
    var s := w + t;
    assert s[0] == w[0];
    var e := NonSpaceRun(s, 0);
    assert forall i :: 0 <= i < |w| ==> s[i] == w[i];
    assert t != [] ==> s[|w|] == t[0];
    assert e == |w|;
    assert s[..e] == w && s[e..] == t;
  }

  /** Round trip of tokenizing and joining: `(' '.join(ws)).split() == ws`
      for a list of words. */
  lemma {:induction false} WordsOfJoin(ws: seq<string>)
    requires forall k :: 0 <= k < |ws| ==> IsWord(ws[k])
    ensures Words(JoinWith(" ", ws)) == ws
    decreases |ws|
  {
    if |ws| == 1 {
      WordsOfWordThen(ws[0], "");
      assert ws[0] + "" == ws[0];
    } else if |ws| > 1 {
      var rest := JoinWith(" ", ws[1..]);
      WordsOfWordThen(ws[0], " " + rest);
      assert JoinWith(" ", ws) == ws[0] + (" " + rest);
      assert (" " + rest)[1..] == rest;
      WordsOfJoin(ws[1..]);
      assert ws == [ws[0]] + ws[1..];
    }
  }

  /** The decimal digit of `d`. */
  function DigitChar(d: nat): (c: char)
    requires d < 10
    ensures IsDigit(c)
  {
    "0123456789"[d]
  }

  function DigitValue(c: char): (d: nat)
    requires IsDigit(c)
    ensures d < 10
  {
    c as int - '0' as int
  }

  /** Python's `str(n)` for a non-negative integer. */
  function NatToString(n: nat): (r: string)
    ensures r != [] && forall i :: 0 <= i < |r| ==> IsDigit(r[i])
    decreases n
  {
    if n < 10 then [DigitChar(n)] else NatToString(n / 10) + [DigitChar(n % 10)]
  }

  /** Python's `int(s)` for a string of ASCII digits (leading zeros allowed). */
  function DigitsValue(s: string): nat
    requires forall i :: 0 <= i < |s| ==> IsDigit(s[i])
    decreases |s|
  {
    if s == [] then 0 else DigitsValue(s[..|s| - 1]) * 10 + DigitValue(s[|s| - 1])
  }

  /** `int(str(n)) == n`. */
  lemma {:induction false} DigitsValueOfNatToString(n: nat)
    ensures DigitsValue(NatToString(n)) == n
    decreases n
  {
    var r := NatToString(n);
    if n < 10 {
      assert DigitValue(DigitChar(n)) == n;
    } else {
      var p := NatToString(n / 10);
      assert r[..|r| - 1] == p;
      assert DigitValue(DigitChar(n % 10)) == n % 10;
      DigitsValueOfNatToString(n / 10);
    }
  }

  /** `re.search`: the leftmost position at or after `from` where the matcher
      `m` succeeds, together with what it captured. */
  function Search<T>(s: string, from: nat, m: (string, nat) -> Option<T>): (r: Option<(nat, T)>)
    ensures r.Some? ==> from <= r.value.0 <= |s| && m(s, r.value.0) == Some(r.value.1)
    ensures r.Some? ==> forall p :: from <= p < r.value.0 ==> m(s, p).None?
    ensures r.None? <==> forall p :: from <= p <= |s| ==> m(s, p).None?
    decreases |s| + 1 - from
  {
    if from > |s| then None
    else
      match m(s, from)
      case Some(v) => Some((from, v))
      case None => Search(s, from + 1, m)
  }

  /** The matcher succeeds somewhere in `s`. */
  ghost predicate Hits<T>(s: string, m: (string, nat) -> Option<T>) {
    exists p :: 0 <= p <= |s| && m(s, p).Some?
  }

  /** `v` is what `re.search` captures: the matcher's result at the leftmost
      position where it succeeds. */
  ghost predicate LeftmostHit<T>(s: string, m: (string, nat) -> Option<T>, v: T) {
    exists p :: 0 <= p <= |s| && m(s, p) == Some(v) && forall p' :: 0 <= p' < p ==> m(s, p').None?
  }

  /** A search from the start finds the leftmost hit, and fails exactly when
      there is none. */
  lemma SearchFromStart<T>(s: string, m: (string, nat) -> Option<T>)
    ensures Search(s, 0, m).None? <==> !Hits(s, m)
    ensures Search(s, 0, m).Some? ==> LeftmostHit(s, m, Search(s, 0, m).value.1)
  {
  }

  /** Every match of `m` in `s` ends after the position it starts at and
      within the text, as `endOf` reads its end off the capture. */
  ghost predicate Advances<T>(s: string, m: (string, nat) -> Option<T>, endOf: T -> nat) {
    forall p: nat :: p <= |s| && m(s, p).Some? ==> p < endOf(m(s, p).value) <= |s|
  }

  /** `re.finditer` from `pos`: the leftmost match, then the matches searched
      for from where it ends; each with the position it starts at. */
  function FindAll<T>(s: string, pos: nat, m: (string, nat) -> Option<T>, endOf: T -> nat): (r: seq<(nat, T)>)
    requires pos <= |s| && Advances(s, m, endOf)
    decreases |s| - pos
  {
    match Search(s, pos, m)
    case None => []
    case Some((p, v)) => [(p, v)] + FindAll(s, endOf(v), m, endOf)
  }

  /** What `re.finditer` yields from `pos`, stated without running the
      search: the first match starts at or after `pos` with no match before
      it, and the rest is what is yielded from where that match ends; with
      no match the text has none from `pos` on. */
  ghost predicate IsFindAll<T>(s: string, pos: nat, m: (string, nat) -> Option<T>, endOf: T -> nat, ms: seq<(nat, T)>)
    decreases |ms|
  {
    if ms == [] then forall q :: pos <= q <= |s| ==> m(s, q).None?
    else
      var (p, v) := ms[0];
      && pos <= p <= |s| && m(s, p) == Some(v)
      && (forall q :: pos <= q < p ==> m(s, q).None?)
      && IsFindAll(s, endOf(v), m, endOf, ms[1..])
  }

  /** One step of `FindAll`: the leftmost match, then the matches after it. */
  lemma FindAllUnfold<T>(s: string, pos: nat, m: (string, nat) -> Option<T>, endOf: T -> nat)
    requires pos <= |s| && Advances(s, m, endOf) && Search(s, pos, m).Some?
    ensures var (p, v) := Search(s, pos, m).value;
      && pos <= p < endOf(v) <= |s|
      && FindAll(s, pos, m, endOf) == [(p, v)] + FindAll(s, endOf(v), m, endOf)
  {
  }

  /** `FindAll` yields the matches in text order, none overlapping the next
      and none skipped. */
  lemma {:induction false} FindAllIsFinditer<T>(s: string, pos: nat, m: (string, nat) -> Option<T>, endOf: T -> nat)
    requires pos <= |s| && Advances(s, m, endOf)
    ensures IsFindAll(s, pos, m, endOf, FindAll(s, pos, m, endOf))
    decreases |s| - pos
  {
    if Search(s, pos, m).Some? {
      var (p, v) := Search(s, pos, m).value;
      FindAllIsFinditer(s, endOf(v), m, endOf);
      assert FindAll(s, pos, m, endOf)[1..] == FindAll(s, endOf(v), m, endOf);
    }
  }

  /** The characterisation fixes the result: only `FindAll` satisfies it. */
  lemma {:induction false} FinditerIsFindAll<T>(s: string, pos: nat, m: (string, nat) -> Option<T>, endOf: T -> nat,
                                                ms: seq<(nat, T)>)
    requires pos <= |s| && Advances(s, m, endOf) && IsFindAll(s, pos, m, endOf, ms)
    ensures ms == FindAll(s, pos, m, endOf)
    decreases |ms|
  {
    if ms != [] {
      var (p, v) := ms[0];
      assert Search(s, pos, m).Some?;
      assert Search(s, pos, m).value.0 == p;
      FinditerIsFindAll(s, endOf(v), m, endOf, ms[1..]);
      assert ms == [(p, v)] + ms[1..];
    }
  }

  /** Ordered alternatives tried one after another over the whole text, as a
      sequence of `re.search` calls that stops at the first success: the
      capture of the first alternative that matches anywhere. */
  function FirstAlternative<T>(s: string, ms: seq<(string, nat) -> Option<T>>): (r: Option<T>)
    ensures r.None? <==> forall k :: 0 <= k < |ms| ==> !Hits(s, ms[k])
    decreases |ms|
  {
    if ms == [] then None
    else
      match Search(s, 0, ms[0])
      case Some((_, v)) => Some(v)
      case None =>
        assert forall k :: 1 <= k < |ms| ==> ms[1..][k - 1] == ms[k];
        FirstAlternative(s, ms[1..])
  }

  /** The capture `FirstAlternative` returns is the leftmost hit of an
      alternative that matches, and every alternative before it matches
      nowhere. */
  lemma {:induction false} FirstAlternativeLeftmost<T>(s: string, ms: seq<(string, nat) -> Option<T>>)
    requires FirstAlternative(s, ms).Some?
    ensures exists k :: 0 <= k < |ms| && LeftmostHit(s, ms[k], FirstAlternative(s, ms).value)
                        && forall k' :: 0 <= k' < k ==> !Hits(s, ms[k'])
    decreases |ms|
  {
    var v := FirstAlternative(s, ms).value;
    SearchFromStart(s, ms[0]);
    if Search(s, 0, ms[0]).None? {
      FirstAlternativeLeftmost(s, ms[1..]);
      var k :| 0 <= k < |ms[1..]| && LeftmostHit(s, ms[1..][k], v)
               && forall k' :: 0 <= k' < k ==> !Hits(s, ms[1..][k']);
      assert forall k' :: 1 <= k' < k + 1 ==> ms[k'] == ms[1..][k' - 1];
      assert LeftmostHit(s, ms[k + 1], v);
    } else {
      assert LeftmostHit(s, ms[0], v);
    }
  }

  /** The regex fragment `\s{min,}(.+)` at position `q`, without DOTALL and at
      the end of a pattern: greedy whitespace, then the rest of a line of at
      least one character. Result: the span of the captured group. The
      greedy `\s*` may run over line feeds, and gives back characters only
      when the text ends inside the whitespace. */
  function RestOfLine(s: string, q: nat, minSpaces: nat): (r: Option<(nat, nat)>)
    requires q <= |s|
    ensures r.Some? ==> q + minSpaces <= r.value.0 < r.value.1 <= |s|
    ensures r.Some? ==> s[r.value.0] != '\n' && r.value.1 == LineEnd(s, r.value.0)
    ensures r.Some? ==> forall j :: q <= j < r.value.0 ==> IsSpace(s[j])
    ensures r.Some? ==> forall a :: r.value.0 < a <= q + SpaceRun(s, q) ==> !LineStartable(s, a)
    ensures r.None? <==> forall a :: q + minSpaces <= a <= q + SpaceRun(s, q) ==> !LineStartable(s, a)
  {
    LastLineStart(s, q, SpaceRun(s, q), minSpaces)
  }

  /** On text without line feeds, `\s{min,}(.+)` at `q` takes all the
      whitespace and the rest of the text when something follows it, and
      otherwise gives the last whitespace character back to `.+`. */
  lemma RestOfLineOneLine(s: string, q: nat, minSpaces: nat)
    requires q <= |s| && forall a :: q <= a < |s| ==> LineStartable(s, a)
    ensures var w := SpaceRun(s, q); var r := RestOfLine(s, q, minSpaces);
      && (r.Some? <==> if q + w < |s| then minSpaces <= w else minSpaces + 1 <= w)
      && (r.Some? ==> r.value.0 == (if q + w < |s| then q + w else |s| - 1) && r.value.1 == |s|)
  {
    var w := SpaceRun(s, q);
    var r := RestOfLine(s, q, minSpaces);
    if q + w < |s| {
      if minSpaces <= w {
        assert LineStartable(s, q + w);
        assert r.Some?;
      }
    } else if minSpaces + 1 <= w {
      assert LineStartable(s, |s| - 1);
      assert r.Some?;
    }
    if r.Some? {
      var e := LineEnd(s, r.value.0);
      assert e == |s| || !LineStartable(s, e);
    }
  }

  /** `.+` can start here: a character that is not a line feed. */
  predicate LineStartable(s: string, a: nat) {
    a < |s| && s[a] != '\n'
  }

  /** Backtracking of the greedy whitespace: try `j` spaces, then fewer. */
  function LastLineStart(s: string, q: nat, j: nat, minSpaces: nat): (r: Option<(nat, nat)>)
    requires q + j <= |s|
    requires forall i :: q <= i < q + j ==> IsSpace(s[i])
    ensures r.Some? ==> q + minSpaces <= r.value.0 <= q + j && r.value.0 < r.value.1 <= |s|
    ensures r.Some? ==> LineStartable(s, r.value.0) && r.value.1 == LineEnd(s, r.value.0)
    ensures r.Some? ==> forall a :: r.value.0 < a <= q + j ==> !LineStartable(s, a)
    ensures r.None? <==> forall a :: q + minSpaces <= a <= q + j ==> !LineStartable(s, a)
    decreases j
  {
    if j < minSpaces then None
    else if LineStartable(s, q + j) then Some((q + j, LineEnd(s, q + j)))
    else if j == 0 then None
    else LastLineStart(s, q, j - 1, minSpaces)
  }

  /** The last line feed `j` of `s[u..u+n]` with `ok(j + 1)`, for a greedy
      `\s*\n` that gives characters back until what follows it matches. */
  function LastFeed(s: string, u: nat, n: nat, ok: nat -> bool): (r: Option<nat>)
    requires u + n <= |s|
    ensures r.Some? ==> u <= r.value < u + n && s[r.value] == '\n' && ok(r.value + 1)
    ensures r.Some? ==> forall j :: r.value < j < u + n && s[j] == '\n' ==> !ok(j + 1)
    ensures r.None? <==> forall j :: u <= j < u + n && s[j] == '\n' ==> !ok(j + 1)
    decreases n
  {
    if n == 0 then None
    else if s[u + n - 1] == '\n' && ok(u + n) then Some(u + n - 1)
    else LastFeed(s, u, n - 1, ok)
  }

  /** One turn of a `finditer` loop that has consumed `seen`: the match
      found at `pos` is the next of all matches. */
  lemma FindAllAdvance<T>(s: string, pos: nat, m: (string, nat) -> Option<T>, endOf: T -> nat, seen: seq<(nat, T)>)
    requires pos <= |s| && Advances(s, m, endOf) && Search(s, pos, m).Some?
    ensures var (p, v) := Search(s, pos, m).value;
      && pos < endOf(v) <= |s|
      && (seen + [(p, v)]) + FindAll(s, endOf(v), m, endOf) == seen + FindAll(s, pos, m, endOf)
  {
    var (p, v) := Search(s, pos, m).value;
    FindAllUnfold(s, pos, m, endOf);
    var later := FindAll(s, endOf(v), m, endOf);
    assert seen + [(p, v)] + later == seen + ([(p, v)] + later);
  }

  /** When no match is left, the loop has consumed all of them. */
  lemma FindAllEnd<T>(s: string, pos: nat, m: (string, nat) -> Option<T>, endOf: T -> nat, seen: seq<(nat, T)>)
    requires pos <= |s| && Advances(s, m, endOf) && Search(s, pos, m).None?
    ensures seen + FindAll(s, pos, m, endOf) == seen
  {
    assert FindAll(s, pos, m, endOf) == [];
    assert seen + [] == seen;
  }

  /** `[f(x) for x in xs]`. */
  function Map<A, B>(f: A -> B, xs: seq<A>): (r: seq<B>)
    ensures |r| == |xs| && forall i :: 0 <= i < |xs| ==> r[i] == f(xs[i])
  {
    seq(|xs|, i requires 0 <= i < |xs| => f(xs[i]))
  }

  /** Mapping one more element appends its image. */
  lemma MapSnoc<A, B>(f: A -> B, xs: seq<A>, x: A)
    ensures Map(f, xs + [x]) == Map(f, xs) + [f(x)]
  {
    var a, b := Map(f, xs + [x]), Map(f, xs) + [f(x)];
    forall i | 0 <= i < |a| ensures a[i] == b[i] {
      if i < |xs| {
        assert (xs + [x])[i] == xs[i];
      }
    }
  }
}
