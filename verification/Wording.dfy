/** The words of a text, and how cutting it at its lines and blank lines conserves them
    (agentcore/ingestion/documents.py, lines 224-270).

    A word is a maximal run of characters that are not whitespace. Two cuts of a text that
    hold the same words in the same order differ in whitespace alone, which is what the
    stages of the chunker are allowed to change. */
module Wording {
  import opened Text

  // ---- words ----------------------------------------------------------------

  predicate OpenEnd(s: string) {
    s != "" && !IsSpace(s[|s| - 1])
  }

  function Grow(ws: seq<string>, joined: bool, c: char): (r: seq<string>)
    requires joined ==> ws != []
    ensures !IsSpace(c) ==> r != []
  {
    if IsSpace(c) then ws
    else if joined then ws[..|ws| - 1] + [ws[|ws| - 1] + [c]]
    else ws + [[c]]
  }

  /** The maximal runs of non-whitespace characters of a text, in order: `s.split()`. */
  function Words(s: string): (ws: seq<string>)
    ensures OpenEnd(s) ==> ws != []
  {
    if s == "" then []
    else Grow(Words(s[..|s| - 1]), OpenEnd(s[..|s| - 1]), s[|s| - 1])
  }

  function WordsAll(texts: seq<string>): seq<string> {
    if texts == [] then []
    else WordsAll(texts[..|texts| - 1]) + Words(texts[|texts| - 1])
  }

  lemma {:induction false} WordsLast(s: string, c: char)
    ensures Words(s + [c]) == Grow(Words(s), OpenEnd(s), c)
  {
    assert (s + [c])[..|s|] == s;
  }

  lemma {:induction false} WordsTrail(a: string, gap: string)
    requires AllSpace(gap)
    ensures Words(a + gap) == Words(a)
    decreases |gap|
  {
    hide IsSpace, OpenEnd, Words;
    if gap == "" {
      assert a + gap == a;
    } else {
      var n := |gap| - 1;
      WordsTrail(a, gap[..n]);
      WordsLast(a + gap[..n], gap[n]);
      assert a + gap == (a + gap[..n]) + [gap[n]];
    }
  }

  /** Words never run across a gap. */
  lemma {:induction false} WordsAcross(a: string, gap: string, b: string)
    requires gap != "" && AllSpace(gap)
    ensures Words(a + gap + b) == Words(a) + Words(b)
    decreases |b|
  {
    hide IsSpace;
    hide Grow, OpenEnd, AllSpace;
    var s := a + gap + b;
    if b == "" {
      assert s == a + gap;
      WordsTrail(a, gap);
    } else {
      var b' := b[..|b| - 1];
      WordsAcross(a, gap, b');
      assert s[..|s| - 1] == a + gap + b';
      OpenAcross(a, gap, b');
      GrowAppend(Words(a), Words(b'), OpenEnd(b'), b[|b| - 1]);
    }
  }

  lemma {:induction false} OpenAcross(a: string, gap: string, b: string)
    requires gap != "" && AllSpace(gap)
    ensures OpenEnd(a + gap + b) == OpenEnd(b)
  {
    hide IsSpace;
    var s := a + gap + b;
    assert s[|s| - 1] == if b == "" then gap[|gap| - 1] else b[|b| - 1];
  }

  lemma {:induction false} GrowAppend(u: seq<string>, v: seq<string>, joined: bool, c: char)
    requires joined ==> v != []
    ensures Grow(u + v, joined, c) == u + Grow(v, joined, c)
  {
    hide IsSpace;
    if joined {
      assert (u + v)[..|u + v| - 1] == u + v[..|v| - 1];
      Assoc(u, v[..|v| - 1], [v[|v| - 1] + [c]]);
    } else {
      Assoc(u, v, [[c]]);
    }
  }

  /** The non-whitespace characters of a text, in order. */
  function Ink(s: string): string {
    if s == "" then ""
    else Ink(s[..|s| - 1]) + (if IsSpace(s[|s| - 1]) then "" else [s[|s| - 1]])
  }

  function InkAll(texts: seq<string>): string {
    if texts == [] then ""
    else InkAll(texts[..|texts| - 1]) + Ink(texts[|texts| - 1])
  }

  function Glued(ws: seq<string>): string {
    if ws == [] then "" else Glued(ws[..|ws| - 1]) + ws[|ws| - 1]
  }

  lemma {:induction false} GluedConcat(u: seq<string>, v: seq<string>)
    ensures Glued(u + v) == Glued(u) + Glued(v)
    decreases |v|
  {
    if v == [] {
      assert u + v == u;
    } else {
      GluedConcat(u, v[..|v| - 1]);
      assert (u + v)[..|u + v| - 1] == u + v[..|v| - 1];
      Assoc(Glued(u), Glued(v[..|v| - 1]), v[|v| - 1]);
    }
  }

  lemma {:induction false} GluedGrow(ws: seq<string>, joined: bool, c: char)
    requires joined ==> ws != []
    ensures Glued(Grow(ws, joined, c)) == Glued(ws) + (if IsSpace(c) then "" else [c])
  {
    hide IsSpace;
    if !IsSpace(c) {
      var r := Grow(ws, joined, c);
      if joined {
        assert r[..|r| - 1] == ws[..|ws| - 1];
        Assoc(Glued(ws[..|ws| - 1]), ws[|ws| - 1], [c]);
      } else {
        assert r[..|r| - 1] == ws;
      }
    }
  }

  lemma {:induction false} GluedWords(s: string)
    ensures Glued(Words(s)) == Ink(s)
  {
    hide IsSpace, Grow, OpenEnd;
    if s != "" {
      GluedWords(s[..|s| - 1]);
      GluedGrow(Words(s[..|s| - 1]), OpenEnd(s[..|s| - 1]), s[|s| - 1]);
    }
  }

  lemma {:induction false} GluedWordsAll(texts: seq<string>)
    ensures Glued(WordsAll(texts)) == InkAll(texts)
  {
    if texts != [] {
      hide Words, Ink, Glued;
      var n := |texts| - 1;
      GluedWordsAll(texts[..n]);
      GluedWords(texts[n]);
      GluedConcat(WordsAll(texts[..n]), Words(texts[n]));
    }
  }

  /** Conserving the words conserves the characters. */
  lemma {:induction false} SameWordsSameInk(a: seq<string>, b: seq<string>)
    requires WordsAll(a) == WordsAll(b)
    ensures InkAll(a) == InkAll(b)
  {
    GluedWordsAll(a);
    GluedWordsAll(b);
  }

  lemma {:induction false} TakeWords(before: seq<string>, lines: seq<string>, l: nat)
    requires l < |lines|
    ensures before + WordsAll(lines[..l + 1]) == (before + WordsAll(lines[..l])) + Words(lines[l])
  {
    hide Words, WordsAll;
    WordsAllSnoc(lines[..l], lines[l]);
    assert lines[..l] + [lines[l]] == lines[..l + 1];
    Assoc(before, WordsAll(lines[..l]), Words(lines[l]));
  }

  lemma {:induction false} Assoc<T>(a: seq<T>, b: seq<T>, c: seq<T>)
    ensures (a + b) + c == a + (b + c)
  {
  }

  lemma {:induction false} WordsAllSnoc(texts: seq<string>, t: string)
    ensures WordsAll(texts + [t]) == WordsAll(texts) + Words(t)
  {
    assert (texts + [t])[..|texts|] == texts;
  }

  lemma {:induction false} WordsAllConcat(a: seq<string>, b: seq<string>)
    ensures WordsAll(a + b) == WordsAll(a) + WordsAll(b)
    decreases |b|
  {
    hide Words;
    if b == [] {
      assert a + b == a;
    } else {
      WordsAllConcat(a, b[..|b| - 1]);
      assert (a + b)[..|a + b| - 1] == a + b[..|b| - 1];
      Assoc(WordsAll(a), WordsAll(b[..|b| - 1]), Words(b[|b| - 1]));
    }
  }

  lemma {:induction false} WordsAllOne(t: string)
    ensures WordsAll([t]) == Words(t) && WordsAll([]) == []
  {
    WordsAllSnoc([], t);
    assert [] + [t] == [t];
  }

  lemma {:induction false} WordsOfSpace(s: string)
    requires AllSpace(s)
    ensures Words(s) == []
  {
    WordsTrail("", s);
    assert "" + s == s;
  }

  lemma {:induction false} WordsOfPadded(lead: string, core: string, trail: string)
    requires AllSpace(lead) && AllSpace(trail)
    ensures Words(lead + core + trail) == Words(core)
  {
    hide AllSpace, Words;
    WordsTrail(lead + core, trail);
    if lead == "" {
      assert lead + core == core;
    } else {
      WordsAcross("", lead, core);
      WordsOfSpace("");
      assert "" + lead + core == lead + core;
    }
  }

  lemma {:induction false} WordsOfStrip(s: string)
    ensures Words(Strip(s)) == Words(s)
  {
    hide Words, Strip, AllSpace;
    var lead, trail := StripDecompose(s);
    WordsOfPadded(lead, Strip(s), trail);
  }

  lemma {:induction false} BlankHasNoWords(s: string)
    requires Strip(s) == ""
    ensures Words(s) == []
  {
    WordsOfStrip(s);
  }

  lemma {:induction false} JoinConcat(a: seq<string>, b: seq<string>)
    requires a != [] && b != []
    ensures Join(a + b) == Join(a) + "\n" + Join(b)
    decreases |a|
  {
    if |a| == 1 {
      assert (a + b)[1..] == b;
    } else {
      JoinConcat(a[1..], b);
      assert (a + b)[1..] == a[1..] + b;
    }
  }

  lemma {:induction false} WordsOfJoin(lines: seq<string>)
    ensures Words(Join(lines)) == WordsAll(lines)
    decreases |lines|
  {
    hide Words, WordsAll;
    if |lines| == 0 {
      WordsOfSpace("");
      WordsAllOne("");
    } else if |lines| == 1 {
      WordsAllOne(lines[0]);
      assert lines == [lines[0]];
    } else {
      var n := |lines| - 1;
      JoinConcat(lines[..n], [lines[n]]);
      assert lines[..n] + [lines[n]] == lines;
      WordsAcross(Join(lines[..n]), "\n", lines[n]);
      WordsOfJoin(lines[..n]);
      WordsAllSnoc(lines[..n], lines[n]);
    }
  }

  // ---- splitting ------------------------------------------------------------

  function NewlineFrom(s: string, i: nat): (r: Option<nat>)
    requires i <= |s|
    ensures r.Some? ==> i <= r.value < |s| && s[r.value] == '\n' && forall k :: i <= k < r.value ==> s[k] != '\n'
    ensures r.None? ==> forall k :: i <= k < |s| ==> s[k] != '\n'
    decreases |s| - i
  {
    if i == |s| then None else if s[i] == '\n' then Some(i) else NewlineFrom(s, i + 1)
  }

  /** `s.split("\n")`. */
  function SplitLines(s: string): (lines: seq<string>)
    ensures |lines| > 0 && forall i :: 0 <= i < |lines| ==> '\n' !in lines[i]
    decreases |s|
  {
    match NewlineFrom(s, 0)
    case None => [s]
    case Some(k) => [s[..k]] + SplitLines(s[k + 1..])
  }

  lemma {:induction false} JoinSplitLines(s: string)
    ensures Join(SplitLines(s)) == s
    decreases |s|
  {
    var k := NewlineFrom(s, 0);
    if k.Some? {
      JoinSplitLines(s[k.value + 1..]);
      JoinConcat([s[..k.value]], SplitLines(s[k.value + 1..]));
      assert s == s[..k.value] + "\n" + s[k.value + 1..];
    }
  }

  function LastNewline(s: string, lo: nat, hi: nat): (r: Option<nat>)
    requires lo <= hi <= |s|
    ensures r.Some? ==> lo <= r.value < hi && s[r.value] == '\n'
  {
    if lo == hi then None else if s[hi - 1] == '\n' then Some(hi - 1) else LastNewline(s, lo, hi - 1)
  }

  /** Where a match of `\n\s*\n` starting at `p` ends, taking as much as possible. */
  function BlankLineEnd(s: string, p: nat): (end: Option<nat>)
    requires p < |s|
    ensures end.Some? ==>
              && p + 2 <= end.value <= |s| && AllSpace(s[p..end.value])
              && s[p] == '\n' == s[end.value - 1]
  {
    if s[p] != '\n' then None
    else
      var r := SkipSpaces(s, p + 1);
      match LastNewline(s, p + 1, r)
      case None => None
      case Some(e) =>
        assert AllSpace(s[p..e + 1]);
        Some(e + 1)
  }

  function FirstBlankLine(s: string, p: nat): (r: Option<(nat, nat)>)
    requires p <= |s|
    ensures r.Some? ==> p <= r.value.0 < |s| && BlankLineEnd(s, r.value.0) == Some(r.value.1)
    decreases |s| - p
  {
    if p == |s| then None
    else if BlankLineEnd(s, p).Some? then Some((p, BlankLineEnd(s, p).value))
    else FirstBlankLine(s, p + 1)
  }

  /** `re.split(r"\n\s*\n", s)`. */
  function Blocks(s: string): (blocks: seq<string>)
    decreases |s|
  {
    match FirstBlankLine(s, 0)
    case None => [s]
    case Some((p, end)) => [s[..p]] + Blocks(s[end..])
  }

  lemma {:induction false} WordsOfBlocks(s: string)
    ensures WordsAll(Blocks(s)) == Words(s)
    decreases |s|
  {
    hide Words, WordsAll, IsSpace, BlankLineEnd;
    match FirstBlankLine(s, 0)
    case None => WordsAllOne(s);
    case Some((p, end)) =>
      WordsOfBlocks(s[end..]);
      WordsAllConcat([s[..p]], Blocks(s[end..]));
      WordsAllOne(s[..p]);
      WordsAcross(s[..p], s[p..end], s[end..]);
      assert s == s[..p] + s[p..end] + s[end..];
  }

  /** The blocks are the text without blank lines between them. */
  predicate CutAtBlankLines(s: string, blocks: seq<string>) {
    && blocks != [] && blocks[0] <= s
    && (|blocks| == 1 ==> s == blocks[0])
    && (|blocks| > 1 ==>
          && |blocks[0]| < |s| && BlankLineEnd(s, |blocks[0]|).Some?
          && CutAtBlankLines(s[BlankLineEnd(s, |blocks[0]|).value..], blocks[1..]))
  }

  /** Cuts are made at blank lines alone. */
  lemma {:induction false} BlocksAreCut(s: string)
    ensures CutAtBlankLines(s, Blocks(s))
    decreases |s|
  {
    hide BlankLineEnd;
    match FirstBlankLine(s, 0)
    case None =>
    case Some((p, end)) =>
      BlocksAreCut(s[end..]);
      var blocks := Blocks(s);
      assert blocks[1..] == Blocks(s[end..]) && blocks[0] == s[..p];
  }

  /** And at every one: no block holds a blank line. */
  lemma {:induction false} BlocksAreWhole(s: string, b: nat, p: nat)
    requires b < |Blocks(s)| && p < |Blocks(s)[b]|
    ensures BlankLineEnd(Blocks(s)[b], p).None?
    decreases |s|
  {
    hide IsSpace, BlankLineEnd;
    match FirstBlankLine(s, 0)
    case None => NoBlankLine(s, 0, p);
    case Some((q, end)) =>
      if b > 0 {
        BlocksAreWhole(s[end..], b - 1, p);
      } else {
        NoBlankLine(s, 0, p);
        BlankLineLater(s, q, p);
      }
  }

  lemma {:induction false} NoBlankLine(s: string, from: nat, p: nat)
    requires from <= p < |s|
    requires FirstBlankLine(s, from).Some? ==> p < FirstBlankLine(s, from).value.0
    ensures BlankLineEnd(s, p).None?
    decreases |s| - from
  {
    hide BlankLineEnd;
    if BlankLineEnd(s, from).None? && from < p { NoBlankLine(s, from + 1, p); }
  }

  /** What matches in a prefix matches in the whole. */
  lemma {:induction false} BlankLineLater(s: string, q: nat, p: nat)
    requires p < q <= |s| && BlankLineEnd(s, p).None?
    ensures BlankLineEnd(s[..q], p).None?
  {
    hide IsSpace;
    if s[p] == '\n' {
      var t := s[..q];
      var r, r' := SkipSpaces(t, p + 1), SkipSpaces(s, p + 1);
      assert forall k :: p + 1 <= k < r ==> IsSpace(s[k]);
      assert r <= r';
      NoNewline(s, p + 1, r');
      assert forall k :: p + 1 <= k < r ==> t[k] == s[k];
    }
  }

  lemma {:induction false} NoNewline(s: string, lo: nat, hi: nat)
    requires lo <= hi <= |s| && LastNewline(s, lo, hi).None?
    ensures forall k :: lo <= k < hi ==> s[k] != '\n'
  {
    if lo < hi { NoNewline(s, lo, hi - 1); }
  }
}
