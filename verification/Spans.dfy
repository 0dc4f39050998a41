/** Verbatim span location (agentcore/trust/spans.py). */
module Spans {
  import opened Text

  /** A needle is looked up in a haystack with every run of whitespace read as one space, and
      the hit is reported in offsets of the original haystack. */
  datatype Span = Span(start: nat, end: nat, text: string)

  // ---- whitespace collapsing ------------------------------------------------

  /** Does the character at `i` survive collapsing? Only the first character of a
      whitespace run does. */
  predicate Kept(s: string, i: nat)
    requires i < |s|
  {
    !IsSpace(s[i]) || i == 0 || !IsSpace(s[i - 1])
  }

  function Flat(c: char): char {
    if IsSpace(c) then ' ' else c
  }

  function Collapse(s: string): string {
    if s == "" then ""
    else
      var n := |s| - 1;
      Collapse(s[..n]) + (if Kept(s, n) then [Flat(s[n])] else "")
  }

  /** Where each collapsed character came from. */
  function Offsets(s: string): seq<nat> {
    if s == "" then []
    else
      var n := |s| - 1;
      Offsets(s[..n]) + (if Kept(s, n) then [n] else [])
  }

  method CollapseWithMap(text: string) returns (collapsed: string, offsets: seq<nat>)
    ensures collapsed == Collapse(text) && offsets == Offsets(text)
  {
    collapsed, offsets := "", [];
    var inSpace := false;
    for index := 0 to |text|
      invariant inSpace == (index > 0 && IsSpace(text[index - 1]))
      invariant collapsed == Collapse(text[..index]) && offsets == Offsets(text[..index])
    {
      assert text[..index + 1][..index] == text[..index];
      var c := text[index];
      if IsSpace(c) {
        if !inSpace {
          collapsed, offsets := collapsed + " ", offsets + [index];
          inSpace := true;
        }
      } else {
        collapsed, offsets := collapsed + [c], offsets + [index];
        inSpace := false;
      }
    }
    assert text[..|text|] == text;
  }

  /** The offset map is strictly increasing, points at the characters it claims
      to, and inverts "length of the collapsed prefix". */
  lemma {:induction false} OffsetsMap(s: string)
    ensures |Offsets(s)| == |Collapse(s)| <= |s|
    ensures forall k :: 0 <= k < |Offsets(s)| ==>
              Offsets(s)[k] < |s| && Kept(s, Offsets(s)[k]) && Collapse(s)[k] == Flat(s[Offsets(s)[k]])
    ensures forall k, l :: 0 <= k < l < |Offsets(s)| ==> Offsets(s)[k] < Offsets(s)[l]
  {
    if s != "" {
      var n := |s| - 1;
      OffsetsMap(s[..n]);
      forall k | 0 <= k < |Offsets(s)|
        ensures Offsets(s)[k] < |s| && Kept(s, Offsets(s)[k]) && Collapse(s)[k] == Flat(s[Offsets(s)[k]])
      {
        if k < |Offsets(s[..n])| {
          var o := Offsets(s[..n])[k];
          assert s[..n][o] == s[o] && (o > 0 ==> s[..n][o - 1] == s[o - 1]);
        }
      }
    }
  }

  lemma {:induction false} OffsetsOrdered(s: string, p: nat, q: nat)
    requires p <= q < |Collapse(s)|
    ensures |Offsets(s)| == |Collapse(s)| && Offsets(s)[p] <= Offsets(s)[q] < |s|
  {
    OffsetsMap(s);
  }

  /** No whitespace run straddles the seam between `a` and `b`. */
  predicate CleanSeam(a: string, b: string) {
    a == "" || b == "" || !IsSpace(a[|a| - 1]) || !IsSpace(b[0])
  }

  /** Collapsing distributes over concatenation unless a whitespace run straddles
      the seam. */
  lemma {:induction false} CollapseConcat(a: string, b: string)
    requires CleanSeam(a, b)
    ensures Collapse(a + b) == Collapse(a) + Collapse(b)
    ensures Offsets(a + b) == Offsets(a) + Shifted(Offsets(b), |a|)
    decreases |b|
  {
    if b == "" {
      assert a + b == a;
    } else {
      ConcatStep(a, b[..|b| - 1], b[|b| - 1]);
      assert b[..|b| - 1] + [b[|b| - 1]] == b;
    }
  }

  lemma {:induction false} ConcatStep(a: string, b: string, c: char)
    requires CleanSeam(a, b + [c])
    ensures Collapse(a + (b + [c])) == Collapse(a) + Collapse(b + [c])
    ensures Offsets(a + (b + [c])) == Offsets(a) + Shifted(Offsets(b + [c]), |a|)
    decreases |b| + 1, 0
  {
    hide IsSpace, Collapse, Offsets, Shifted;
    CollapseConcat(a, b);
    CollapseSnoc(a + b, c);
    CollapseSnoc(b, c);
    ShiftedConcat(Offsets(b), if CollapseKeeps(b, c) then [|b|] else [], |a|);
    assert a + (b + [c]) == (a + b) + [c];
    assert CollapseKeeps(a + b, c) == CollapseKeeps(b, c);
  }

  predicate CollapseKeeps(s: string, c: char) {
    !IsSpace(c) || s == "" || !IsSpace(s[|s| - 1])
  }

  lemma {:induction false} ShiftedConcat(xs: seq<nat>, ys: seq<nat>, d: nat)
    ensures Shifted(xs + ys, d) == Shifted(xs, d) + Shifted(ys, d)
    ensures Shifted([], d) == []
    ensures |ys| == 1 ==> Shifted(ys, d) == [ys[0] + d]
  {
  }

  /** One more character, seen from the left. */
  lemma {:induction false} CollapseSnoc(s: string, c: char)
    ensures var keep := CollapseKeeps(s, c);
            && Collapse(s + [c]) == Collapse(s) + (if keep then [Flat(c)] else "")
            && Offsets(s + [c]) == Offsets(s) + (if keep then [|s|] else [])
  {
    hide IsSpace;
    assert (s + [c])[..|s|] == s;
  }

  function Shifted(xs: seq<nat>, d: nat): (ys: seq<nat>)
    ensures |ys| == |xs| && forall i :: 0 <= i < |xs| ==> ys[i] == xs[i] + d
  {
    seq(|xs|, i requires 0 <= i < |xs| => xs[i] + d)
  }

  lemma {:induction false} CollapseAllSpace(s: string)
    requires AllSpace(s)
    ensures AllSpace(Collapse(s))
  {
    if s != "" {
      CollapseAllSpace(s[..|s| - 1]);
    }
  }

  /** A stripped string collapses to something stripped. */
  lemma {:induction false} CollapseInkBounded(s: string)
    requires InkBounded(s)
    ensures InkBounded(Collapse(s))
    ensures Collapse(s)[0] == s[0] && Collapse(s)[|Collapse(s)| - 1] == s[|s| - 1]
  {
    var n := |s| - 1;
    assert s == s[..n] + [s[n]] && s == [s[0]] + s[1..];
    CollapseConcat([s[0]], s[1..]);
    assert Collapse([s[0]]) == [s[0]] by { assert [s[0]][..0] == ""; }
  }

  // ---- the needle -----------------------------------------------------------

  /** What is searched for: the needle with whitespace collapsed, then stripped. */
  function Needle(needle: string): string {
    Strip(Collapse(needle))
  }

  /** Collapsing and stripping commute, so stripping a quote first changes nothing. */
  lemma {:induction false} NeedleOfStrip(needle: string)
    ensures Needle(needle) == Collapse(Strip(needle)) == Needle(Strip(needle))
    ensures Needle(needle) == "" <==> Strip(needle) == ""
    ensures Needle(needle) == "" || InkBounded(Needle(needle))
  {
    hide IsSpace, Collapse, Strip;
    var core := Strip(needle);
    var lead, trail := StripDecompose(needle);
    NeedleOfPadded(lead, core, trail);
    NeedleOfPadded("", core, "");
    assert "" + core + "" == core;
    if core == "" {
      CollapseEmpty();
    } else {
      CollapseInkBounded(core);
    }
  }

  lemma {:induction false} CollapseEmpty()
    ensures Collapse("") == ""
  {
  }

  lemma {:induction false} NeedleOfPadded(lead: string, core: string, trail: string)
    requires AllSpace(lead) && AllSpace(trail) && (core == "" || InkBounded(core))
    ensures Needle(lead + core + trail) == Collapse(core)
  {
    hide IsSpace, Collapse, Strip;
    if core == "" {
      assert AllSpace(lead + trail);
      assert lead + core + trail == lead + trail;
      CollapseAllSpace(lead + trail);
      StripUnique(Collapse(lead + trail), "", "");
      assert Collapse(lead + trail) + "" + "" == Collapse(lead + trail);
      CollapseEmpty();
    } else {
      CollapseConcat(lead, core);
      CollapseConcat(lead + core, trail);
      CollapseAllSpace(lead);
      CollapseAllSpace(trail);
      CollapseInkBounded(core);
      StripUnique(Collapse(lead), Collapse(core), Collapse(trail));
    }
  }

  // ---- one span -------------------------------------------------------------

  /** The original text behind `m` collapsed characters from `p` on. */
  function SpanFrom(s: string, m: nat, p: nat): (span: Span)
    requires 0 < m && p + m <= |Collapse(s)|
    ensures span.start < span.end <= |s| && span.text == s[span.start..span.end]
    ensures |Offsets(s)| == |Collapse(s)|
    ensures span.start == Offsets(s)[p] && span.end == Offsets(s)[p + m - 1] + 1
  {
    OffsetsMap(s);
    OffsetsOrdered(s, p, p + m - 1);
    var start, end := Offsets(s)[p], Offsets(s)[p + m - 1] + 1;
    Span(start, end, s[start..end])
  }

  /** Locating the needle, as a function of the two strings. */
  function SpanOf(haystack: string, needle: string): Option<Span> {
    OffsetsMap(haystack);
    var t := Needle(needle);
    if t == "" then None
    else
      match Find(Collapse(haystack), t, 0)
      case None => None
      case Some(p) => Some(SpanFrom(haystack, |t|, p))
  }

  method FindSpan(haystack: string, needle: string) returns (r: Option<Span>)
    ensures r == SpanOf(haystack, needle)
  {
    hide IsSpace, Collapse, Offsets;
    NeedleOfStrip(needle);
    OffsetsMap(haystack);
    if needle == "" || Strip(needle) == "" {
      return None;
    }
    var flatHay, offsets := CollapseWithMap(haystack);
    var flatNeedle := Strip(Collapse(needle));
    var position := Find(flatHay, flatNeedle, 0);
    if position.None? {
      return None;
    }
    var start := offsets[position.value];
    var last := offsets[position.value + |flatNeedle| - 1];
    var end := last + 1;
    r := Some(Span(start, end, haystack[start..end]));
  }

  /** The meaning of a hit, stated on the original text alone: a slice that begins
      and ends on a non-space character and reads the same as the needle once
      whitespace runs are collapsed. */
  ghost predicate Occurrence(haystack: string, needle: string, i: nat, j: nat) {
    && i < j <= |haystack|
    && InkBounded(haystack[i..j])
    && Collapse(haystack[i..j]) == Needle(needle)
  }

  /** Length of the collapsed text before offset `i`. */
  function Rank(s: string, i: nat): nat
    requires i <= |s|
  {
    |Collapse(s[..i])|
  }

  lemma {:induction false} CollapsePrefix(s: string, i: nat)
    requires i <= |s|
    ensures Rank(s, i) <= |Collapse(s)| && Collapse(s)[..Rank(s, i)] == Collapse(s[..i])
    ensures |Offsets(s)| == |Collapse(s)| && Offsets(s)[..Rank(s, i)] == Offsets(s[..i])
    decreases |s|
  {
    OffsetsMap(s);
    OffsetsMap(s[..i]);
    if i == |s| {
      assert s[..i] == s;
    } else {
      var n := |s| - 1;
      assert s[..n][..i] == s[..i];
      CollapsePrefix(s[..n], i);
    }
  }

  /** `Offsets` and `Rank` are inverse on kept characters. */
  lemma {:induction false} RankOfKept(s: string, i: nat)
    requires i < |s| && Kept(s, i)
    ensures Rank(s, i + 1) == Rank(s, i) + 1 <= |Collapse(s)| == |Offsets(s)|
    ensures Offsets(s)[Rank(s, i)] == i
  {
    CollapsePrefix(s, i + 1);
    CollapsePrefix(s, i);
    assert s[..i + 1][..i] == s[..i];
    OffsetsMap(s[..i]);
    assert Offsets(s[..i + 1]) == Offsets(s[..i]) + [i];
    assert Offsets(s)[..Rank(s, i + 1)][Rank(s, i)] == i;
  }

  lemma {:induction false} RankOfOffset(s: string, k: nat)
    requires k < |Collapse(s)|
    ensures |Offsets(s)| == |Collapse(s)| && Offsets(s)[k] < |s| && Rank(s, Offsets(s)[k]) == k
  {
    OffsetsMap(s);
    var o := Offsets(s)[k];
    RankOfKept(s, o);
    var r := Rank(s, o);
    assert r < |Offsets(s)| && Offsets(s)[r] == Offsets(s)[k];
  }

  /** Collapsing a slice is slicing the collapse, when the slice starts on a
      non-space character. */
  lemma {:induction false} CollapseSlice(s: string, i: nat, j: nat)
    requires i < j <= |s| && !IsSpace(s[i])
    ensures Rank(s, i) <= Rank(s, j) <= |Collapse(s)|
    ensures Collapse(s[i..j]) == Collapse(s)[Rank(s, i)..Rank(s, j)]
  {
    CollapsePrefix(s, i);
    CollapsePrefix(s, j);
    CollapseConcat(s[..i], s[i..j]);
    assert s[..i] + s[i..j] == s[..j];
  }

  /** Windows of the collapsed text that equal the needle and slices of the
      original that mean the needle are in one-to-one correspondence. */
  lemma {:induction false} OccurrenceIsWindow(haystack: string, needle: string, i: nat, j: nat)
    requires Occurrence(haystack, needle, i, j)
    ensures |Offsets(haystack)| == |Collapse(haystack)| && Needle(needle) != ""
    ensures At(Collapse(haystack), Needle(needle), Rank(haystack, i))
    ensures Offsets(haystack)[Rank(haystack, i)] == i
    ensures Offsets(haystack)[Rank(haystack, i) + |Needle(needle)| - 1] == j - 1
  {
    hide IsSpace, Collapse, Offsets, Needle;
    var slice := haystack[i..j];
    assert haystack[i] == slice[0] && haystack[j - 1] == slice[|slice| - 1];
    CollapseSlice(haystack, i, j);
    CollapseInkBounded(slice);
    RankOfKept(haystack, i);
    RankOfKept(haystack, j - 1);
  }

  lemma {:induction false} WindowEnds(flat: string, t: string, p: nat)
    requires t != "" && At(flat, t, p)
    ensures flat[p] == t[0] && flat[p + |t| - 1] == t[|t| - 1]
  {
    assert flat[p..p + |t|][0] == flat[p] && flat[p..p + |t|][|t| - 1] == flat[p + |t| - 1];
  }

  /** A collapsed position that does not hold a space came from its own character. */
  lemma {:induction false} InkPosition(s: string, p: nat)
    requires p < |Collapse(s)| && !IsSpace(Collapse(s)[p])
    ensures |Offsets(s)| == |Collapse(s)|
    ensures var o := Offsets(s)[p];
            o < |s| && s[o] == Collapse(s)[p] && Rank(s, o) == p && Rank(s, o + 1) == p + 1
  {
    OffsetsMap(s);
    RankOfOffset(s, p);
    RankOfKept(s, Offsets(s)[p]);
  }

  lemma {:induction false} WindowIsOccurrence(haystack: string, needle: string, p: nat)
    requires Needle(needle) != "" && At(Collapse(haystack), Needle(needle), p)
    ensures |Offsets(haystack)| == |Collapse(haystack)|
    ensures Occurrence(haystack, needle, Offsets(haystack)[p], Offsets(haystack)[p + |Needle(needle)| - 1] + 1)
  {
    hide IsSpace, Collapse, Offsets, Needle;
    var t := Needle(needle);
    NeedleOfStrip(needle);
    var flat, last := Collapse(haystack), p + |t| - 1;
    WindowEnds(flat, t, p);
    InkPosition(haystack, p);
    InkPosition(haystack, last);
    OffsetsMap(haystack);
    var i, j := Offsets(haystack)[p], Offsets(haystack)[last] + 1;
    CollapseSlice(haystack, i, j);
    assert haystack[i..j][0] == haystack[i] && haystack[i..j][j - i - 1] == haystack[j - 1];
  }

  /** A span is returned exactly when the needle occurs; it is the leftmost
      occurrence, no other occurrence starts where it does, and its text is the
      haystack's own. */
  lemma {:induction false} SpanIsLeftmostOccurrence(haystack: string, needle: string)
    ensures SpanOf(haystack, needle).Some? <==> exists i, j :: Occurrence(haystack, needle, i, j)
    ensures var r := SpanOf(haystack, needle);
            r.Some? ==>
              && Occurrence(haystack, needle, r.value.start, r.value.end)
              && r.value.text == haystack[r.value.start..r.value.end]
              && forall i, j :: Occurrence(haystack, needle, i, j) ==>
                   r.value.start < i || (r.value.start == i && r.value.end == j)
  {
    var t := Needle(needle);
    var r := SpanOf(haystack, needle);
    OffsetsMap(haystack);
    hide IsSpace, Collapse, Offsets, Needle;
    if r.Some? {
      WindowIsOccurrence(haystack, needle, Find(Collapse(haystack), t, 0).value);
    }
    forall i, j | Occurrence(haystack, needle, i, j)
      ensures r.Some? && (r.value.start < i || (r.value.start == i && r.value.end == j))
    {
      OccurrenceIsWindow(haystack, needle, i, j);
    }
  }

  // ---- all spans ------------------------------------------------------------

  /** Greedy, left-to-right, non-overlapping positions of `t` in `flat`. */
  function GreedyPositions(flat: string, t: string, from: nat): (ps: seq<nat>)
    requires t != ""
    ensures forall k :: 0 <= k < |ps| ==> from <= ps[k] && At(flat, t, ps[k])
    decreases |flat| - from
  {
    match Find(flat, t, from)
    case None => []
    case Some(p) => [p] + GreedyPositions(flat, t, p + |t|)
  }

  function SpansAt(s: string, m: nat, ps: seq<nat>): (spans: seq<Span>)
    requires m > 0
    requires forall k :: 0 <= k < |ps| ==> ps[k] + m <= |Collapse(s)|
    ensures |spans| == |ps|
    ensures forall k :: 0 <= k < |ps| ==> spans[k] == SpanFrom(s, m, ps[k])
  {
    seq(|ps|, k requires 0 <= k < |ps| => SpanFrom(s, m, ps[k]))
  }

  /** Every occurrence, found in one pass over the collapsed haystack. */
  function AllSpans(haystack: string, needle: string): seq<Span> {
    var t := Needle(needle);
    if t == "" then [] else SpansAt(haystack, |t|, GreedyPositions(Collapse(haystack), t, 0))
  }

  /** Searching a suffix of a text is searching the text from there. */
  lemma {:induction false} FindInSuffix(flat: string, r: nat, t: string)
    requires r <= |flat|
    ensures match Find(flat, t, r)
            case None => Find(flat[r..], t, 0).None?
            case Some(p) => Find(flat[r..], t, 0) == Some(p - r)
  {
    hide At, Find;
    var f, g := Find(flat, t, r), Find(flat[r..], t, 0);
    if g.Some? {
      AtSuffix(flat, r, t, g.value);
    }
    if f.Some? {
      AtSuffix(flat, r, t, f.value - r);
    }
  }

  lemma {:induction false} AtSuffix(flat: string, r: nat, t: string, i: nat)
    requires r <= |flat|
    ensures At(flat, t, r + i) == At(flat[r..], t, i)
  {
    if r + i + |t| <= |flat| {
      SliceOfDrop(flat, r, r + i, r + i + |t|);
    }
  }

  /** The suffix that starts just after a non-space character, collapsed afresh,
      is the rest of the collapsed text. */
  lemma {:induction false} CollapseSuffix(s: string, cursor: nat)
    requires cursor <= |s| && (cursor == 0 || !IsSpace(s[cursor - 1]))
    ensures Rank(s, cursor) <= |Collapse(s)| && |Offsets(s)| == |Collapse(s)|
    ensures Collapse(s[cursor..]) == Collapse(s)[Rank(s, cursor)..]
    ensures Shifted(Offsets(s[cursor..]), cursor) == Offsets(s)[Rank(s, cursor)..]
  {
    hide IsSpace, Collapse, Offsets;
    assert s[..cursor] + s[cursor..] == s;
    CollapseConcat(s[..cursor], s[cursor..]);
    OffsetsMap(s);
    OffsetsMap(s[..cursor]);
  }

  /** The greedy step: after a hit, searching the remaining haystack finds the next
      hit of the one-pass search, at the same place in the original text. */
  lemma {:induction false} SuffixSearch(haystack: string, needle: string, cursor: nat)
    requires cursor <= |haystack|
    requires cursor == 0 || !IsSpace(haystack[cursor - 1])
    requires Needle(needle) != ""
    ensures |Offsets(haystack)| == |Collapse(haystack)|
    ensures var t := Needle(needle);
            match Find(Collapse(haystack), t, Rank(haystack, cursor))
            case None => SpanOf(haystack[cursor..], needle).None?
            case Some(p) =>
              var hit := SpanFrom(haystack, |t|, p);
              && cursor <= hit.start
              && SpanOf(haystack[cursor..], needle) == Some(Span(hit.start - cursor, hit.end - cursor, hit.text))
              && !IsSpace(haystack[hit.end - 1])
              && Rank(haystack, hit.end) == p + |t|
  {
    hide *;
    var t := Needle(needle);
    var flat, r := Collapse(haystack), Rank(haystack, cursor);
    CollapseSuffix(haystack, cursor);
    FindInSuffix(flat, r, t);
    if Find(flat, t, r).Some? {
      HitInSuffix(haystack, needle, cursor, Find(flat, t, r).value);
    } else {
      NoHit(haystack[cursor..], needle);
    }
  }

  lemma {:induction false} HitInSuffix(haystack: string, needle: string, cursor: nat, p: nat)
    requires cursor <= |haystack| && (cursor == 0 || !IsSpace(haystack[cursor - 1]))
    requires Needle(needle) != "" && Rank(haystack, cursor) <= p
    requires At(Collapse(haystack), Needle(needle), p)
    requires Find(Collapse(haystack[cursor..]), Needle(needle), 0) == Some(p - Rank(haystack, cursor))
    ensures var hit := SpanFrom(haystack, |Needle(needle)|, p);
            && cursor <= hit.start
            && SpanOf(haystack[cursor..], needle) == Some(Span(hit.start - cursor, hit.end - cursor, hit.text))
            && !IsSpace(haystack[hit.end - 1])
            && Rank(haystack, hit.end) == p + |Needle(needle)|
  {
    hide IsSpace, Collapse, Offsets, Needle, Find, SpanOf, Rank, SpanFrom;
    var t, flat, suf := Needle(needle), Collapse(haystack), haystack[cursor..];
    NeedleOfStrip(needle);
    WindowEnds(flat, t, p);
    InkPosition(haystack, p + |t| - 1);
    HitIs(suf, needle, p - Rank(haystack, cursor));
    SuffixOffset(haystack, cursor, p);
    SuffixOffset(haystack, cursor, p + |t| - 1);
    var hit := SpanFrom(haystack, |t|, p);
    SliceOfDrop(haystack, cursor, hit.start, hit.end);
  }

  lemma {:induction false} SuffixOffset(s: string, cursor: nat, p: nat)
    requires cursor <= |s| && (cursor == 0 || !IsSpace(s[cursor - 1]))
    requires Rank(s, cursor) <= p < |Collapse(s)|
    ensures |Offsets(s)| == |Collapse(s)|
    ensures |Offsets(s[cursor..])| == |Collapse(s)| - Rank(s, cursor)
    ensures Offsets(s)[p] == Offsets(s[cursor..])[p - Rank(s, cursor)] + cursor
  {
    hide IsSpace, Collapse, Offsets;
    CollapseSuffix(s, cursor);
    assert Offsets(s)[p] == Offsets(s)[Rank(s, cursor)..][p - Rank(s, cursor)];
  }

  method FindAllSpans(haystack: string, needle: string) returns (spans: seq<Span>)
    ensures spans == AllSpans(haystack, needle)
  {
    hide IsSpace, Collapse, Offsets, Needle, SpanOf, Find, GreedyPositions, Kept, SpanFrom, SpansAt;
    ghost var t := Needle(needle);
    ghost var flat := Collapse(haystack);
    spans := [];
    var cursor := 0;
    ghost var done: seq<nat> := [];
    RankEnds(haystack);
    while cursor < |haystack|
      invariant cursor <= |haystack| && (cursor == 0 || !IsSpace(haystack[cursor - 1]))
      invariant t == "" ==> spans == []
      invariant forall k :: 0 <= k < |done| ==> done[k] + |t| <= |flat|
      invariant t != "" ==> spans == SpansAt(haystack, |t|, done)
      invariant t != "" ==>
                  GreedyPositions(flat, t, 0) == done + GreedyPositions(flat, t, Rank(haystack, cursor))
      decreases |haystack| - cursor
    {
      var span := FindSpan(haystack[cursor..], needle);
      if t == "" {
        EmptyNeedle(haystack[cursor..], needle);
      } else {
        SuffixSearch(haystack, needle, cursor);
      }
      if t != "" {
        GreedyStep(flat, t, done, Rank(haystack, cursor));
      }
      if span.None? {
        return;
      }
      ghost var p := Find(flat, t, Rank(haystack, cursor)).value;
      SpansAtSnoc(haystack, |t|, done, p);
      spans := spans + [Span(cursor + span.value.start, cursor + span.value.end, span.value.text)];
      done := done + [p];
      cursor := cursor + span.value.end;
    }
    if t != "" {
      GreedyStep(flat, t, done, |flat|);
    }
  }

  lemma {:induction false} SpansAtSnoc(s: string, m: nat, ps: seq<nat>, p: nat)
    requires m > 0 && p + m <= |Collapse(s)| && forall k :: 0 <= k < |ps| ==> ps[k] + m <= |Collapse(s)|
    ensures SpansAt(s, m, ps + [p]) == SpansAt(s, m, ps) + [SpanFrom(s, m, p)]
  {
    hide Collapse, SpanFrom;
  }

  /** Unfolds one step of the greedy search. */
  lemma {:induction false} GreedyStep(flat: string, t: string, done: seq<nat>, r: nat)
    requires t != ""
    requires GreedyPositions(flat, t, 0) == done + GreedyPositions(flat, t, r)
    ensures match Find(flat, t, r)
            case None => GreedyPositions(flat, t, 0) == done
            case Some(p) => GreedyPositions(flat, t, 0) == (done + [p]) + GreedyPositions(flat, t, p + |t|)
    ensures r == |flat| ==> Find(flat, t, r).None?
  {
    if Find(flat, t, r).Some? {
      var p := Find(flat, t, r).value;
      var rest := GreedyPositions(flat, t, p + |t|);
      assert done + ([p] + rest) == (done + [p]) + rest;
    }
  }

  lemma {:induction false} HitIs(haystack: string, needle: string, p: nat)
    requires Needle(needle) != "" && Find(Collapse(haystack), Needle(needle), 0) == Some(p)
    ensures SpanOf(haystack, needle) == Some(SpanFrom(haystack, |Needle(needle)|, p))
  {
  }

  lemma {:induction false} NoHit(haystack: string, needle: string)
    requires Needle(needle) != "" && Find(Collapse(haystack), Needle(needle), 0).None?
    ensures SpanOf(haystack, needle).None?
  {
  }

  lemma {:induction false} EmptyNeedle(haystack: string, needle: string)
    requires Needle(needle) == ""
    ensures SpanOf(haystack, needle).None?
  {
  }

  lemma {:induction false} RankEnds(s: string)
    ensures Rank(s, 0) == 0 && Rank(s, |s|) == |Collapse(s)|
  {
    assert s[..0] == "" && s[..|s|] == s;
  }

  predicate Spaced(ps: seq<nat>, m: nat) {
    forall k, l :: 0 <= k < l < |ps| ==> ps[k] + m <= ps[l]
  }

  lemma {:induction false} GreedyDisjoint(flat: string, t: string, from: nat)
    requires t != ""
    ensures Spaced(GreedyPositions(flat, t, from), |t|)
    decreases |flat| - from
  {
    hide Spaced, Find;
    if Find(flat, t, from).Some? {
      var p := Find(flat, t, from).value;
      GreedyDisjoint(flat, t, p + |t|);
      SpacedCons(p, GreedyPositions(flat, t, p + |t|), |t|);
    } else {
      SpacedNil(|t|);
    }
  }

  lemma {:induction false} SpacedNil(m: nat)
    ensures Spaced([], m)
  {
  }

  lemma {:induction false} SpacedCons(p: nat, ps: seq<nat>, m: nat)
    requires Spaced(ps, m) && forall k :: 0 <= k < |ps| ==> p + m <= ps[k]
    ensures Spaced([p] + ps, m)
  {
  }

  /** Every position where the text matches lies inside one of the greedy matches. */
  lemma {:induction false} GreedyCovers(flat: string, t: string, from: nat, q: nat) returns (k: nat)
    requires t != "" && from <= q && At(flat, t, q)
    ensures var ps := GreedyPositions(flat, t, from);
            k < |ps| && ps[k] <= q < ps[k] + |t|
    decreases |flat| - from
  {
    hide At;
    var p := Find(flat, t, from).value;
    assert GreedyPositions(flat, t, from) == [p] + GreedyPositions(flat, t, p + |t|);
    if q < p + |t| {
      k := 0;
    } else {
      k := GreedyCovers(flat, t, p + |t|, q);
      k := k + 1;
    }
  }

  lemma {:induction false} SpanCount(haystack: string, needle: string)
    requires Needle(needle) != ""
    ensures |AllSpans(haystack, needle)| == |GreedyPositions(Collapse(haystack), Needle(needle), 0)|
  {
  }

  /** The k-th span in terms of the k-th greedy position. */
  lemma {:induction false} SpanAt(haystack: string, needle: string, k: nat) returns (p: nat)
    requires k < |AllSpans(haystack, needle)|
    ensures Needle(needle) != "" && At(Collapse(haystack), Needle(needle), p)
    ensures AllSpans(haystack, needle)[k] == SpanFrom(haystack, |Needle(needle)|, p)
    ensures |GreedyPositions(Collapse(haystack), Needle(needle), 0)| == |AllSpans(haystack, needle)|
    ensures p == GreedyPositions(Collapse(haystack), Needle(needle), 0)[k]
  {
    hide IsSpace, Collapse, Offsets, Needle, GreedyPositions, Find, SpanFrom;
    p := GreedyPositions(Collapse(haystack), Needle(needle), 0)[k];
  }

  /** The list of all spans holds occurrences of the needle, in order and disjoint. */
  lemma {:induction false} AllSpansAreOccurrences(haystack: string, needle: string)
    ensures var spans := AllSpans(haystack, needle);
            && (forall k :: 0 <= k < |spans| ==>
                  && Occurrence(haystack, needle, spans[k].start, spans[k].end)
                  && spans[k].text == haystack[spans[k].start..spans[k].end])
            && (forall k, l :: 0 <= k < l < |spans| ==> spans[k].end <= spans[l].start)
  {
    hide AllSpans, Needle, Collapse, InkBounded, Find, GreedyPositions, IsSpace;
    var spans := AllSpans(haystack, needle);
    forall k | 0 <= k < |spans|
      ensures Occurrence(haystack, needle, spans[k].start, spans[k].end)
      ensures spans[k].text == haystack[spans[k].start..spans[k].end]
    {
      var p := SpanAt(haystack, needle, k);
      WindowIsOccurrence(haystack, needle, p);
    }
    forall k, l | 0 <= k < l < |spans|
      ensures spans[k].end <= spans[l].start
    {
      SpansDisjoint(haystack, needle, k, l);
    }
  }

  lemma {:induction false} SpansDisjoint(haystack: string, needle: string, k: nat, l: nat)
    requires k < l < |AllSpans(haystack, needle)|
    ensures AllSpans(haystack, needle)[k].end <= AllSpans(haystack, needle)[l].start
  {
    hide IsSpace, Collapse, Offsets, Needle, GreedyPositions, Find, AllSpans;
    var t := Needle(needle);
    var p := SpanAt(haystack, needle, k);
    var q := SpanAt(haystack, needle, l);
    GreedyDisjoint(Collapse(haystack), t, 0);
    OffsetsMap(haystack);
    var last := p + |t| - 1;
    assert Offsets(haystack)[last] < Offsets(haystack)[q];
  }

  /** Nothing is missed: every occurrence begins inside one of the listed spans. */
  lemma {:induction false} AllSpansCover(haystack: string, needle: string, i: nat, j: nat) returns (k: nat)
    requires Occurrence(haystack, needle, i, j)
    ensures var spans := AllSpans(haystack, needle);
            k < |spans| && spans[k].start <= i < spans[k].end
  {
    hide IsSpace, Collapse, Offsets, Needle, GreedyPositions, Find, InkBounded, Rank, AllSpans, SpanFrom;
    var t, flat := Needle(needle), Collapse(haystack);
    OccurrenceIsWindow(haystack, needle, i, j);
    var q := Rank(haystack, i);
    k := GreedyCovers(flat, t, 0, q);
    SpanCount(haystack, needle);
    var p := SpanAt(haystack, needle, k);
    OffsetsOrdered(haystack, p, q);
    OffsetsOrdered(haystack, q, p + |t| - 1);
  }
}
