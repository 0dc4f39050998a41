/** The client's own span location (frontend/src/components/CitationInspector.jsx),
    compared with the server's. Both are read over the one whitespace predicate
    of module Text. */
module Highlight {
  import opened Text
  import opened Spans

  datatype Mark = Mark(start: nat, end: nat)

  /** The first index at which `flatIndex` characters of the collapsed text have
      been passed, or the length of the text. */
  method OriginalIndex(text: string, flatIndex: nat) returns (index: nat)
    ensures index <= |text|
    ensures forall i :: 0 <= i < index ==> Rank(text, i) < flatIndex
    ensures flatIndex <= Rank(text, |text|) ==> Rank(text, index) == flatIndex
    ensures Rank(text, |text|) < flatIndex ==> index == |text|
  {
    hide IsSpace;
    var flat, inSpace := 0, false;
    RankEnds(text);
    for i := 0 to |text|
      invariant flat == Rank(text, i) && flat <= flatIndex
      invariant inSpace == (i > 0 && IsSpace(text[i - 1]))
      invariant forall k :: 0 <= k < i ==> Rank(text, k) < flatIndex
    {
      if flat == flatIndex {
        RankMonotone(text, i, |text|);
        return i;
      }
      RankStep(text, i);
      if IsSpace(text[i]) {
        if !inSpace {
          flat := flat + 1;
          inSpace := true;
        }
      } else {
        flat := flat + 1;
        inSpace := false;
      }
    }
    return |text|;
  }

  lemma {:induction false} RankStep(s: string, i: nat)
    requires i < |s|
    ensures Rank(s, i + 1) == Rank(s, i) + (if Kept(s, i) then 1 else 0)
  {
    assert s[..i + 1][..i] == s[..i];
    assert Kept(s[..i + 1], i) == Kept(s, i);
  }

  lemma {:induction false} RankMonotone(s: string, i: nat, j: nat)
    requires i <= j <= |s|
    ensures Rank(s, i) <= Rank(s, j)
    decreases j - i
  {
    if i < j {
      RankMonotone(s, i, j - 1);
      RankStep(s, j - 1);
    }
  }

  /** `index` is the least offset with `p` collapsed characters before it. */
  ghost predicate LeastWithRank(s: string, p: nat, index: nat) {
    index <= |s| && Rank(s, index) == p && forall i :: 0 <= i < index ==> Rank(s, i) < p
  }

  method Highlighted(text: string, quote: string) returns (mark: Option<Mark>)
    ensures mark.Some? <==> SpanOf(text, quote).Some?
    ensures mark.Some? ==>
              var server := SpanOf(text, quote).value;
              && Marks(text, server.start, mark.value.start)
              && mark.value.end == server.end
              && mark.value.start <= server.start < server.end <= |text|
  {
    hide IsSpace, Collapse, Offsets, Find, SpanOf;
    NeedleOfStrip(quote);
    if text == "" || quote == "" {
      EmptySides(text, quote);
      return None;
    }
    var haystack, needle := Collapse(text), Strip(Collapse(quote));
    var at := Find(haystack, needle, 0);
    if at.None? || needle == "" {
      if needle == "" { EmptyNeedle(text, quote); } else { NoHit(text, quote); }
      return None;
    }
    HitIs(text, quote, at.value);
    RankEnds(text);
    var start := OriginalIndex(text, at.value);
    var end := OriginalIndex(text, at.value + |needle|);
    ServerMark(text, quote, at.value, start, end);
    mark := Some(Mark(start, end));
  }

  lemma {:induction false} EmptySides(text: string, quote: string)
    requires text == "" || quote == ""
    ensures SpanOf(text, quote).None?
  {
    NeedleOfStrip(quote);
  }

  /** Where the client starts relative to the server: at the same character, or
      earlier by whitespace only; exactly there unless at least two whitespace
      characters stand directly before the match. */
  ghost predicate Marks(text: string, server: nat, client: nat) {
    && client <= server <= |text|
    && AllSpace(text[client..server])
    && (client == server <==> !(server >= 2 && IsSpace(text[server - 1]) && IsSpace(text[server - 2])))
  }

  lemma {:induction false} ServerMark(text: string, quote: string, p: nat, start: nat, end: nat)
    requires Needle(quote) != "" && Find(Collapse(text), Needle(quote), 0) == Some(p)
    requires LeastWithRank(text, p, start) && LeastWithRank(text, p + |Needle(quote)|, end)
    ensures var server := SpanOf(text, quote);
            && server.Some? && server.value.start < server.value.end <= |text|
            && Marks(text, server.value.start, start) && end == server.value.end
  {
    hide IsSpace, Collapse, Offsets, Find, SpanOf, Needle, Rank;
    var t := Needle(quote);
    HitIs(text, quote, p);
    NeedleOfStrip(quote);
    WindowEnds(Collapse(text), t, p);
    InkPosition(text, p);
    InkPosition(text, p + |t| - 1);
    LeastBeforeInk(text, p, Offsets(text)[p], start);
    LeastAfterInk(text, p + |t| - 1, Offsets(text)[p + |t| - 1], end);
  }

  lemma {:induction false} LeastAfterInk(s: string, p: nat, last: nat, index: nat)
    requires last < |s| && Rank(s, last) == p && Rank(s, last + 1) == p + 1
    requires LeastWithRank(s, p + 1, index)
    ensures index == last + 1
  {
    hide Rank;
    assert index <= last + 1;
    if index <= last {
      RankMonotone(s, index, last);
    }
  }

  lemma {:induction false} LeastBeforeInk(s: string, p: nat, o: nat, index: nat)
    requires o < |s| && !IsSpace(s[o]) && Rank(s, o) == p
    requires LeastWithRank(s, p, index)
    ensures Marks(s, o, index)
  {
    hide Rank, IsSpace;
    assert index <= o;
    forall i | index <= i < o ensures IsSpace(s[i]) && !Kept(s, i) {
      RankMonotone(s, index, i);
      RankMonotone(s, i + 1, o);
      RankStep(s, i);
    }
    forall i | 0 <= i < |s[index..o]| ensures IsSpace(s[index..o][i]) {
      assert s[index..o][i] == s[index + i];
    }
    if index == o && o >= 2 {
      RankStep(s, o - 1);
    }
    if index < o {
      assert !Kept(s, o - 1);
    }
  }
}
