/** What it means to occur verbatim, told in words (agentcore/trust/spans.py, lines 45-96, and
    agentcore/trust/validator.py, lines 170-196). */
module Quotes {
  import opened Text
  import opened Types
  import opened Spans
  import opened Wording
  import opened Validator

  /** Words with single spaces between them. */
  function Spaced(ws: seq<string>): string {
    if ws == [] then ""
    else if |ws| == 1 then ws[0]
    else Spaced(ws[..|ws| - 1]) + " " + ws[|ws| - 1]
  }

  lemma {:induction false} SpacedLonger(ws: seq<string>, c: char)
    requires ws != []
    ensures Spaced(ws[..|ws| - 1] + [ws[|ws| - 1] + [c]]) == Spaced(ws) + [c]
  {
    var n := |ws| - 1;
    var more := ws[..n] + [ws[n] + [c]];
    assert more[..n] == ws[..n];
  }

  lemma {:induction false} SpacedMore(ws: seq<string>, c: char)
    ensures Spaced(ws + [[c]]) == if ws == [] then [c] else Spaced(ws) + " " + [c]
  {
    assert (ws + [[c]])[..|ws|] == ws;
  }

  function Trail(s: string): string {
    if s != "" && IsSpace(s[|s| - 1]) then " " else ""
  }

  /** A text that begins with ink collapses to its words with single spaces between them. */
  lemma {:induction false} CollapseIsSpaced(s: string)
    requires s == "" || !IsSpace(s[0])
    ensures Collapse(s) == Spaced(Words(s)) + Trail(s)
    ensures s != "" ==> Words(s) != []
  {
    hide IsSpace, Collapse, Words;
    NothingToCollapse();
    if s != "" {
      var n := |s| - 1;
      CollapseIsSpaced(s[..n]);
      WordsLast(s[..n], s[n]);
      CollapseSnoc(s[..n], s[n]);
      assert s == s[..n] + [s[n]];
      SpacedStep(s[..n], s[n]);
    }
  }

  lemma {:induction false} NothingToCollapse()
    ensures Collapse("") == "" && Words("") == [] && Spaced([]) == ""
  {
  }

  lemma {:induction false} SpacedStep(s: string, c: char)
    requires s == "" ==> !IsSpace(c)
    requires Collapse(s) == Spaced(Words(s)) + Trail(s) && (s != "" ==> Words(s) != []) && (OpenEnd(s) ==> Words(s) != [])
    requires s == "" ==> Words(s) == []
    requires Words(s + [c]) == Grow(Words(s), OpenEnd(s), c)
    requires Collapse(s + [c]) == Collapse(s) + (if CollapseKeeps(s, c) then [Flat(c)] else "")
    ensures Collapse(s + [c]) == Spaced(Words(s + [c])) + Trail(s + [c])
    ensures Words(s + [c]) != []
  {
    hide IsSpace, Collapse, Words, Spaced;
    var ws := Words(s);
    assert (s + [c])[|s|] == c;
    if !IsSpace(c) {
      if OpenEnd(s) { SpacedLonger(ws, c); } else { SpacedMore(ws, c); }
      assert s == "" ==> Spaced(ws) == "" by { NothingToCollapse(); }
    }
  }

  /** Collapsing changes no word. */
  lemma {:induction false} CollapseKeepsWords(s: string)
    ensures Words(Collapse(s)) == Words(s) && OpenEnd(Collapse(s)) == OpenEnd(s)
  {
    hide IsSpace, Words, Collapse;
    if s == "" {
      NothingToCollapse();
    } else {
      var n := |s| - 1;
      var c := s[n];
      CollapseKeepsWords(s[..n]);
      WordsLast(s[..n], c);
      CollapseSnoc(s[..n], c);
      assert s == s[..n] + [c];
      FlatKeepsInk(c);
      WordsLast(Collapse(s[..n]), Flat(c));
      if CollapseKeeps(s[..n], c) {
        assert (Collapse(s[..n]) + [Flat(c)])[|Collapse(s[..n])|] == Flat(c);
      } else {
        assert Collapse(s) == Collapse(s[..n]);
      }
    }
  }

  lemma {:induction false} FlatKeepsInk(c: char)
    ensures IsSpace(Flat(c)) <==> IsSpace(c)
    ensures !IsSpace(c) ==> Flat(c) == c
  {
  }

  /** What is searched for is the quote's words with single spaces between them. */
  lemma {:induction false} NeedleIsSpaced(quote: string)
    ensures Needle(quote) == Spaced(Words(quote))
  {
    hide IsSpace, Collapse, Words, Strip, Needle;
    NeedleOfStrip(quote);
    CollapseIsSpaced(Strip(quote));
    WordsOfStrip(quote);
    assert Trail(Strip(quote)) == "";
  }

  lemma {:induction false} WordsOfNeedle(quote: string)
    ensures Words(Needle(quote)) == Words(quote)
  {
    hide IsSpace, Collapse, Words, Strip;
    CollapseKeepsWords(quote);
    WordsOfStrip(Collapse(quote));
  }

  /** A slice that begins and ends with ink, and has the quote's words, in order. */
  predicate SameWordsAt(text: string, quote: string, i: nat, j: nat) {
    i < j <= |text| && InkBounded(text[i..j]) && Words(text[i..j]) == Words(quote)
  }

  lemma {:induction false} OccurrenceIsWords(text: string, quote: string, i: nat, j: nat)
    ensures Occurrence(text, quote, i, j) <==> SameWordsAt(text, quote, i, j)
  {
    hide IsSpace, Collapse, Words, Needle, Spaced;
    if i < j <= |text| && InkBounded(text[i..j]) {
      CollapseIsSpaced(text[i..j]);
      CollapseKeepsWords(text[i..j]);
      NeedleIsSpaced(quote);
      WordsOfNeedle(quote);
      assert Trail(text[i..j]) == "";
      assert Spaced(Words(text[i..j])) + "" == Spaced(Words(text[i..j]));
    }
  }

  /** A span is found exactly when the text has the quote's words somewhere, in order and with
      nothing but whitespace between them; it is then the first such slice. */
  lemma {:induction false} SpanHasTheWords(text: string, quote: string)
    ensures SpanOf(text, quote).Some? <==> exists i, j :: SameWordsAt(text, quote, i, j)
    ensures var r := SpanOf(text, quote);
            r.Some? ==>
              && SameWordsAt(text, quote, r.value.start, r.value.end)
              && r.value.text == text[r.value.start..r.value.end]
              && forall i, j :: SameWordsAt(text, quote, i, j) ==>
                   r.value.start < i || (r.value.start == i && r.value.end == j)
  {
    hide SpanOf, Occurrence, SameWordsAt;
    SpanIsLeftmostOccurrence(text, quote);
    forall i, j ensures Occurrence(text, quote, i, j) <==> SameWordsAt(text, quote, i, j) {
      OccurrenceIsWords(text, quote, i, j);
    }
    var r := SpanOf(text, quote);
    if r.Some? { assert SameWordsAt(text, quote, r.value.start, r.value.end); }
  }

  /** So the gate lets a citation pass exactly when its quote is long enough and a chunk that
      was retrieved, and may be cited, has its words. */
  lemma {:induction false} PassesIffWordsOccur(c: Citation, byId: map<nat, Chunk>)
    ensures Check(c, byId, true).None? <==>
              && |Strip(c.quote)| >= 12 && c.chunkId in byId && byId[c.chunkId].eligibility == Groundable
              && exists i, j :: SameWordsAt(byId[c.chunkId].text, c.quote, i, j)
  {
    hide Check, SameWordsAt, SpanOf, Occurrence, Strip;
    CheckIsSound(c, byId);
    if c.chunkId in byId {
      var text := byId[c.chunkId].text;
      SpanHasTheWords(text, c.quote);
      SpanIsLeftmostOccurrence(text, c.quote);
    }
  }
}
