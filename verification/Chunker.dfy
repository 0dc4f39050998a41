/** Cutting a document into chunks (agentcore/ingestion/documents.py, lines 153-270).

    Pages are cut into sections at their headings, small sections are merged into the
    next one, and sections over the limit are split at blank lines, then at line ends.
    Each stage trims what it cuts, so what they conserve together is stated on the words
    of the text, in order; with them go the page and the heading a chunk is cited by. */
module Chunker {
  import opened Text
  import opened Wording

  const MAX_CHUNK_CHARS := 2400
  const MIN_CHUNK_CHARS := 120

  // ---- oversized sections ---------------------------------------------------

  /** A chunk may be too long only if there was no line boundary to cut at. */
  predicate Cut(part: string) {
    part != "" && (|part| <= MAX_CHUNK_CHARS || '\n' !in part)
  }

  predicate AllCut(parts: seq<string>) {
    forall i :: 0 <= i < |parts| ==> Cut(parts[i])
  }

  predicate FitAll(blocks: seq<string>) {
    forall b :: 0 <= b < |blocks| ==> |blocks[b]| <= MAX_CHUNK_CHARS
  }

  /** No two neighbours fit together, with `glue` characters between them. */
  predicate Packed(parts: seq<string>, glue: nat) {
    forall i :: 0 <= i < |parts| - 1 ==> |parts[i]| + glue + |parts[i + 1]| > MAX_CHUNK_CHARS
  }

  /** The parts so far, and the one being filled. */
  predicate Full(parts: seq<string>, current: string, glue: nat) {
    && Packed(parts, glue)
    && (parts != [] ==> |parts[|parts| - 1]| + glue + |current| > MAX_CHUNK_CHARS)
  }

  /** What a long text is put together from again: whole paragraphs, and the lines of one
      that is over the limit by itself. */
  datatype Piece = Piece(glue: string, text: string)

  function LinePieces(lines: seq<string>): (pieces: seq<Piece>)
  {
    seq(|lines|, i requires 0 <= i < |lines| => Piece("\n", lines[i]))
  }

  function PiecesOf(block: string): seq<Piece> {
    if |block| <= MAX_CHUNK_CHARS then [Piece("\n\n", block)] else LinePieces(SplitLines(block))
  }

  function Pieces(blocks: seq<string>): seq<Piece> {
    if blocks == [] then [] else Pieces(blocks[..|blocks| - 1]) + PiecesOf(blocks[|blocks| - 1])
  }

  function Onto(current: string, p: Piece): string {
    if current != "" then current + p.glue + p.text else p.text
  }

  function Assembled(pieces: seq<Piece>): string {
    if pieces == [] then "" else Onto(Assembled(pieces[..|pieces| - 1]), pieces[|pieces| - 1])
  }

  predicate PartIs(part: string, pieces: seq<Piece>, lo: nat, hi: nat) {
    lo < hi <= |pieces| && part == Assembled(pieces[lo..hi])
  }

  /** Part `k` is pieces `cuts[k]` to `cuts[k + 1]`; those behind the last cut make `current`. */
  predicate Made(parts: seq<string>, current: string, pieces: seq<Piece>, cuts: seq<nat>) {
    && |cuts| == |parts| + 1 && cuts[0] == 0 && cuts[|parts|] <= |pieces|
    && (forall k :: 0 <= k < |parts| ==> PartIs(parts[k], pieces, cuts[k], cuts[k + 1]))
    && current == Assembled(pieces[cuts[|parts|]..])
  }

  lemma {:induction false} MadeMore(parts: seq<string>, current: string, pieces: seq<Piece>, cuts: seq<nat>, p: Piece)
    requires Made(parts, current, pieces, cuts)
    ensures Made(parts, Onto(current, p), pieces + [p], cuts)
  {
    var more, last := pieces + [p], cuts[|parts|];
    assert more[last..][..|more[last..]| - 1] == pieces[last..];
    hide Assembled, Onto, PartIs;
    forall k | 0 <= k < |parts| ensures PartIs(parts[k], more, cuts[k], cuts[k + 1]) {
      StillPart(parts[k], pieces, cuts[k], cuts[k + 1], p);
    }
  }

  lemma {:induction false} StillPart(part: string, pieces: seq<Piece>, lo: nat, hi: nat, p: Piece)
    requires PartIs(part, pieces, lo, hi)
    ensures PartIs(part, pieces + [p], lo, hi)
  {
    hide Assembled;
    assert (pieces + [p])[lo..hi] == pieces[lo..hi];
  }

  lemma {:induction false} MadePart(parts: seq<string>, current: string, pieces: seq<Piece>, cuts: seq<nat>)
    requires Made(parts, current, pieces, cuts) && current != ""
    ensures Made(parts + [current], "", pieces, cuts + [|pieces|])
  {
    hide PartIs, Assembled;
    var more := cuts + [|pieces|];
    LastPart(current, pieces, cuts[|parts|]);
    assert more[|cuts|] == |pieces| && more[|parts|] == cuts[|parts|];
    forall k | 0 <= k < |parts| + 1 ensures PartIs((parts + [current])[k], pieces, more[k], more[k + 1]) {
      if k < |parts| { assert more[k + 1] == cuts[k + 1]; }
    }
  }

  lemma {:induction false} LastPart(current: string, pieces: seq<Piece>, lo: nat)
    requires lo <= |pieces| && current == Assembled(pieces[lo..]) && current != ""
    ensures PartIs(current, pieces, lo, |pieces|) && Assembled(pieces[|pieces|..]) == ""
  {
    assert pieces[lo..|pieces|] == pieces[lo..];
  }

  lemma {:induction false} MadeNothing()
    ensures Made([], "", [], [0])
  {
  }

  lemma {:induction false} PiecesMore(blocks: seq<string>, b: nat)
    requires b < |blocks|
    ensures Pieces(blocks[..b + 1]) == Pieces(blocks[..b]) + PiecesOf(blocks[b])
  {
    assert blocks[..b + 1][..b] == blocks[..b];
  }

  /** A text within the limit stays whole; a longer one is cut at its blank lines, no oftener
      than the limit demands, and only an overlong paragraph at its line ends. */
  ghost predicate Splits(parts: seq<string>, text: string) {
    if text == "" then parts == []
    else
      && WordsAll(parts) == Words(text) && AllCut(parts)
      && (|text| <= MAX_CHUNK_CHARS ==> parts == [text])
      && (|text| > MAX_CHUNK_CHARS ==> exists cuts :: Made(parts, "", Pieces(Blocks(text)), cuts))
      && (FitAll(Blocks(text)) ==> Packed(parts, 2))
  }

  /** The parts cut so far and the one being filled hold these words, and are made of these
      pieces. */
  ghost predicate Cutting(parts: seq<string>, current: string, pieces: seq<Piece>, cuts: seq<nat>, words: seq<string>) {
    && Made(parts, current, pieces, cuts)
    && AllCut(parts) && (current != "" ==> Cut(current))
    && WordsAll(parts) + Words(current) == words
  }

  lemma {:induction false} CutNothing()
    ensures Cutting([], "", [], [0], []) && Full([], "", 1) && Full([], "", 2)
  {
    WordsOfSpace("");
    WordsAllOne("");
  }

  /** One more piece. */
  lemma {:induction false} CutOn(parts: seq<string>, current: string, pieces: seq<Piece>, cuts: seq<nat>,
                                 words: seq<string>, p: Piece)
    requires Cutting(parts, current, pieces, cuts, words) && (p.glue == "\n" || p.glue == "\n\n")
    requires |Onto(current, p)| <= MAX_CHUNK_CHARS || (current == "" && '\n' !in p.text)
    ensures Cutting(parts, Onto(current, p), pieces + [p], cuts, words + Words(p.text))
  {
    hide Made, Words, WordsAll, AllCut;
    MadeMore(parts, current, pieces, cuts, p);
    GlueWords(current, p.glue, p.text);
    Assoc(WordsAll(parts), Words(current), Words(p.text));
  }

  /** The part being filled is done. */
  lemma {:induction false} CutOff(parts: seq<string>, current: string, pieces: seq<Piece>, cuts: seq<nat>,
                                  words: seq<string>)
    requires Cutting(parts, current, pieces, cuts, words) && current != ""
    ensures Cutting(parts + [current], "", pieces, cuts + [|pieces|], words)
  {
    hide Made, Words, WordsAll, Cut;
    MadePart(parts, current, pieces, cuts);
    WordsAllSnoc(parts, current);
    WordsOfSpace("");
    assert WordsAll(parts + [current]) + [] == WordsAll(parts + [current]);
  }

  lemma {:induction false} FullMore(parts: seq<string>, current: string, candidate: string, glue: nat)
    requires Full(parts, current, glue) && |current| <= |candidate|
    ensures Full(parts, candidate, glue) && Packed(parts, glue)
  {
  }

  lemma {:induction false} FullClosed(parts: seq<string>, current: string, next: string, glue: nat)
    requires Full(parts, current, glue)
    ensures Packed(parts + [current], glue)
    ensures |current| + glue + |next| > MAX_CHUNK_CHARS ==> Full(parts + [current], next, glue)
  {
  }

  method SplitOversized(text: string) returns (parts: seq<string>)
    requires text != ""
    ensures Splits(parts, text)
  {
    hide Words, WordsAll, Blocks, Cutting, Pieces, Full, Packed, Made;
    if |text| <= MAX_CHUNK_CHARS {
      OnlyPart(text);
      return [text];
    }
    var blocks := Blocks(text);
    parts := [];
    var current := "";
    ghost var cuts: seq<nat> := [0];
    CutNothing();
    NothingToCut(blocks);
    for b := 0 to |blocks|
      invariant Cutting(parts, current, Pieces(blocks[..b]), cuts, WordsAll(blocks[..b]))
      invariant FitAll(blocks) ==> Full(parts, current, 2)
    {
      OneMoreBlock(blocks, b);
      ghost var pieces, words := Pieces(blocks[..b]), WordsAll(blocks[..b]);
      var block := blocks[b];
      var candidate := if current != "" then current + "\n\n" + block else block;
      if |candidate| <= MAX_CHUNK_CHARS {
        CutOn(parts, current, pieces, cuts, words, Piece("\n\n", block));
        if FitAll(blocks) { FullMore(parts, current, candidate, 2); }
        current := candidate;
        continue;
      }
      if current != "" {
        CutOff(parts, current, pieces, cuts, words);
        if FitAll(blocks) { FullClosed(parts, current, block, 2); }
        cuts := cuts + [|pieces|];
        parts := parts + [current];
      }
      if |block| <= MAX_CHUNK_CHARS {
        CutOn(parts, "", pieces, cuts, words, Piece("\n\n", block));
        current := block;
        continue;
      }
      parts, current, cuts := SplitLong(parts, block, pieces, cuts, words);
    }
    assert blocks[..|blocks|] == blocks;
    if current != "" {
      CutOff(parts, current, Pieces(blocks), cuts, WordsAll(blocks));
      if FitAll(blocks) { FullClosed(parts, current, "", 2); }
      cuts := cuts + [|Pieces(blocks)|];
      parts := parts + [current];
    } else if FitAll(blocks) {
      FullMore(parts, current, current, 2);
    }
    CutUp(parts, text, cuts);
  }

  lemma {:induction false} NothingToCut(blocks: seq<string>)
    ensures Pieces(blocks[..0]) == [] && WordsAll(blocks[..0]) == []
  {
  }

  lemma {:induction false} OneMoreBlock(blocks: seq<string>, b: nat)
    requires b < |blocks|
    ensures Pieces(blocks[..b + 1]) == Pieces(blocks[..b]) + PiecesOf(blocks[b])
    ensures WordsAll(blocks[..b + 1]) == WordsAll(blocks[..b]) + Words(blocks[b])
  {
    hide Pieces, WordsAll, Words;
    PiecesMore(blocks, b);
    WordsAllSnoc(blocks[..b], blocks[b]);
    assert blocks[..b] + [blocks[b]] == blocks[..b + 1];
  }

  lemma {:induction false} OnlyPart(text: string)
    requires text != "" && |text| <= MAX_CHUNK_CHARS
    ensures Splits([text], text)
  {
    hide Words, WordsAll, Blocks, Pieces, Made;
    WordsAllOne(text);
  }

  lemma {:induction false} CutUp(parts: seq<string>, text: string, cuts: seq<nat>)
    requires |text| > MAX_CHUNK_CHARS
    requires Cutting(parts, "", Pieces(Blocks(text)), cuts, WordsAll(Blocks(text)))
    requires FitAll(Blocks(text)) ==> Packed(parts, 2)
    ensures Splits(parts, text)
  {
    hide Words, WordsAll, Blocks, Pieces, Made, Packed;
    WordsOfBlocks(text);
    WordsOfSpace("");
  }

  /** The fallback to line boundaries for one overlong paragraph: no two neighbours of what
      it cuts fit together. */
  method SplitLong(done: seq<string>, block: string, ghost before: seq<Piece>, ghost cutsBefore: seq<nat>,
                   ghost words: seq<string>)
      returns (parts: seq<string>, current: string, ghost cuts: seq<nat>)
    requires |block| > MAX_CHUNK_CHARS && Cutting(done, "", before, cutsBefore, words)
    ensures Cutting(parts, current, before + PiecesOf(block), cuts, words + Words(block))
    ensures done <= parts && Full(parts[|done|..], current, 1)
  {
    hide Words, WordsAll, SplitLines, Cutting, Full;
    parts, current, cuts := done, "", cutsBefore;
    var lines := SplitLines(block);
    JoinSplitLines(block);
    WordsOfJoin(lines);
    CutNothing();
    WordsAllOne("");
    ghost var pieces := LinePieces(lines);
    assert before + pieces[..0] == before && lines[..0] == [] && words + [] == words;
    assert done[|done|..] == [];
    for l := 0 to |lines|
      invariant Cutting(parts, current, before + pieces[..l], cuts, words + WordsAll(lines[..l]))
      invariant done <= parts && Full(parts[|done|..], current, 1)
    {
      assert before + pieces[..l + 1] == (before + pieces[..l]) + [pieces[l]];
      var line := lines[l];
      TakeWords(words, lines, l);
      var candidate := if current != "" then current + "\n" + line else line;
      if |candidate| <= MAX_CHUNK_CHARS {
        CutOn(parts, current, before + pieces[..l], cuts, words + WordsAll(lines[..l]), pieces[l]);
        FullMore(parts[|done|..], current, candidate, 1);
        current := candidate;
      } else {
        if current != "" {
          CutOff(parts, current, before + pieces[..l], cuts, words + WordsAll(lines[..l]));
          FullClosed(parts[|done|..], current, line, 1);
          cuts := cuts + [|before + pieces[..l]|];
          assert (parts + [current])[|done|..] == parts[|done|..] + [current];
          parts := parts + [current];
        } else {
          FullMore(parts[|done|..], current, line, 1);
        }
        CutOn(parts, "", before + pieces[..l], cuts, words + WordsAll(lines[..l]), pieces[l]);
        current := line;
      }
    }
    assert lines[..|lines|] == lines && pieces[..|lines|] == pieces;
  }

  lemma {:induction false} GlueWords(current: string, glue: string, next: string)
    requires glue == "\n" || glue == "\n\n"
    ensures Words(current + glue + next) == Words(current) + Words(next)
    ensures current == "" ==> Words(next) == Words(current) + Words(next)
  {
    hide Words;
    WordsAcross(current, glue, next);
    WordsOfSpace("");
  }

  // ---- small sections -------------------------------------------------------

  datatype Section = Section(heading: Option<string>, page: nat, lines: seq<string>)

  function WordsOfSections(sections: seq<Section>): seq<string> {
    if sections == [] then []
    else WordsOfSections(sections[..|sections| - 1]) + WordsAll(sections[|sections| - 1].lines)
  }

  function BodyOf(lines: seq<string>): string {
    Strip(Join(lines))
  }

  /** Pages never go back, and lie between `lo` and `hi`. */
  predicate PagesOrdered(sections: seq<Section>, lo: nat, hi: nat) {
    && (forall i :: 0 <= i < |sections| ==> lo <= sections[i].page <= hi)
    && (forall i, j :: 0 <= i < j < |sections| ==> sections[i].page <= sections[j].page)
  }

  /** A section that opens with a heading line carries that heading. */
  predicate Headed(section: Section, classify: string -> Option<string>) {
    && section.lines != []
    && (classify(Strip(section.lines[0])).Some? ==> section.heading == classify(Strip(section.lines[0])))
  }

  predicate AllHeaded(sections: seq<Section>, classify: string -> Option<string>) {
    forall i :: 0 <= i < |sections| ==> Headed(sections[i], classify)
  }

  /** A section has one heading at most, on its first line: that names it, and no other of
      its lines is a heading. */
  predicate Opened(section: Section, classify: string -> Option<string>) {
    && section.lines != []
    && section.heading == classify(Strip(section.lines[0]))
    && forall l :: 0 < l < |section.lines| ==> classify(Strip(section.lines[l])).None?
  }

  /** A new section begins at every heading and nowhere else. */
  predicate AllOpened(sections: seq<Section>, classify: string -> Option<string>) {
    forall i :: 0 <= i < |sections| ==> Opened(sections[i], classify) && (i > 0 ==> sections[i].heading.Some?)
  }

  lemma {:induction false} OpenedAreHeaded(sections: seq<Section>, classify: string -> Option<string>)
    requires AllOpened(sections, classify)
    ensures AllHeaded(sections, classify)
  {
    hide Strip;
  }

  predicate BigEnough(section: Section) {
    |BodyOf(section.lines)| >= MIN_CHUNK_CHARS
  }

  predicate AllBig(sections: seq<Section>) {
    forall i :: 0 <= i < |sections| ==> BigEnough(sections[i])
  }

  lemma {:induction false} WordsSectionsSnoc(sections: seq<Section>, s: Section)
    ensures WordsOfSections(sections + [s]) == WordsOfSections(sections) + WordsAll(s.lines)
  {
    assert (sections + [s])[..|sections|] == sections;
  }

  /** Surrounding text never makes a stripped text shorter. */
  lemma {:induction false} StripGrows(before: string, s: string, after: string)
    ensures |Strip(before + s + after)| >= |Strip(s)|
  {
    hide IsSpace;
    var t := before + s + after;
    var a, b := SkipSpaces(s, 0), BackSpaces(s, SkipSpaces(s, 0), |s|);
    if a < b {
      var i, j := |before| + a, |before| + b - 1;
      assert t[i] == s[a] && t[j] == s[b - 1];
      assert SkipSpaces(t, 0) <= i && j < BackSpaces(t, SkipSpaces(t, 0), |t|);
    }
  }

  lemma {:induction false} BodyGrows(carry: seq<string>, lines: seq<string>, rest: seq<string>)
    requires lines != []
    ensures |BodyOf(carry + lines + rest)| >= |BodyOf(lines)|
  {
    hide Strip, Join;
    var before := if carry == [] then "" else Join(carry) + "\n";
    var after := if rest == [] then "" else "\n" + Join(rest);
    if carry != [] { JoinConcat(carry, lines); }
    if rest != [] { JoinConcat(carry + lines, rest); }
    assert carry == [] ==> carry + lines == lines;
    assert rest == [] ==> carry + lines + rest == carry + lines;
    assert Join(carry + lines + rest) == before + Join(lines) + after;
    StripGrows(before, Join(lines), after);
  }

  function NextPage(sections: seq<Section>, i: nat, hi: nat): nat {
    if i < |sections| then sections[i].page else hi
  }

  lemma {:induction false} PagesSnoc(sections: seq<Section>, s: Section, lo: nat, hi: nat)
    requires PagesOrdered(sections, lo, s.page) && lo <= s.page <= hi
    ensures PagesOrdered(sections + [s], lo, hi)
  {
  }

  lemma {:induction false} PagesWiden(sections: seq<Section>, lo: nat, hi: nat, hi': nat)
    requires PagesOrdered(sections, lo, hi) && hi <= hi'
    ensures PagesOrdered(sections, lo, hi')
  {
  }

  lemma {:induction false} PagesNext(sections: seq<Section>, i: nat, hi: nat)
    requires i < |sections| && PagesOrdered(sections, 1, hi)
    ensures 1 <= sections[i].page <= NextPage(sections, i + 1, hi)
  {
  }

  lemma {:induction false} SectionsSnoc(sections: seq<Section>, s: Section, classify: string -> Option<string>)
    requires AllHeaded(sections, classify) && AllBig(sections) && Headed(s, classify) && BigEnough(s)
    ensures AllHeaded(sections + [s], classify) && AllBig(sections + [s])
  {
  }

  /** How many words the first `p` pages hold. */
  function WordCount(pages: seq<string>, p: nat): nat
    requires p <= |pages|
  {
    |WordsAll(pages[..p])|
  }

  /** Something that begins after `offset` words begins on page `page`. */
  predicate SitedAt(pages: seq<string>, page: nat, offset: nat) {
    1 <= page <= |pages| && WordCount(pages, page - 1) <= offset <= WordCount(pages, page)
  }

  /** Every section begins on the page it names. */
  ghost predicate Sited(pages: seq<string>, sections: seq<Section>) {
    forall k :: 0 <= k < |sections| ==> SitedAt(pages, sections[k].page, |WordsOfSections(sections[..k])|)
  }

  ghost predicate FillingSited(pages: seq<string>, sections: seq<Section>, current: Section) {
    Sited(pages, sections) && (current.lines != [] ==> SitedAt(pages, current.page, |WordsOfSections(sections)|))
  }

  lemma {:induction false} SitedSnoc(pages: seq<string>, sections: seq<Section>, s: Section)
    requires Sited(pages, sections) && SitedAt(pages, s.page, |WordsOfSections(sections)|)
    ensures Sited(pages, sections + [s])
  {
    hide WordsOfSections, SitedAt;
    forall k | 0 <= k < |sections| + 1
      ensures SitedAt(pages, (sections + [s])[k].page, |WordsOfSections((sections + [s])[..k])|)
    {
      assert (sections + [s])[..k] == sections[..k];
    }
  }

  lemma {:induction false} EmptySections(pages: seq<string>)
    ensures Sited(pages, []) && PagesOrdered([], 1, 0) && WordsOfSections([]) == []
  {
  }

  lemma {:induction false} FewerWords(lines: seq<string>, l: nat)
    requires l <= |lines|
    ensures |WordsAll(lines[..l])| <= |WordsAll(lines)|
  {
    hide WordsAll;
    WordsAllConcat(lines[..l], lines[l..]);
    assert lines[..l] + lines[l..] == lines;
  }

  /** Within a page the words read so far stay between the page's ends. */
  lemma {:induction false} OnPage(pages: seq<string>, page: nat, lines: seq<string>, l: nat)
    requires 1 <= page <= |pages| && l <= |lines| && WordsAll(lines) == Words(pages[page - 1])
    ensures SitedAt(pages, page, |WordsAll(pages[..page - 1]) + WordsAll(lines[..l])|)
  {
    hide Words, WordsAll;
    FewerWords(lines, l);
    WordsAllSnoc(pages[..page - 1], pages[page - 1]);
    assert pages[..page - 1] + [pages[page - 1]] == pages[..page];
  }

  /** The state of the merging loop after the first `i` sections: `carry` holds the
      small ones not yet placed. */
  ghost predicate Merging(sections: seq<Section>, i: nat, merged: seq<Section>, carry: Section, hi: nat,
                          classify: string -> Option<string>)
  {
    && i <= |sections|
    && WordsOfSections(merged) + WordsAll(carry.lines) == WordsOfSections(sections[..i])
    && AllHeaded(merged, classify) && AllBig(merged)
    && PagesOrdered(merged, 1, if carry.lines == [] then NextPage(sections, i, hi) else carry.page)
    && (carry.lines != [] ==> 1 <= carry.page <= NextPage(sections, i, hi) && Headed(carry, classify))
    && (merged == [] && carry.lines == [] <==> i == 0)
  }

  ghost predicate MergeSited(pages: seq<string>, merged: seq<Section>, carry: Section) {
    Sited(pages, merged) && (carry.lines != [] ==> SitedAt(pages, carry.page, |WordsOfSections(merged)|))
  }

  /** The next group begins with the carry, or else with the next section. */
  lemma {:induction false} GroupSited(pages: seq<string>, sections: seq<Section>, i: nat, merged: seq<Section>,
                                       carry: Section,
                                      hi: nat, classify: string -> Option<string>)
    requires i < |sections| && Merging(sections, i, merged, carry, hi, classify)
    requires Sited(pages, sections) && MergeSited(pages, merged, carry)
    ensures SitedAt(pages, if carry.lines == [] then sections[i].page else carry.page, |WordsOfSections(merged)|)
  {
    hide WordsOfSections, SitedAt, AllHeaded, AllBig, PagesOrdered, Headed;
    WordsAllOne("");
    assert SitedAt(pages, sections[i].page, |WordsOfSections(sections[..i])|);
  }

  lemma {:induction false} LastGrows(pages: seq<string>, merged: seq<Section>, grown: Section)
    requires merged != [] && Sited(pages, merged) && grown.page == merged[|merged| - 1].page
    ensures Sited(pages, merged[..|merged| - 1] + [grown])
  {
    hide WordsOfSections, SitedAt;
    var n := |merged| - 1;
    forall k | 0 <= k < n ensures SitedAt(pages, merged[..n][k].page, |WordsOfSections(merged[..n][..k])|) {
      assert merged[..n][..k] == merged[..k];
    }
    SitedSnoc(pages, merged[..n], grown);
  }

  // ---- which sections are merged --------------------------------------------

  function LinesOf(sections: seq<Section>): seq<string> {
    if sections == [] then [] else LinesOf(sections[..|sections| - 1]) + sections[|sections| - 1].lines
  }

  /** Sections `lo` to `hi` as one: at the page of the first, and under its heading if it has
      one. */
  function Group(sections: seq<Section>, lo: nat, hi: nat, otherwise: Option<string>): Section
    requires lo < hi <= |sections|
  {
    Section(if sections[lo].heading.Some? then sections[lo].heading else otherwise, sections[lo].page,
            LinesOf(sections[lo..hi]))
  }

  /** Where group `k` begins if every group ends with its big section. */
  function From(big: seq<nat>, k: nat): nat
    requires k <= |big|
  {
    if k == 0 then 0 else big[k - 1] + 1
  }

  /** `big` lists those of the first `n` sections that are big enough. */
  predicate ListsBig(big: seq<nat>, sections: seq<Section>, n: nat) {
    && n <= |sections|
    && (forall k :: 0 <= k < |big| ==> big[k] < n && BigEnough(sections[big[k]]))
    && (forall k, l :: 0 <= k < l < |big| ==> big[k] < big[l])
    && (forall i :: 0 <= i < n && BigEnough(sections[i]) ==> i in big)
  }

  predicate GroupEnds(group: Section, sections: seq<Section>, big: seq<nat>, k: nat, hi: nat) {
    && k < |big| && From(big, k) <= big[k] < hi <= |sections|
    && group == Group(sections, From(big, k), hi, sections[big[k]].heading)
  }

  /** Every big section takes the small ones before it, the last one also those behind it;
      without a big one all are one. Nothing else is merged. */
  predicate Grouped(merged: seq<Section>, sections: seq<Section>, big: seq<nat>) {
    && ListsBig(big, sections, |sections|)
    && (big == [] ==> merged == if sections == [] then [] else [Group(sections, 0, |sections|, None)])
    && (big != [] ==>
          && |merged| == |big|
          && forall k :: 0 <= k < |big| ==>
               GroupEnds(merged[k], sections, big, k, if k == |big| - 1 then |sections| else big[k] + 1))
  }

  /** After the first `i` sections: the groups closed, and the carry. */
  predicate Grouping(merged: seq<Section>, carry: Section, sections: seq<Section>, big: seq<nat>, i: nat) {
    && ListsBig(big, sections, i) && |merged| == |big|
    && (forall k :: 0 <= k < |big| ==> GroupEnds(merged[k], sections, big, k, big[k] + 1))
    && From(big, |big|) <= i
    && Carried(carry, sections, From(big, |big|), i)
  }

  predicate Carried(carry: Section, sections: seq<Section>, lo: nat, i: nat)
    requires lo <= i <= |sections|
  {
    && carry.lines == LinesOf(sections[lo..i]) && (carry.lines == [] <==> lo == i)
    && (lo < i ==> carry.heading == sections[lo].heading && carry.page == sections[lo].page)
  }

  lemma {:induction false} LinesOfMore(sections: seq<Section>, lo: nat, hi: nat)
    requires lo <= hi < |sections|
    ensures LinesOf(sections[lo..hi + 1]) == LinesOf(sections[lo..hi]) + sections[hi].lines
  {
    assert sections[lo..hi + 1][..hi - lo] == sections[lo..hi];
  }

  lemma {:induction false} LinesOfSnoc(sections: seq<Section>, s: Section)
    ensures LinesOf(sections + [s]) == LinesOf(sections) + s.lines && LinesOf([]) == []
  {
    assert (sections + [s])[..|sections|] == sections;
  }

  lemma {:induction false} LinesOfConcat(a: seq<Section>, b: seq<Section>)
    ensures LinesOf(a + b) == LinesOf(a) + LinesOf(b)
    decreases |b|
  {
    hide LinesOf;
    if b == [] {
      LinesOfSnoc([], Section(None, 0, []));
      assert a + b == a;
    } else {
      var n := |b| - 1;
      LinesOfConcat(a, b[..n]);
      LinesOfSnoc(a + b[..n], b[n]);
      LinesOfSnoc(b[..n], b[n]);
      assert a + b == (a + b[..n]) + [b[n]] && b == b[..n] + [b[n]];
      Assoc(LinesOf(a), LinesOf(b[..n]), b[n].lines);
    }
  }

  lemma {:induction false} CarryMore(carry: Section, sections: seq<Section>, lo: nat, i: nat)
    requires lo <= i < |sections| && Carried(carry, sections, lo, i) && sections[i].lines != []
    ensures var start := if carry.lines == [] then Section(sections[i].heading, sections[i].page, []) else carry;
            Carried(start.(lines := start.lines + sections[i].lines), sections, lo, i + 1)
  {
    hide LinesOf;
    LinesOfMore(sections, lo, i);
    assert carry.lines == [] ==> [] + sections[i].lines == carry.lines + sections[i].lines;
  }

  lemma {:induction false} GroupSmall(merged: seq<Section>, carry: Section, sections: seq<Section>, big: seq<nat>, i: nat)
    requires i < |sections| && Grouping(merged, carry, sections, big, i) && !BigEnough(sections[i])
    requires sections[i].lines != []
    ensures var start := if carry.lines == [] then Section(sections[i].heading, sections[i].page, []) else carry;
            Grouping(merged, start.(lines := start.lines + sections[i].lines), sections, big, i + 1)
  {
    hide BigEnough, GroupEnds, Carried;
    CarryMore(carry, sections, From(big, |big|), i);
  }

  lemma {:induction false} BigListed(sections: seq<Section>, big: seq<nat>, i: nat)
    requires i < |sections| && ListsBig(big, sections, i) && BigEnough(sections[i])
    ensures ListsBig(big + [i], sections, i + 1)
  {
    hide BigEnough;
    assert (big + [i])[|big|] == i;
    assert forall k :: 0 <= k < |big| ==> (big + [i])[k] == big[k];
  }

  lemma {:induction false} GroupBig(merged: seq<Section>, carry: Section, sections: seq<Section>, big: seq<nat>, i: nat,
                                    empty: Section)
    requires i < |sections| && Grouping(merged, carry, sections, big, i) && BigEnough(sections[i]) && empty.lines == []
    ensures var section := sections[i];
            var heading := if carry.heading.Some? then carry.heading else section.heading;
            var group := if carry.lines == [] then section else Section(heading, carry.page, carry.lines + section.lines);
            Grouping(merged + [group], empty, sections, big + [i], i + 1)
  {
    hide BigEnough, ListsBig, GroupEnds, LinesOf;
    BigListed(sections, big, i);
    var more := big + [i];
    var section := sections[i];
    var heading := if carry.heading.Some? then carry.heading else section.heading;
    var group := if carry.lines == [] then section else Section(heading, carry.page, carry.lines + section.lines);
    GroupClosed(group, carry, sections, big, i);
    forall k | 0 <= k < |more| ensures GroupEnds((merged + [group])[k], sections, more, k, more[k] + 1) {
      if k < |big| { EndsBefore(merged[k], sections, big, i, k, big[k] + 1); }
    }
    NoLines(sections, i + 1);
  }

  lemma {:induction false} NoLines(sections: seq<Section>, i: nat)
    requires i <= |sections|
    ensures LinesOf(sections[i..i]) == []
  {
  }

  lemma {:induction false} EndsBefore(group: Section, sections: seq<Section>, big: seq<nat>, i: nat, k: nat, hi: nat)
    requires GroupEnds(group, sections, big, k, hi)
    ensures GroupEnds(group, sections, big + [i], k, hi)
  {
    hide LinesOf;
    var more := big + [i];
    assert more[k] == big[k] && (k > 0 ==> more[k - 1] == big[k - 1]);
  }

  lemma {:induction false} GroupClosed(group: Section, carry: Section, sections: seq<Section>, big: seq<nat>, i: nat)
    requires i < |sections| && From(big, |big|) <= i && Carried(carry, sections, From(big, |big|), i)
    requires var section := sections[i];
             var heading := if carry.heading.Some? then carry.heading else section.heading;
             group == if carry.lines == [] then section else Section(heading, carry.page, carry.lines + section.lines)
    ensures GroupEnds(group, sections, big + [i], |big|, i + 1)
  {
    hide LinesOf;
    var lo, more := From(big, |big|), big + [i];
    LinesOfMore(sections, lo, i);
    assert more[|big|] == i && From(more, |big|) == lo;
    assert lo == i ==> [] + sections[i].lines == sections[i].lines;
  }

  /** What is left over joins the last group, or is the only one. */
  lemma {:induction false} GroupEnd(merged: seq<Section>, carry: Section, sections: seq<Section>, big: seq<nat>)
    requires Grouping(merged, carry, sections, big, |sections|)
    ensures var out :=
              if carry.lines == [] then merged
              else if merged == [] then [carry]
              else
                var last := merged[|merged| - 1];
                merged[..|merged| - 1] + [Section(last.heading, last.page, last.lines + carry.lines)];
            Grouped(out, sections, big)
  {
    hide ListsBig, LinesOf, GroupEnds;
    if merged == [] {
      assert sections[0..|sections|] == sections;
    } else if carry.lines != [] {
      LastExtends(merged[|merged| - 1], carry, sections, big);
    }
  }

  lemma {:induction false} LastExtends(last: Section, carry: Section, sections: seq<Section>, big: seq<nat>)
    requires big != [] && GroupEnds(last, sections, big, |big| - 1, big[|big| - 1] + 1)
    requires From(big, |big|) <= |sections| && Carried(carry, sections, From(big, |big|), |sections|)
    ensures GroupEnds(Section(last.heading, last.page, last.lines + carry.lines), sections, big, |big| - 1, |sections|)
  {
    hide LinesOf;
    var lo, mid := From(big, |big| - 1), From(big, |big|);
    LinesOfConcat(sections[lo..mid], sections[mid..]);
    assert sections[lo..mid] + sections[mid..] == sections[lo..];
    assert sections[lo..|sections|] == sections[lo..] && sections[mid..|sections|] == sections[mid..];
  }

  method MergeSmall(sections: seq<Section>, ghost hi: nat, ghost classify: string -> Option<string>,
                    ghost pages: seq<string>)
      returns (merged: seq<Section>, ghost big: seq<nat>)
    requires PagesOrdered(sections, 1, hi) && AllHeaded(sections, classify) && Sited(pages, sections)
    ensures WordsOfSections(merged) == WordsOfSections(sections)
    ensures PagesOrdered(merged, 1, hi) && AllHeaded(merged, classify)
    ensures |merged| != 1 ==> AllBig(merged)
    ensures (merged == [] <==> sections == []) && Sited(pages, merged)
    ensures Grouped(merged, sections, big)
  {
    hide Merging, AllHeaded, AllBig, PagesOrdered, BodyOf, Headed, Sited, SitedAt, WordsOfSections, WordsAll,
         Grouping, Grouped;
    merged, big := [], [];
    EmptySections(pages);
    var carry := Section(None, 1, []);
    MergeStart(sections, carry, hi, classify);
    GroupStart(sections, carry);
    for i := 0 to |sections|
      invariant Merging(sections, i, merged, carry, hi, classify) && MergeSited(pages, merged, carry)
      invariant Grouping(merged, carry, sections, big, i)
    {
      var section := sections[i];
      GroupSited(pages, sections, i, merged, carry, hi, classify);
      var body := BodyOf(section.lines);
      if |body| < MIN_CHUNK_CHARS {
        MergeCarry(sections, i, merged, carry, hi, classify);
        HasLines(sections, i, classify);
        GroupSmall(merged, carry, sections, big, i);
        if carry.lines == [] {
          carry := Section(section.heading, section.page, []);
        }
        carry := carry.(lines := carry.lines + section.lines);
        continue;
      }
      MergeClose(sections, i, merged, carry, hi, classify);
      GroupBig(merged, carry, sections, big, i, Section(None, carry.page, []));
      if carry.lines != [] {
        var heading := if carry.heading.Some? then carry.heading else section.heading;
        SitedSnoc(pages, merged, Section(heading, carry.page, carry.lines + section.lines));
        merged := merged + [Section(heading, carry.page, carry.lines + section.lines)];
        carry := Section(None, carry.page, []);
      } else {
        SitedSnoc(pages, merged, section);
        GroupBig(merged, carry, sections, big, i, carry);
        merged := merged + [section];
      }
      big := big + [i];
    }
    MergeEnd(sections, merged, carry, hi, classify);
    GroupEnd(merged, carry, sections, big);
    if carry.lines != [] {
      if merged != [] {
        var last := merged[|merged| - 1];
        LastGrows(pages, merged, Section(last.heading, last.page, last.lines + carry.lines));
        merged := merged[..|merged| - 1] + [Section(last.heading, last.page, last.lines + carry.lines)];
      } else {
        SitedSnoc(pages, [], carry);
        assert [] + [carry] == [carry];
        merged := [carry];
      }
    }
  }

  lemma {:induction false} HasLines(sections: seq<Section>, i: nat, classify: string -> Option<string>)
    requires i < |sections| && AllHeaded(sections, classify)
    ensures sections[i].lines != []
  {
  }

  lemma {:induction false} GroupStart(sections: seq<Section>, carry: Section)
    requires carry.lines == []
    ensures Grouping([], carry, sections, [], 0)
  {
  }

  lemma {:induction false} MergeStart(sections: seq<Section>, carry: Section, hi: nat, classify: string -> Option<string>)
    requires carry.lines == []
    ensures Merging(sections, 0, [], carry, hi, classify)
  {
    WordsAllOne("");
  }

  lemma {:induction false} WordsSectionsTake(sections: seq<Section>, i: nat)
    requires i < |sections|
    ensures WordsOfSections(sections[..i + 1]) == WordsOfSections(sections[..i]) + WordsAll(sections[i].lines)
  {
    WordsSectionsSnoc(sections[..i], sections[i]);
    assert sections[..i] + [sections[i]] == sections[..i + 1];
  }

  /** A small section joins the carry. */
  lemma {:induction false} MergeCarry(sections: seq<Section>, i: nat, merged: seq<Section>, carry: Section, hi: nat,
                                      classify: string -> Option<string>)
    requires i < |sections| && Merging(sections, i, merged, carry, hi, classify)
    requires PagesOrdered(sections, 1, hi) && AllHeaded(sections, classify)
    ensures var section := sections[i];
            var start := if carry.lines == [] then Section(section.heading, section.page, []) else carry;
            Merging(sections, i + 1, merged, start.(lines := start.lines + section.lines), hi, classify)
  {
    hide WordsOfSections, WordsAll, AllBig, Strip, PagesOrdered;
    var section := sections[i];
    WordsSectionsTake(sections, i);
    WordsAllConcat(carry.lines, section.lines);
    assert carry.lines == [] ==> [] + section.lines == section.lines && carry.lines + section.lines == section.lines;
    PagesNext(sections, i, hi);
    assert Headed(section, classify);
    WordsAllOne("");
  }

  /** A section that is big enough closes the group. */
  lemma {:induction false} MergeClose(sections: seq<Section>, i: nat, merged: seq<Section>, carry: Section, hi: nat,
                                      classify: string -> Option<string>)
    requires i < |sections| && Merging(sections, i, merged, carry, hi, classify) && BigEnough(sections[i])
    requires PagesOrdered(sections, 1, hi) && AllHeaded(sections, classify)
    ensures var section := sections[i];
            var heading := if carry.heading.Some? then carry.heading else section.heading;
            if carry.lines == [] then Merging(sections, i + 1, merged + [section], carry, hi, classify)
            else Merging(sections, i + 1, merged + [Section(heading, carry.page, carry.lines + section.lines)],
                         Section(None, carry.page, []), hi, classify)
  {
    hide WordsOfSections, WordsAll, Strip, PagesOrdered, AllBig, BigEnough;
    var section := sections[i];
    PagesNext(sections, i, hi);
    WordsSectionsTake(sections, i);
    assert Headed(section, classify);
    WordsAllOne("");
    hide Headed, AllHeaded;
    if carry.lines == [] {
      WordsSectionsSnoc(merged, section);
      PagesSnoc(merged, section, 1, NextPage(sections, i + 1, hi));
      SectionsSnoc(merged, section, classify);
    } else {
      var heading := if carry.heading.Some? then carry.heading else section.heading;
      var group := Section(heading, carry.page, carry.lines + section.lines);
      CloseGroup(carry, section, heading, classify);
      WordsSectionsSnoc(merged, group);
      PagesSnoc(merged, group, 1, NextPage(sections, i + 1, hi));
      SectionsSnoc(merged, group, classify);
    }
  }

  lemma {:induction false} CloseGroup(carry: Section, section: Section, heading: Option<string>,
                                      classify: string -> Option<string>)
    requires Headed(carry, classify) && Headed(section, classify) && BigEnough(section)
    requires heading == if carry.heading.Some? then carry.heading else section.heading
    ensures var group := Section(heading, carry.page, carry.lines + section.lines);
            Headed(group, classify) && BigEnough(group)
            && WordsAll(group.lines) == WordsAll(carry.lines) + WordsAll(section.lines)
  {
    hide WordsAll, BodyOf, Strip;
    WordsAllConcat(carry.lines, section.lines);
    BodyGrows(carry.lines, section.lines, []);
    assert carry.lines + section.lines + [] == carry.lines + section.lines;
  }

  /** What is left over goes to the last section, or is the only one. */
  lemma {:induction false} MergeEnd(sections: seq<Section>, merged: seq<Section>, carry: Section, hi: nat,
                                    classify: string -> Option<string>)
    requires Merging(sections, |sections|, merged, carry, hi, classify)
    ensures var out :=
              if carry.lines == [] then merged
              else if merged == [] then [carry]
              else
                var last := merged[|merged| - 1];
                merged[..|merged| - 1] + [Section(last.heading, last.page, last.lines + carry.lines)];
            && WordsOfSections(out) == WordsOfSections(sections)
            && PagesOrdered(out, 1, hi) && AllHeaded(out, classify)
            && (|out| != 1 ==> AllBig(out))
            && (out == [] <==> sections == [])
  {
    hide WordsOfSections, WordsAll, BigEnough, Headed, Sited;
    assert sections[..|sections|] == sections;
    EmptySections([]);
    WordsAllOne("");
    if carry.lines != [] && merged != [] {
      ExtendMerged(merged, carry, hi, classify);
    } else if carry.lines != [] {
      WordsSectionsSnoc([], carry);
      assert [] + [carry] == [carry];
    }
  }

  lemma {:induction false} ExtendMerged(merged: seq<Section>, carry: Section, hi: nat, classify: string -> Option<string>)
    requires merged != [] && PagesOrdered(merged, 1, carry.page) && carry.page <= hi
    requires AllHeaded(merged, classify) && AllBig(merged)
    ensures var last := merged[|merged| - 1];
            var out := merged[..|merged| - 1] + [Section(last.heading, last.page, last.lines + carry.lines)];
            && WordsOfSections(out) == WordsOfSections(merged) + WordsAll(carry.lines)
            && PagesOrdered(out, 1, hi) && AllHeaded(out, classify) && AllBig(out)
  {
    hide WordsOfSections, WordsAll, BigEnough, Headed;
    var n := |merged| - 1;
    var last := merged[n];
    assert Headed(last, classify) && BigEnough(last);
    ExtendLast(last, carry, classify);
    var grown := Section(last.heading, last.page, last.lines + carry.lines);
    WordsSectionsTake(merged, n);
    assert merged[..n + 1] == merged;
    WordsSectionsSnoc(merged[..n], grown);
    PagesSnoc(merged[..n], grown, 1, hi);
    SectionsSnoc(merged[..n], grown, classify);
  }

  lemma {:induction false} ExtendLast(last: Section, carry: Section, classify: string -> Option<string>)
    requires Headed(last, classify) && BigEnough(last)
    ensures var grown := Section(last.heading, last.page, last.lines + carry.lines);
            Headed(grown, classify) && BigEnough(grown)
            && WordsAll(grown.lines) == WordsAll(last.lines) + WordsAll(carry.lines)
  {
    hide WordsAll, BodyOf, Strip;
    WordsAllConcat(last.lines, carry.lines);
    BodyGrows([], last.lines, carry.lines);
    assert [] + last.lines == last.lines;
  }

  // ---- the whole document ---------------------------------------------------

  datatype Chunk = Chunk(ordinal: nat, page: nat, heading: Option<string>, text: string)

  function Texts(chunks: seq<Chunk>): (ts: seq<string>)
  {
    seq(|chunks|, i requires 0 <= i < |chunks| => chunks[i].text)
  }

  predicate Blank(lines: seq<string>) {
    forall i :: 0 <= i < |lines| ==> Strip(lines[i]) == ""
  }

  lemma {:induction false} BlankWords(lines: seq<string>)
    requires Blank(lines)
    ensures WordsAll(lines) == []
  {
    hide Strip, Words;
    if lines == [] {
      WordsAllOne("");
    } else {
      BlankWords(lines[..|lines| - 1]);
      BlankHasNoWords(lines[|lines| - 1]);
    }
  }

  /** The section being filled when the loop stands in page `page`. */
  ghost predicate Filling(sections: seq<Section>, current: Section, page: nat, classify: string -> Option<string>) {
    && AllOpened(sections, classify)
    && PagesOrdered(sections, 1, if current.lines == [] then page else current.page)
    && (if current.lines == [] then sections == [] && current.heading.None?
        else
          && 1 <= current.page <= page && Opened(current, classify)
          && (sections != [] ==> current.heading.Some?))
  }

  /** `flush`: the current section is kept unless all its lines are blank. */
  method Flush(sections: seq<Section>, current: Section, ghost page: nat, ghost classify: string -> Option<string>,
               ghost pages: seq<string>)
      returns (flushed: seq<Section>)
    requires Filling(sections, current, page, classify) && page > 0 && FillingSited(pages, sections, current)
    ensures WordsOfSections(flushed) == WordsOfSections(sections) + WordsAll(current.lines)
    ensures AllOpened(flushed, classify) && PagesOrdered(flushed, 1, page)
    ensures Sited(pages, flushed) && (current.lines == [] ==> flushed == sections)
  {
    hide WordsOfSections, WordsAll, Strip, Opened, Sited, SitedAt;
    WordsAllOne("");
    WordsSectionsSnoc(sections, current);
    if current.lines != [] && !Blank(current.lines) {
      PagesSnoc(sections, current, 1, page);
      SitedSnoc(pages, sections, current);
      flushed := sections + [current];
    } else {
      BlankWords(current.lines);
      PagesWiden(sections, 1, if current.lines == [] then page else current.page, page);
      flushed := sections;
    }
  }

  method SectionsOf(pages: seq<string>, classify: string -> Option<string>) returns (sections: seq<Section>)
    ensures WordsOfSections(sections) == WordsAll(pages)
    ensures PagesOrdered(sections, 1, |pages|) && AllOpened(sections, classify) && Sited(pages, sections)
  {
    hide WordsOfSections, WordsAll, Words, Filling, PagesOrdered, AllOpened, Sited, SitedAt;
    sections := [];
    var current := Section(None, 1, []);
    WordsAllOne("");
    EmptySections(pages);
    FillingStart(classify);
    for p := 0 to |pages|
      invariant WordsOfSections(sections) + WordsAll(current.lines) == WordsAll(pages[..p])
      invariant Filling(sections, current, if p == 0 then 1 else p, classify)
      invariant FillingSited(pages, sections, current)
      invariant p == 0 ==> sections == [] && current.lines == []
    {
      FillingLater(sections, current, if p == 0 then 1 else p, p + 1, classify);
      sections, current := ReadPage(sections, current, pages[p], p + 1, classify, pages);
      WordsAllSnoc(pages[..p], pages[p]);
      assert pages[..p] + [pages[p]] == pages[..p + 1];
    }
    assert pages[..|pages|] == pages;
    sections := Flush(sections, current, if |pages| == 0 then 1 else |pages|, classify, pages);
  }

  lemma {:induction false} FillingStart(classify: string -> Option<string>)
    ensures Filling([], Section(None, 1, []), 1, classify)
  {
  }

  lemma {:induction false} FillingLater(sections: seq<Section>, current: Section, page: nat, later: nat,
                                        classify: string -> Option<string>)
    requires Filling(sections, current, page, classify) && page <= later
    ensures Filling(sections, current, later, classify)
  {
    PagesWiden(sections, 1, if current.lines == [] then page else current.page,
               if current.lines == [] then later else current.page);
  }

  /** The inner loop over one page's lines. */
  method ReadPage(done: seq<Section>, filling: Section, text: string, page: nat, classify: string -> Option<string>,
                  ghost pages: seq<string>)
      returns (sections: seq<Section>, current: Section)
    requires page > 0 && Filling(done, filling, page, classify) && FillingSited(pages, done, filling)
    requires page <= |pages| && text == pages[page - 1]
    requires WordsOfSections(done) + WordsAll(filling.lines) == WordsAll(pages[..page - 1])
    ensures Filling(sections, current, page, classify) && FillingSited(pages, sections, current)
    ensures WordsOfSections(sections) + WordsAll(current.lines)
         == (WordsOfSections(done) + WordsAll(filling.lines)) + Words(text)
  {
    hide WordsOfSections, WordsAll, Words, Filling, Strip, AllOpened, PagesOrdered, Sited, SitedAt;
    sections, current := done, filling;
    ghost var before := WordsOfSections(done) + WordsAll(filling.lines);
    var lines := SplitLines(text);
    JoinSplitLines(text);
    WordsOfJoin(lines);
    WordsAllOne("");
    for l := 0 to |lines|
      invariant Filling(sections, current, page, classify) && FillingSited(pages, sections, current)
      invariant WordsOfSections(sections) + WordsAll(current.lines) == before + WordsAll(lines[..l])
    {
      var line := lines[l];
      TakeWords(before, lines, l);
      OnPage(pages, page, lines, l);
      WordsOfStrip(line);
      WordsAllOne(Strip(line));
      var heading := classify(Strip(line));
      if heading.Some? {
        sections := Flush(sections, current, page, classify, pages);
        OpenSection(sections, heading, page, line, classify);
        current := Section(heading, page, [Strip(line)]);
      } else {
        WordsAllSnoc(current.lines, line);
        Assoc(WordsOfSections(sections), WordsAll(current.lines), Words(line));
        AddLine(sections, current, page, line, classify);
        if current.lines == [] {
          current := current.(page := page);
        }
        current := current.(lines := current.lines + [line]);
      }
    }
    assert lines[..|lines|] == lines;
  }

  lemma {:induction false} OpenSection(sections: seq<Section>, heading: Option<string>, page: nat, line: string,
                                       classify: string -> Option<string>)
    requires AllOpened(sections, classify) && PagesOrdered(sections, 1, page) && page > 0
    requires heading == classify(Strip(line)) && heading.Some?
    ensures Filling(sections, Section(heading, page, [Strip(line)]), page, classify)
  {
    StripUnique("", Strip(line), "");
    assert "" + Strip(line) + "" == Strip(line);
  }

  lemma {:induction false} AddLine(sections: seq<Section>, current: Section, page: nat, line: string,
                                   classify: string -> Option<string>)
    requires Filling(sections, current, page, classify) && page > 0 && classify(Strip(line)).None?
    ensures var start := if current.lines == [] then current.(page := page) else current;
            Filling(sections, start.(lines := start.lines + [line]), page, classify)
  {
    hide Strip, AllOpened, PagesOrdered;
  }

  ghost predicate ChunksOk(chunks: seq<Chunk>, hi: nat) {
    && (forall i :: 0 <= i < |chunks| ==> chunks[i].ordinal == i && Cut(chunks[i].text) && 1 <= chunks[i].page <= hi)
    && (forall i, j :: 0 <= i < j < |chunks| ==> chunks[i].page <= chunks[j].page)
  }

  /** No chunk names a page after the one its text begins on, and where the page number
      changes the text does begin on the page named. */
  ghost predicate ChunkSited(pages: seq<string>, chunks: seq<Chunk>, k: nat)
    requires k < |chunks|
  {
    var offset := |WordsAll(Texts(chunks[..k]))|;
    && 1 <= chunks[k].page <= |pages| && WordCount(pages, chunks[k].page - 1) <= offset
    && (k == 0 || chunks[k - 1].page != chunks[k].page ==> offset <= WordCount(pages, chunks[k].page))
  }

  ghost predicate ChunksSited(pages: seq<string>, chunks: seq<Chunk>) {
    forall k :: 0 <= k < |chunks| ==> ChunkSited(pages, chunks, k)
  }

  lemma {:induction false} ChunkSitedSnoc(pages: seq<string>, chunks: seq<Chunk>, chunk: Chunk)
    requires ChunksSited(pages, chunks) && 1 <= chunk.page <= |pages|
    requires WordCount(pages, chunk.page - 1) <= |WordsAll(Texts(chunks))|
    requires || (chunks != [] && chunks[|chunks| - 1].page == chunk.page)
             || |WordsAll(Texts(chunks))| <= WordCount(pages, chunk.page)
    ensures ChunksSited(pages, chunks + [chunk])
  {
    hide WordsAll, WordCount, Texts;
    var all := chunks + [chunk];
    forall k | 0 <= k < |all| ensures ChunkSited(pages, all, k) {
      assert all[..k] == chunks[..k];
      if k < |chunks| {
        assert ChunkSited(pages, chunks, k);
      } else {
        assert chunks[..k] == chunks;
      }
    }
  }

  /** Chunk `k` is cut from section `own[k]`, and carries its page and heading. */
  ghost predicate CutFrom(chunks: seq<Chunk>, sections: seq<Section>, own: seq<nat>) {
    && |own| == |chunks|
    && (forall k :: 0 <= k < |own| ==>
          own[k] < |sections| && chunks[k].page == sections[own[k]].page && chunks[k].heading == sections[own[k]].heading)
    && (forall i, j :: 0 <= i < j < |own| ==> own[i] <= own[j])
  }

  lemma {:induction false} CutMore(before: seq<Chunk>, chunks: seq<Chunk>, sections: seq<Section>, own: seq<nat>, m: nat)
    requires CutFrom(before, sections, own) && m < |sections| && forall k :: 0 <= k < |own| ==> own[k] <= m
    requires Appended(before, chunks, sections[m])
    ensures CutFrom(chunks, sections, own + seq(|chunks| - |before|, _ => m))
  {
  }

  predicate Appended(before: seq<Chunk>, chunks: seq<Chunk>, section: Section) {
    && before <= chunks
    && forall k :: |before| <= k < |chunks| ==> chunks[k].page == section.page && chunks[k].heading == section.heading
  }

  function Flat(parts: seq<seq<string>>): seq<string> {
    if parts == [] then [] else Flat(parts[..|parts| - 1]) + parts[|parts| - 1]
  }

  /** The section that each part comes from. */
  function Owners(parts: seq<seq<string>>): seq<nat> {
    if parts == [] then [] else Owners(parts[..|parts| - 1]) + seq(|parts[|parts| - 1]|, _ => |parts| - 1)
  }

  ghost predicate AllSplit(parts: seq<seq<string>>, sections: seq<Section>) {
    |parts| <= |sections| && forall m :: 0 <= m < |parts| ==> Splits(parts[m], BodyOf(sections[m].lines))
  }

  /** The sections of a document, which of them are big enough, what they are merged into,
      and the parts each of those is split into. */
  datatype Layout = Layout(sections: seq<Section>, big: seq<nat>, merged: seq<Section>, parts: seq<seq<string>>)

  /** No text is lost or moved: the chunks, in order, hold the words of the pages, in
      order, none split and no two run together. Chunks are numbered from 0, their pages
      never go back, and a chunk is over the limit only if it is a single line. They are the
      parts of the merged sections, which are made of the sections that the headings open. */
  method ChunkPages(pages: seq<string>, classify: string -> Option<string>)
      returns (chunks: seq<Chunk>, ghost layout: Layout)
    ensures WordsAll(Texts(chunks)) == WordsAll(pages)
    ensures ChunksOk(chunks, |pages|) && ChunksSited(pages, chunks)
    ensures WordsOfSections(layout.sections) == WordsAll(pages)
    ensures AllOpened(layout.sections, classify) && Sited(pages, layout.sections)
    ensures Grouped(layout.merged, layout.sections, layout.big)
    ensures AllHeaded(layout.merged, classify) && Sited(pages, layout.merged)
    ensures |layout.merged| != 1 ==> AllBig(layout.merged)
    ensures |layout.parts| == |layout.merged| && AllSplit(layout.parts, layout.merged)
    ensures Texts(chunks) == Flat(layout.parts) && CutFrom(chunks, layout.merged, Owners(layout.parts))
  {
    hide ChunksSited, Sited, SitedAt, Texts, WordsOfSections, WordsAll, AllHeaded, AllOpened, AllBig, ChunksOk, Chunking,
         PagesOrdered, BodyOf, Splits, AllSplit, Flat, Owners, Grouped, CutFrom;
    var sections := SectionsOf(pages, classify);
    OpenedAreHeaded(sections, classify);
    var groups, big := MergeSmall(sections, |pages|, classify, pages);
    chunks := [];
    ghost var all: seq<seq<string>> := [];
    ChunkingNone(pages, groups);
    for m := 0 to |groups|
      invariant Chunking(pages, groups, m, chunks, all)
    {
      var section := groups[m];
      var text := BodyOf(section.lines);
      if text == "" {
        ChunkingSkip(pages, groups, m, chunks, all);
        all := all + [[]];
        continue;
      }
      var parts := SplitOversized(text);
      SplitsWords(parts, text);
      ChunkingReady(pages, groups, m, chunks, all);
      ghost var before := chunks;
      chunks := AppendParts(chunks, section, parts, NextPage(groups, m + 1, |pages|), pages);
      ChunkingMore(pages, groups, m, before, all, chunks, parts);
      all := all + [parts];
    }
    ChunkingAll(pages, groups, chunks, all);
    layout := Layout(sections, big, groups, all);
  }

  lemma {:induction false} SplitsWords(parts: seq<string>, text: string)
    requires Splits(parts, text) && text != ""
    ensures WordsAll(parts) == Words(text) && AllCut(parts)
  {
  }

  /** The first `m` groups are chunks. */
  ghost predicate Chunking(pages: seq<string>, groups: seq<Section>, m: nat, chunks: seq<Chunk>,
                           all: seq<seq<string>>)
  {
    && m == |all| <= |groups| && WordsAll(Texts(chunks)) == WordsOfSections(groups[..m])
    && ChunksOk(chunks, NextPage(groups, m, |pages|)) && ChunksSited(pages, chunks)
    && CutFrom(chunks, groups, Owners(all)) && Texts(chunks) == Flat(all) && AllSplit(all, groups)
  }

  lemma {:induction false} ChunkingNone(pages: seq<string>, groups: seq<Section>)
    ensures Chunking(pages, groups, 0, [], [])
  {
    hide Splits;
    WordsAllOne("");
    EmptySections(pages);
    EmptyChunks(pages, NextPage(groups, 0, |pages|));
    assert groups[..0] == [];
  }

  lemma {:induction false} ChunkingAll(pages: seq<string>, groups: seq<Section>, chunks: seq<Chunk>, all: seq<seq<string>>)
    requires Chunking(pages, groups, |groups|, chunks, all)
    ensures WordsAll(Texts(chunks)) == WordsOfSections(groups) && ChunksOk(chunks, |pages|) && ChunksSited(pages, chunks)
    ensures Texts(chunks) == Flat(all) && CutFrom(chunks, groups, Owners(all))
    ensures |all| == |groups| && AllSplit(all, groups)
  {
    hide WordsAll, Texts, WordsOfSections, ChunksOk, ChunksSited, CutFrom, AllSplit, Owners, Flat;
    assert groups[..|groups|] == groups;
  }

  /** The words of one more group. */
  lemma {:induction false} GroupWords(groups: seq<Section>, m: nat)
    requires m < |groups|
    ensures WordsOfSections(groups[..m + 1]) == WordsOfSections(groups[..m]) + Words(BodyOf(groups[m].lines))
  {
    hide WordsOfSections, Words, WordsAll, Join, Strip;
    WordsSectionsTake(groups, m);
    WordsOfJoin(groups[m].lines);
    WordsOfStrip(Join(groups[m].lines));
  }

  lemma {:induction false} OneMorePart(all: seq<seq<string>>, parts: seq<string>, groups: seq<Section>)
    requires |all| < |groups| && AllSplit(all, groups) && Splits(parts, BodyOf(groups[|all|].lines))
    ensures AllSplit(all + [parts], groups) && Flat(all + [parts]) == Flat(all) + parts
    ensures Owners(all + [parts]) == Owners(all) + seq(|parts|, _ => |all|)
  {
    hide Splits, BodyOf;
    assert (all + [parts])[..|all|] == all;
  }

  lemma {:induction false} ChunkingSkip(pages: seq<string>, groups: seq<Section>, m: nat, chunks: seq<Chunk>,
                                        all: seq<seq<string>>)
    requires Chunking(pages, groups, m, chunks, all) && PagesOrdered(groups, 1, |pages|)
    requires m < |groups| && BodyOf(groups[m].lines) == ""
    ensures Chunking(pages, groups, m + 1, chunks, all + [[]])
  {
    hide WordsAll, Texts, WordsOfSections, ChunksOk, ChunksSited, CutFrom, PagesOrdered, BodyOf, Words, AllSplit, Flat,
         Owners;
    GroupWords(groups, m);
    WordsOfSpace("");
    PagesNext(groups, m, |pages|);
    ChunksLater(chunks, groups[m].page, NextPage(groups, m + 1, |pages|));
    OneMorePart(all, [], groups);
    assert Owners(all) + seq(0, _ => |all|) == Owners(all) && Flat(all) + [] == Flat(all);
  }

  lemma {:induction false} ChunkingReady(pages: seq<string>, groups: seq<Section>, m: nat, chunks: seq<Chunk>,
                                         all: seq<seq<string>>)
    requires Chunking(pages, groups, m, chunks, all) && m < |groups|
    requires PagesOrdered(groups, 1, |pages|) && Sited(pages, groups)
    ensures ChunksOk(chunks, groups[m].page) && ChunksSited(pages, chunks)
    ensures 1 <= groups[m].page <= NextPage(groups, m + 1, |pages|)
    ensures SitedAt(pages, groups[m].page, |WordsAll(Texts(chunks))|)
  {
    hide WordsAll, Texts, WordsOfSections, ChunksOk, ChunksSited, CutFrom, PagesOrdered, Sited, SitedAt, AllSplit, Flat,
         Owners;
    SitedMember(pages, groups, m);
    PagesNext(groups, m, |pages|);
  }

  lemma {:induction false} ChunkingMore(pages: seq<string>, groups: seq<Section>, m: nat, before: seq<Chunk>,
                                        all: seq<seq<string>>, chunks: seq<Chunk>, parts: seq<string>)
    requires Chunking(pages, groups, m, before, all) && m < |groups|
    requires ChunksOk(chunks, NextPage(groups, m + 1, |pages|)) && ChunksSited(pages, chunks)
    requires Appended(before, chunks, groups[m]) && |chunks| == |before| + |parts|
    requires WordsAll(parts) == Words(BodyOf(groups[m].lines)) && Splits(parts, BodyOf(groups[m].lines))
    requires WordsAll(Texts(chunks)) == WordsAll(Texts(before)) + WordsAll(parts)
    requires Texts(chunks) == Texts(before) + parts
    ensures Chunking(pages, groups, m + 1, chunks, all + [parts])
  {
    hide WordsAll, Texts, WordsOfSections, ChunksOk, ChunksSited, CutFrom, BodyOf, Words, Splits, Flat, Owners, AllSplit;
    GroupWords(groups, m);
    OneMorePart(all, parts, groups);
    OwnersBelow(all);
    CutMore(before, chunks, groups, Owners(all), m);
    assert seq(|chunks| - |before|, _ => m) == seq(|parts|, _ => |all|);
  }

  lemma {:induction false} OwnersBelow(all: seq<seq<string>>)
    ensures forall k :: 0 <= k < |Owners(all)| ==> Owners(all)[k] < |all|
  {
    if all != [] { OwnersBelow(all[..|all| - 1]); }
  }

  lemma {:induction false} EmptyChunks(pages: seq<string>, hi: nat)
    ensures Texts([]) == [] && ChunksSited(pages, []) && ChunksOk([], hi)
  {
  }

  lemma {:induction false} SitedMember(pages: seq<string>, sections: seq<Section>, m: nat)
    requires Sited(pages, sections) && m < |sections|
    ensures SitedAt(pages, sections[m].page, |WordsOfSections(sections[..m])|)
  {
  }

  lemma {:induction false} ChunksLater(chunks: seq<Chunk>, hi: nat, hi': nat)
    requires ChunksOk(chunks, hi) && hi <= hi'
    ensures ChunksOk(chunks, hi')
  {
  }

  /** The first `k` parts of a section are chunks. */
  ghost predicate Appending(before: seq<Chunk>, section: Section, parts: seq<string>, pages: seq<string>,
                            chunks: seq<Chunk>, k: nat)
  {
    && k <= |parts| && ChunksOk(chunks, section.page) && ChunksSited(pages, chunks) && Appended(before, chunks, section)
    && (if k == 0 then chunks == before else chunks != [] && chunks[|chunks| - 1].page == section.page)
    && WordsAll(Texts(chunks)) == WordsAll(Texts(before)) + WordsAll(parts[..k])
    && Texts(chunks) == Texts(before) + parts[..k] && |chunks| == |before| + k
  }

  lemma {:induction false} AppendNone(before: seq<Chunk>, section: Section, parts: seq<string>, pages: seq<string>)
    requires ChunksOk(before, section.page) && ChunksSited(pages, before)
    ensures Appending(before, section, parts, pages, before, 0)
  {
    hide ChunksOk, ChunksSited, Texts;
  }

  lemma {:induction false} AppendOne(before: seq<Chunk>, section: Section, parts: seq<string>, pages: seq<string>,
                                     chunks: seq<Chunk>, k: nat)
    requires k < |parts| && Appending(before, section, parts, pages, chunks, k) && AllCut(parts)
    requires SitedAt(pages, section.page, |WordsAll(Texts(before))|)
    ensures Appending(before, section, parts, pages, chunks + [Chunk(|chunks|, section.page, section.heading, parts[k])],
                      k + 1)
  {
    hide WordsAll, ChunksOk, ChunksSited, WordCount, Texts, Appended;
    var chunk := Chunk(|chunks|, section.page, section.heading, parts[k]);
    ChunksSnoc(before, chunks, chunk, section);
    ChunkSitedSnoc(pages, chunks, chunk);
    WordsAllSnoc(Texts(chunks), parts[k]);
    TakeWords(WordsAll(Texts(before)), parts, k);
    WordsAllOne("");
    assert parts[..0] == [];
  }

  method AppendParts(before: seq<Chunk>, section: Section, parts: seq<string>, ghost hi: nat, ghost pages: seq<string>)
      returns (chunks: seq<Chunk>)
    requires ChunksOk(before, section.page) && AllCut(parts) && 1 <= section.page <= hi
    requires ChunksSited(pages, before) && SitedAt(pages, section.page, |WordsAll(Texts(before))|)
    ensures ChunksOk(chunks, hi) && ChunksSited(pages, chunks) && Appended(before, chunks, section)
    ensures WordsAll(Texts(chunks)) == WordsAll(Texts(before)) + WordsAll(parts)
    ensures Texts(chunks) == Texts(before) + parts && |chunks| == |before| + |parts|
  {
    hide Appending, Texts;
    chunks := before;
    AppendNone(before, section, parts, pages);
    for k := 0 to |parts|
      invariant Appending(before, section, parts, pages, chunks, k)
    {
      AppendOne(before, section, parts, pages, chunks, k);
      chunks := chunks + [Chunk(|chunks|, section.page, section.heading, parts[k])];
    }
    AppendAll(before, section, parts, pages, chunks, hi);
  }

  lemma {:induction false} AppendAll(before: seq<Chunk>, section: Section, parts: seq<string>, pages: seq<string>,
                                     chunks: seq<Chunk>, hi: nat)
    requires Appending(before, section, parts, pages, chunks, |parts|) && section.page <= hi
    ensures ChunksOk(chunks, hi) && ChunksSited(pages, chunks) && Appended(before, chunks, section)
    ensures WordsAll(Texts(chunks)) == WordsAll(Texts(before)) + WordsAll(parts)
    ensures Texts(chunks) == Texts(before) + parts && |chunks| == |before| + |parts|
  {
    hide WordsAll, ChunksOk, ChunksSited, Texts, Appended;
    ChunksLater(chunks, section.page, hi);
    assert parts[..|parts|] == parts;
  }

  lemma {:induction false} ChunksSnoc(before: seq<Chunk>, chunks: seq<Chunk>, chunk: Chunk, section: Section)
    requires ChunksOk(chunks, section.page) && Appended(before, chunks, section)
    requires chunk == Chunk(|chunks|, section.page, section.heading, chunk.text) && section.page >= 1 && Cut(chunk.text)
    ensures Appended(before, chunks + [chunk], section)
    ensures ChunksOk(chunks + [chunk], section.page) && Texts(chunks + [chunk]) == Texts(chunks) + [chunk.text]
  {
  }
}
