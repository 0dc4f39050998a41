/** Numbering the citations of the rendered answer (agentcore/trust/validator.py, lines 199-236).

    The reader of an answer opens the entry behind a marker, so the question is when that
    entry is the citation the marker was written for. Entries are keyed by chunk and start;
    two quotes of one clause can share both and still end at different places. */
module Markers {
  import opened Text
  import opened Types
  import opened Spans
  import opened Validator

  type Key = (nat, Option<nat>)

  function KeyOf(c: Citation): Key {
    (c.chunkId, c.start)
  }

  predicate HasKey(cs: seq<Citation>, key: Key) {
    exists i :: 0 <= i < |cs| && KeyOf(cs[i]) == key
  }

  /** Of the citations with one key, only the first. */
  function FirstCited(cs: seq<Citation>): seq<Citation> {
    if cs == [] then []
    else
      var n := |cs| - 1;
      var before := FirstCited(cs[..n]);
      before + (if HasKey(before, KeyOf(cs[n])) then [] else [cs[n]])
  }

  function Flattened(claims: seq<Claim>): seq<Citation> {
    if claims == [] then [] else Flattened(claims[..|claims| - 1]) + claims[|claims| - 1].citations
  }

  predicate DistinctKeys(cs: seq<Citation>) {
    forall i, j :: 0 <= i < j < |cs| ==> KeyOf(cs[i]) != KeyOf(cs[j])
  }

  /** The marker of each citation opens an entry with the same chunk and start. */
  predicate Pointing(markers: seq<nat>, cs: seq<Citation>, ordered: seq<Citation>) {
    && |markers| == |cs|
    && forall k :: 0 <= k < |cs| ==> 1 <= markers[k] <= |ordered| && KeyOf(ordered[markers[k] - 1]) == KeyOf(cs[k])
  }

  predicate AllPointing(markers: seq<seq<nat>>, claims: seq<Claim>, ordered: seq<Citation>) {
    && |markers| == |claims|
    && forall i :: 0 <= i < |claims| ==> Pointing(markers[i], claims[i].citations, ordered)
  }

  predicate Numbers(seen: map<Key, nat>, ordered: seq<Citation>) {
    && (forall n :: 0 <= n < |ordered| ==> KeyOf(ordered[n]) in seen && seen[KeyOf(ordered[n])] == n + 1)
    && (forall key <- seen :: 1 <= seen[key] <= |ordered| && KeyOf(ordered[seen[key] - 1]) == key)
  }

  method RenderMarkers(claims: seq<Claim>) returns (markers: seq<seq<nat>>, ordered: seq<Citation>)
    ensures ordered == FirstCited(Flattened(claims))
    ensures AllPointing(markers, claims, ordered)
  {
    hide Pointing, FirstCited, Numbers;
    markers, ordered := [], [];
    var seen: map<Key, nat> := map[];
    NothingNumbered();
    for i := 0 to |claims|
      invariant ordered == FirstCited(Flattened(claims[..i])) && Numbers(seen, ordered)
      invariant AllPointing(markers, claims[..i], ordered)
    {
      assert claims[..i + 1][..i] == claims[..i];
      ghost var before := ordered;
      var row;
      row, ordered, seen := NumberClaim(claims[i].citations, ordered, seen, Flattened(claims[..i]));
      PointingLater(markers, claims[..i], before, ordered);
      markers := markers + [row];
    }
    assert claims[..|claims|] == claims;
  }

  lemma {:induction false} NothingNumbered()
    ensures Numbers(map[], []) && FirstCited([]) == []
  {
  }

  lemma {:induction false} PointingLater(markers: seq<seq<nat>>, claims: seq<Claim>, ordered: seq<Citation>,
                                         later: seq<Citation>)
    requires AllPointing(markers, claims, ordered) && ordered <= later
    ensures AllPointing(markers, claims, later)
  {
  }

  /** The inner loop: the markers of one claim. */
  method NumberClaim(citations: seq<Citation>, before: seq<Citation>, seenBefore: map<Key, nat>, ghost done: seq<Citation>)
      returns (markers: seq<nat>, ordered: seq<Citation>, seen: map<Key, nat>)
    requires before == FirstCited(done) && Numbers(seenBefore, before)
    ensures ordered == FirstCited(done + citations) && Numbers(seen, ordered) && before <= ordered
    ensures Pointing(markers, citations, ordered)
  {
    hide FirstCited, Numbers;
    markers, ordered, seen := [], before, seenBefore;
    assert done + citations[..0] == done;
    for k := 0 to |citations|
      invariant ordered == FirstCited(done + citations[..k]) && Numbers(seen, ordered) && before <= ordered
      invariant Pointing(markers, citations[..k], ordered)
    {
      var citation := citations[k];
      var key := KeyOf(citation);
      FirstCitedSnoc(done + citations[..k], citation);
      assert (done + citations[..k]) + [citation] == done + citations[..k + 1];
      NumberKey(seen, ordered, citation);
      if key !in seen {
        ordered := ordered + [citation];
        seen := seen[key := |ordered|];
      }
      markers := markers + [seen[key]];
    }
    assert citations[..|citations|] == citations;
  }

  lemma {:induction false} FirstCitedSnoc(cs: seq<Citation>, c: Citation)
    ensures FirstCited(cs + [c]) == FirstCited(cs) + (if HasKey(FirstCited(cs), KeyOf(c)) then [] else [c])
  {
    assert (cs + [c])[..|cs|] == cs;
  }

  lemma {:induction false} NumberKey(seen: map<Key, nat>, ordered: seq<Citation>, c: Citation)
    requires Numbers(seen, ordered)
    ensures KeyOf(c) in seen <==> HasKey(ordered, KeyOf(c))
    ensures KeyOf(c) in seen ==> 1 <= seen[KeyOf(c)] <= |ordered| && KeyOf(ordered[seen[KeyOf(c)] - 1]) == KeyOf(c)
    ensures KeyOf(c) !in seen ==> Numbers(seen[KeyOf(c) := |ordered| + 1], ordered + [c])
  {
    if KeyOf(c) in seen {
      assert KeyOf(ordered[seen[KeyOf(c)] - 1]) == KeyOf(c);
    }
  }

  // ---- what the numbers mean ------------------------------------------------

  /** `at[n]` is where the n-th numbered citation was first cited. */
  predicate FirstUses(ordered: seq<Citation>, at: seq<nat>, cs: seq<Citation>) {
    && |at| == |ordered|
    && (forall n :: 0 <= n < |at| ==> at[n] < |cs| && cs[at[n]] == ordered[n])
    && (forall n, q :: 0 <= n < |at| && 0 <= q < at[n] ==> KeyOf(cs[q]) != KeyOf(ordered[n]))
    && (forall n, m :: 0 <= n < m < |at| ==> at[n] < at[m])
  }

  predicate Covered(cs: seq<Citation>, ordered: seq<Citation>) {
    forall q :: 0 <= q < |cs| ==> HasKey(ordered, KeyOf(cs[q]))
  }

  /** Numbers are given in the order of first citation, one per chunk and start. */
  lemma {:induction false} NumberedByFirstUse(cs: seq<Citation>) returns (at: seq<nat>)
    ensures FirstUses(FirstCited(cs), at, cs) && DistinctKeys(FirstCited(cs))
    ensures Covered(cs, FirstCited(cs))
  {
    if cs == [] {
      at := [];
    } else {
      var n := |cs| - 1;
      var at' := NumberedByFirstUse(cs[..n]);
      hide FirstCited;
      FirstCitedSnoc(cs[..n], cs[n]);
      assert cs[..n] + [cs[n]] == cs;
      at := FirstUsesSnoc(FirstCited(cs[..n]), at', cs);
    }
  }

  lemma {:induction false} FirstUsesSnoc(ordered: seq<Citation>, at: seq<nat>, cs: seq<Citation>) returns (at': seq<nat>)
    requires cs != [] && FirstUses(ordered, at, cs[..|cs| - 1]) && DistinctKeys(ordered)
    requires Covered(cs[..|cs| - 1], ordered)
    ensures var c := cs[|cs| - 1];
            var out := ordered + (if HasKey(ordered, KeyOf(c)) then [] else [c]);
            && FirstUses(out, at', cs) && DistinctKeys(out)
            && Covered(cs, out)
  {
    var n := |cs| - 1;
    var c := cs[n];
    assert forall q :: 0 <= q < n ==> cs[..n][q] == cs[q];
    if HasKey(ordered, KeyOf(c)) {
      at' := at;
      assert ordered + [] == ordered;
    } else {
      at' := at + [n];
      HasKeySnoc(ordered, c);
    }
  }

  lemma {:induction false} HasKeySnoc(cs: seq<Citation>, c: Citation)
    ensures HasKey(cs + [c], KeyOf(c))
    ensures forall key :: HasKey(cs, key) ==> HasKey(cs + [c], key)
  {
    assert (cs + [c])[|cs|] == c;
    forall key | HasKey(cs, key) ensures HasKey(cs + [c], key) {
      var i :| 0 <= i < |cs| && KeyOf(cs[i]) == key;
      assert (cs + [c])[i] == cs[i];
    }
  }

  lemma {:induction false} FlattenedStep(claims: seq<Claim>)
    requires claims != []
    ensures Flattened(claims) == Flattened(claims[..|claims| - 1]) + claims[|claims| - 1].citations
  {
  }

  lemma {:induction false} CitedIn(claims: seq<Claim>, c: Citation)
    ensures c in Flattened(claims) <==>
              exists i, k :: 0 <= i < |claims| && 0 <= k < |claims[i].citations| && claims[i].citations[k] == c
  {
    if claims != [] {
      hide Flattened;
      var n := |claims| - 1;
      CitedIn(claims[..n], c);
      FlattenedStep(claims);
    }
  }

  /** Every marker opens the citation it was written for. */
  predicate Exact(markers: seq<seq<nat>>, claims: seq<Claim>, ordered: seq<Citation>)
    requires AllPointing(markers, claims, ordered)
  {
    forall i, k :: 0 <= i < |claims| && 0 <= k < |claims[i].citations| ==>
      ordered[markers[i][k] - 1] == claims[i].citations[k]
  }

  predicate Unambiguous(claims: seq<Claim>) {
    forall a, b :: a in Flattened(claims) && b in Flattened(claims) && KeyOf(a) == KeyOf(b) ==> a == b
  }

  lemma {:induction false} ExactIf(claims: seq<Claim>, markers: seq<seq<nat>>, ordered: seq<Citation>)
    requires ordered == FirstCited(Flattened(claims)) && AllPointing(markers, claims, ordered) && Unambiguous(claims)
    ensures Exact(markers, claims, ordered)
  {
    hide FirstCited, Flattened;
    var cs := Flattened(claims);
    var at := NumberedByFirstUse(cs);
    forall i, k | 0 <= i < |claims| && 0 <= k < |claims[i].citations|
      ensures ordered[markers[i][k] - 1] == claims[i].citations[k]
    {
      CitedIn(claims, claims[i].citations[k]);
      assert Pointing(markers[i], claims[i].citations, ordered);
      assert cs[at[markers[i][k] - 1]] in cs;
    }
  }

  lemma {:induction false} SameEntry(claims: seq<Claim>, markers: seq<seq<nat>>, ordered: seq<Citation>,
                                     a: Citation, b: Citation)
    requires AllPointing(markers, claims, ordered) && DistinctKeys(ordered) && Exact(markers, claims, ordered)
    requires a in Flattened(claims) && b in Flattened(claims) && KeyOf(a) == KeyOf(b)
    ensures a == b
  {
    hide Flattened;
    CitedIn(claims, a);
    CitedIn(claims, b);
    var i, k :| 0 <= i < |claims| && 0 <= k < |claims[i].citations| && claims[i].citations[k] == a;
    var j, l :| 0 <= j < |claims| && 0 <= l < |claims[j].citations| && claims[j].citations[l] == b;
    assert Pointing(markers[i], claims[i].citations, ordered) && Pointing(markers[j], claims[j].citations, ordered);
  }

  /** Markers are exact exactly when no two cited spans share a chunk and a start and
      yet differ. */
  lemma {:induction false} ExactIff(claims: seq<Claim>, markers: seq<seq<nat>>, ordered: seq<Citation>)
    requires ordered == FirstCited(Flattened(claims)) && AllPointing(markers, claims, ordered)
    ensures Exact(markers, claims, ordered) <==> Unambiguous(claims)
  {
    hide FirstCited, Flattened, AllPointing, Exact;
    var at := NumberedByFirstUse(Flattened(claims));
    if Exact(markers, claims, ordered) {
      forall a, b | a in Flattened(claims) && b in Flattened(claims) && KeyOf(a) == KeyOf(b) ensures a == b {
        SameEntry(claims, markers, ordered, a, b);
      }
    } else if Unambiguous(claims) {
      ExactIf(claims, markers, ordered);
    }
  }

  predicate OneEndPerStart(claims: seq<Claim>) {
    forall a, b :: a in Flattened(claims) && b in Flattened(claims) && KeyOf(a) == KeyOf(b) ==> a.end == b.end
  }

  /** For validated claims only the ends of the spans can differ. */
  lemma {:induction false} ValidatedExactIff(claims: seq<Claim>, byId: map<nat, Chunk>, markers: seq<seq<nat>>,
                                             ordered: seq<Citation>)
    requires forall i :: 0 <= i < |claims| ==> Evidence(claims[i], byId)
    requires ordered == FirstCited(Flattened(claims)) && AllPointing(markers, claims, ordered)
    ensures Exact(markers, claims, ordered) <==> OneEndPerStart(claims)
  {
    hide FirstCited, Flattened, AllPointing, Exact;
    ExactIff(claims, markers, ordered);
    forall a | a in Flattened(claims) ensures Grounded(a, byId) {
      CitedIn(claims, a);
    }
    hide Grounded;
    forall a, b | a in Flattened(claims) && b in Flattened(claims) && KeyOf(a) == KeyOf(b) && a.end == b.end
      ensures a == b
    {
      assert a == b;
    }
  }

  lemma {:induction false} FirstOfTwo(a: Citation, b: Citation)
    requires KeyOf(a) == KeyOf(b)
    ensures FirstCited([a, b]) == [a]
  {
    hide FirstCited;
    FirstCitedSnoc([], a);
    FirstCitedSnoc([a], b);
    NothingNumbered();
    assert [] + [a] == [a] && [a] + [b] == [a, b];
    assert KeyOf([a][0]) == KeyOf(b);
  }

  lemma {:induction false} FlattenTwo(c: Claim, d: Claim)
    ensures Flattened([c, d]) == c.citations + d.citations
  {
    assert [c, d][..1] == [c] && [c][..0] == [];
    assert Flattened([c]) == [] + c.citations;
  }

  lemma {:induction false} OneEntry(markers: seq<nat>, c: Citation, ordered: seq<Citation>)
    requires Pointing(markers, [c], ordered) && |ordered| == 1
    ensures markers == [1]
  {
    assert markers[0] == 1;
  }

  // ---- a clause quoted twice ------------------------------------------------

  /** A quote that opens its chunk is located there. */
  lemma {:induction false} OpeningSpan(text: string, n: nat)
    requires n <= |text| && InkBounded(text[..n])
    ensures SpanOf(text, text[..n]) == Some(Span(0, n, text[..n]))
  {
    hide SpanOf, Collapse, Needle, IsSpace;
    NeedleOfBounded(text[..n]);
    assert text[0..n] == text[..n];
    assert Occurrence(text, text[..n], 0, n);
    SpanIsLeftmostOccurrence(text, text[..n]);
  }

  /** Quote `n` characters from the start of chunk 1, as a model would. */
  function Given(text: string, n: nat): Citation
    requires n <= |text|
  {
    Citation(1, 0, text[..n], None, None)
  }

  function Located(text: string, n: nat): Citation
    requires n <= |text|
  {
    Citation(1, 7, text[..n], Some(0), Some(n))
  }

  lemma {:induction false} OpeningPasses(text: string, n: nat)
    requires MIN_QUOTE_CHARS <= n <= |text| && InkBounded(text[..n])
    ensures var byId := map[1 := Chunk(1, 7, text, Groundable)];
            && Check(Given(text, n), byId, true).None? && Sound(Given(text, n), byId)
            && Resolved(Given(text, n), byId) == Located(text, n)
  {
    hide SpanOf, Collapse, Needle, IsSpace, Strip;
    OpeningSpan(text, n);
    NeedleOfBounded(text[..n]);
    CheckIsSound(Given(text, n), map[1 := Chunk(1, 7, text, Groundable)]);
  }

  lemma {:induction false} KeptTwo(c: Claim, d: Claim, byId: map<nat, Chunk>)
    ensures KeptClaims([c, d], byId, true) == KeptClaims([c], byId, true) + KeptClaims([d], byId, true)
  {
    hide Survivors;
    assert [c, d][..1] == [c] && [d][..0] == [];
  }

  /** Two quotes of one clause that share its start: both claims pass validation, and the
      second one's marker opens the first one's span. */
  lemma {:induction false} SharedStartIsInexact(text: string, m: nat, n: nat, x: string, y: string,
                                                markers: seq<seq<nat>>, ordered: seq<Citation>)
    requires MIN_QUOTE_CHARS <= m < n <= |text| && InkBounded(text[..m]) && InkBounded(text[..n])
    requires var given := [Claim(x, [Given(text, m)]), Claim(y, [Given(text, n)])];
             var kept := KeptClaims(given, map[1 := Chunk(1, 7, text, Groundable)], true);
             ordered == FirstCited(Flattened(kept)) && AllPointing(markers, kept, ordered)
    ensures var given := [Claim(x, [Given(text, m)]), Claim(y, [Given(text, n)])];
            var byId := map[1 := Chunk(1, 7, text, Groundable)];
            var kept := [Claim(x, [Located(text, m)]), Claim(y, [Located(text, n)])];
            && Validated(given, byId, true).Ok() && Validated(given, byId, true).claims == kept
            && ordered == [Located(text, m)] && markers == [[1], [1]] && Located(text, m) != Located(text, n)
  {
    var given := [Claim(x, [Given(text, m)]), Claim(y, [Given(text, n)])];
    var byId := map[1 := Chunk(1, 7, text, Groundable)];
    var kept := [Claim(x, [Located(text, m)]), Claim(y, [Located(text, n)])];
    SharedStartPasses(text, m, n, x, y);
    hide KeptClaims, InkBounded, FirstCited, Flattened, Pointing, AllRejects, Unsupported;
    TwoEntries(kept, markers, ordered);
  }

  lemma {:induction false} SharedStartPasses(text: string, m: nat, n: nat, x: string, y: string)
    requires MIN_QUOTE_CHARS <= m <= |text| && InkBounded(text[..m])
    requires MIN_QUOTE_CHARS <= n <= |text| && InkBounded(text[..n])
    ensures var given := [Claim(x, [Given(text, m)]), Claim(y, [Given(text, n)])];
            var byId := map[1 := Chunk(1, 7, text, Groundable)];
            && Validated(given, byId, true).Ok()
            && Validated(given, byId, true).claims == [Claim(x, [Located(text, m)]), Claim(y, [Located(text, n)])]
  {
    hide InkBounded, Check, Resolved, Sound, KeptClaims, AllRejects, Unsupported;
    var given := [Claim(x, [Given(text, m)]), Claim(y, [Given(text, n)])];
    var byId := map[1 := Chunk(1, 7, text, Groundable)];
    OpeningPasses(text, m);
    OpeningPasses(text, n);
    OkIff(given, byId);
    KeptTwo(given[0], given[1], byId);
    KeptOne(given[0], byId);
    KeptOne(given[1], byId);
  }

  lemma {:induction false} TwoEntries(kept: seq<Claim>, markers: seq<seq<nat>>, ordered: seq<Citation>)
    requires |kept| == 2 && |kept[0].citations| == 1 && |kept[1].citations| == 1
    requires KeyOf(kept[0].citations[0]) == KeyOf(kept[1].citations[0])
    requires ordered == FirstCited(Flattened(kept)) && AllPointing(markers, kept, ordered)
    ensures ordered == kept[0].citations && markers == [[1], [1]]
  {
    hide FirstCited, Flattened, Pointing;
    var a, b := kept[0].citations[0], kept[1].citations[0];
    assert kept == [kept[0], kept[1]] && kept[0].citations == [a] && kept[1].citations == [b];
    FlattenTwo(kept[0], kept[1]);
    assert [a] + [b] == [a, b];
    FirstOfTwo(a, b);
    assert Pointing(markers[0], [a], ordered) && Pointing(markers[1], [b], ordered);
    OneEntry(markers[0], a, ordered);
    OneEntry(markers[1], b, ordered);
  }

  const WITHIN := "no fee within 30 minutes of booking"

  lemma {:induction false} WithinOpens()
    ensures |WITHIN| == 35 && WITHIN[..13] == "no fee within" && WITHIN[..24] == "no fee within 30 minutes"
    ensures InkBounded(WITHIN[..13]) && InkBounded(WITHIN[..24])
  {
  }

  /** Such a clause, from the model's claims to the markers: both open "no fee within". */
  method NoFeeWithin() returns (markers: seq<seq<nat>>, ordered: seq<Citation>)
    ensures markers == [[1], [1]] && ordered == [Citation(1, 7, "no fee within", Some(0), Some(13))]
  {
    hide Validated, ClaimsLocatable, ById, KeptClaims, FirstCited, Flattened, AllPointing, InkBounded;
    WithinOpens();
    var short := Claim("Free.", [Citation(1, 0, "no fee within", None, None)]);
    var long := Claim("Free for half an hour.", [Citation(1, 0, "no fee within 30 minutes", None, None)]);
    var chunk := Chunk(1, 7, WITHIN, Groundable);
    OnlyChunk(chunk);
    AlwaysLocatable([short, long], ById([chunk]));
    var outcome := ValidateClaims([short, long], [chunk], true);
    markers, ordered := RenderMarkers(outcome.value.claims);
    OutcomeClaims([short, long], ById([chunk]));
    SharedStartIsInexact(WITHIN, 13, 24, short.text, long.text, markers, ordered);
  }

  lemma {:induction false} OnlyChunk(chunk: Chunk)
    ensures ById([chunk]) == map[chunk.id := chunk]
  {
  }

  lemma {:induction false} OutcomeClaims(claims: seq<Claim>, byId: map<nat, Chunk>)
    ensures Validated(claims, byId, true).claims == KeptClaims(claims, byId, true)
  {
  }

  lemma {:induction false} AlwaysLocatable(claims: seq<Claim>, byId: map<nat, Chunk>)
    ensures ClaimsLocatable(claims, byId, true)
  {
    hide Locatable;
    forall i, k | 0 <= i < |claims| && 0 <= k < |claims[i].citations|
      ensures Locatable(claims[i].citations[k], byId, true)
    {
      VerbatimLocatable(claims[i].citations[k], byId);
    }
  }
}
