/** The citation gate and the numbering of its markers (agentcore/trust/validator.py). */
module Validator {
  import opened Text
  import opened Types
  import opened Spans

  const MIN_QUOTE_CHARS := 12

  datatype Rejection = EmptyQuote | QuoteTooShort | UnknownChunk | NotGroundable | QuoteNotFound

  datatype RejectedCitation = RejectedCitation(claimText: string, citation: Citation, reason: Rejection)

  datatype Outcome = Outcome(claims: seq<Claim>, rejected: seq<RejectedCitation>, unsupported: seq<string>) {
    predicate Ok() {
      claims != [] && rejected == [] && unsupported == []
    }
  }

  // ---- one citation ---------------------------------------------------------

  /** The run's candidates by identifier; of two with the same one, the later. */
  function ById(retrieved: seq<Chunk>): map<nat, Chunk> {
    if retrieved == [] then map[]
    else
      var n := |retrieved| - 1;
      ById(retrieved[..n])[retrieved[n].id := retrieved[n]]
  }

  /** The reason to reject a citation, if there is one. */
  function Check(c: Citation, byId: map<nat, Chunk>, requireVerbatim: bool): (r: Option<Rejection>)
    ensures r.None? ==> c.chunkId in byId
  {
    var quote := Strip(c.quote);
    if quote == "" then Some(EmptyQuote)
    else if |quote| < MIN_QUOTE_CHARS then Some(QuoteTooShort)
    else if c.chunkId !in byId then Some(UnknownChunk)
    else if byId[c.chunkId].eligibility != Groundable then Some(NotGroundable)
    else if requireVerbatim && SpanOf(byId[c.chunkId].text, quote).None? then Some(QuoteNotFound)
    else None
  }

  /** The assertion that follows a passed check: the quote can be located. */
  predicate Locatable(c: Citation, byId: map<nat, Chunk>, requireVerbatim: bool) {
    Check(c, byId, requireVerbatim).None? ==> SpanOf(byId[c.chunkId].text, c.quote).Some?
  }

  /** A located citation carries the chunk's own words, document and offsets. */
  function Resolved(c: Citation, byId: map<nat, Chunk>): Citation {
    if c.chunkId !in byId then c
    else
      match SpanOf(byId[c.chunkId].text, c.quote)
      case None => c
      case Some(span) => Citation(c.chunkId, byId[c.chunkId].documentId, span.text, Some(span.start), Some(span.end))
  }

  /** Searching for the stripped quote, as the check does, and for the quote itself,
      as the caller does, give the same answer. */
  lemma {:induction false} SpanOfStrip(haystack: string, quote: string)
    ensures SpanOf(haystack, Strip(quote)) == SpanOf(haystack, quote)
  {
    hide Collapse, Strip, Offsets, IsSpace;
    NeedleOfStrip(quote);
    SpanByNeedle(haystack, quote, Strip(quote));
  }

  lemma {:induction false} SpanByNeedle(haystack: string, a: string, b: string)
    requires Needle(a) == Needle(b)
    ensures SpanOf(haystack, a) == SpanOf(haystack, b)
  {
    hide Collapse, Strip, Offsets, IsSpace, Needle, SpanFrom;
  }

  /** In the verbatim mode the assertion cannot fail. */
  lemma {:induction false} VerbatimLocatable(c: Citation, byId: map<nat, Chunk>)
    ensures Locatable(c, byId, true)
  {
    hide Strip, SpanOf;
    if c.chunkId in byId { SpanOfStrip(byId[c.chunkId].text, c.quote); }
  }

  /** What the gate promises of a citation, said on the retrieved text alone. */
  ghost predicate Sound(c: Citation, byId: map<nat, Chunk>) {
    && |Strip(c.quote)| >= MIN_QUOTE_CHARS
    && c.chunkId in byId && byId[c.chunkId].eligibility == Groundable
    && exists i, j :: Occurrence(byId[c.chunkId].text, c.quote, i, j)
  }

  lemma {:induction false} CheckIsSound(c: Citation, byId: map<nat, Chunk>)
    ensures Check(c, byId, true).None? <==> Sound(c, byId)
  {
    hide Strip, SpanOf, Occurrence;
    if c.chunkId in byId {
      SpanOfStrip(byId[c.chunkId].text, c.quote);
      SpanIsLeftmostOccurrence(byId[c.chunkId].text, c.quote);
    }
  }

  /** Which reason a rejection names: the first of these that holds. */
  lemma {:induction false} RejectionTells(c: Citation, byId: map<nat, Chunk>, verbatim: bool)
    ensures var r, long := Check(c, byId, verbatim), |Strip(c.quote)| >= MIN_QUOTE_CHARS;
            && (r == Some(EmptyQuote) <==> Strip(c.quote) == "")
            && (r == Some(QuoteTooShort) <==> Strip(c.quote) != "" && !long)
            && (r == Some(UnknownChunk) <==> long && c.chunkId !in byId)
            && (r == Some(NotGroundable) <==>
                  long && c.chunkId in byId && byId[c.chunkId].eligibility != Groundable)
            && (r == Some(QuoteNotFound) <==>
                  && verbatim && long && c.chunkId in byId && byId[c.chunkId].eligibility == Groundable
                  && forall i, j :: !Occurrence(byId[c.chunkId].text, c.quote, i, j))
  {
    hide Strip, SpanOf, Occurrence;
    CheckIsSound(c, byId);
  }

  /** A retrieved identifier stands for the last chunk that has it. */
  lemma {:induction false} ByIdIs(retrieved: seq<Chunk>, k: nat)
    requires k < |retrieved| && forall j :: k < j < |retrieved| ==> retrieved[j].id != retrieved[k].id
    ensures retrieved[k].id in ById(retrieved) && ById(retrieved)[retrieved[k].id] == retrieved[k]
    ensures forall id :: id in ById(retrieved) ==> exists i :: 0 <= i < |retrieved| && retrieved[i].id == id
  {
    ByIdKnown(retrieved);
    if k < |retrieved| - 1 { ByIdIs(retrieved[..|retrieved| - 1], k); }
  }

  lemma {:induction false} ByIdKnown(retrieved: seq<Chunk>)
    ensures forall id :: id in ById(retrieved) ==> exists i :: 0 <= i < |retrieved| && retrieved[i].id == id
  {
    if retrieved != [] {
      var n := |retrieved| - 1;
      ByIdKnown(retrieved[..n]);
      forall id | id in ById(retrieved) ensures exists i :: 0 <= i < |retrieved| && retrieved[i].id == id {
        if id == retrieved[n].id {
          assert retrieved[n].id == id;
        } else {
          assert id in ById(retrieved[..n]);
          var i :| 0 <= i < |retrieved[..n]| && retrieved[..n][i].id == id;
          assert retrieved[i].id == id;
        }
      }
    }
  }

  // ---- all claims -----------------------------------------------------------

  function Survivors(citations: seq<Citation>, byId: map<nat, Chunk>, verbatim: bool): seq<Citation> {
    if citations == [] then []
    else
      var n := |citations| - 1;
      Survivors(citations[..n], byId, verbatim)
      + (if Check(citations[n], byId, verbatim).None? then [Resolved(citations[n], byId)] else [])
  }

  function Rejects(text: string, citations: seq<Citation>, byId: map<nat, Chunk>, verbatim: bool): seq<RejectedCitation> {
    if citations == [] then []
    else
      var n := |citations| - 1;
      var reason := Check(citations[n], byId, verbatim);
      Rejects(text, citations[..n], byId, verbatim)
      + (if reason.Some? then [RejectedCitation(text, citations[n], reason.value)] else [])
  }

  function KeptClaims(claims: seq<Claim>, byId: map<nat, Chunk>, verbatim: bool): seq<Claim> {
    if claims == [] then []
    else
      var n := |claims| - 1;
      var surviving := Survivors(claims[n].citations, byId, verbatim);
      KeptClaims(claims[..n], byId, verbatim) + (if surviving != [] then [Claim(claims[n].text, surviving)] else [])
  }

  function AllRejects(claims: seq<Claim>, byId: map<nat, Chunk>, verbatim: bool): seq<RejectedCitation> {
    if claims == [] then []
    else
      var n := |claims| - 1;
      AllRejects(claims[..n], byId, verbatim) + Rejects(claims[n].text, claims[n].citations, byId, verbatim)
  }

  function Unsupported(claims: seq<Claim>, byId: map<nat, Chunk>, verbatim: bool): seq<string> {
    if claims == [] then []
    else
      var n := |claims| - 1;
      Unsupported(claims[..n], byId, verbatim)
      + (if Survivors(claims[n].citations, byId, verbatim) == [] then [claims[n].text] else [])
  }

  function Validated(claims: seq<Claim>, byId: map<nat, Chunk>, verbatim: bool): Outcome {
    Outcome(KeptClaims(claims, byId, verbatim), AllRejects(claims, byId, verbatim), Unsupported(claims, byId, verbatim))
  }

  predicate AllLocatable(citations: seq<Citation>, byId: map<nat, Chunk>, verbatim: bool) {
    forall i :: 0 <= i < |citations| ==> Locatable(citations[i], byId, verbatim)
  }

  predicate ClaimsLocatable(claims: seq<Claim>, byId: map<nat, Chunk>, verbatim: bool) {
    forall i :: 0 <= i < |claims| ==> AllLocatable(claims[i].citations, byId, verbatim)
  }

  /** The inner loop; `asserted` is false when its assertion fails. */
  method SiftCitations(claim: Claim, byId: map<nat, Chunk>, requireVerbatim: bool, before: seq<RejectedCitation>)
      returns (asserted: bool, surviving: seq<Citation>, rejected: seq<RejectedCitation>)
    ensures asserted == AllLocatable(claim.citations, byId, requireVerbatim)
    ensures asserted ==> surviving == Survivors(claim.citations, byId, requireVerbatim)
    ensures asserted ==> rejected == before + Rejects(claim.text, claim.citations, byId, requireVerbatim)
  {
    hide SpanOf, Check;
    surviving, rejected := [], before;
    var citations := claim.citations;
    for k := 0 to |citations|
      invariant forall i :: 0 <= i < k ==> Locatable(citations[i], byId, requireVerbatim)
      invariant surviving == Survivors(citations[..k], byId, requireVerbatim)
      invariant rejected == before + Rejects(claim.text, citations[..k], byId, requireVerbatim)
    {
      assert citations[..k + 1][..k] == citations[..k];
      var citation := citations[k];
      var rejection := Check(citation, byId, requireVerbatim);
      if rejection.Some? {
        rejected := rejected + [RejectedCitation(claim.text, citation, rejection.value)];
        continue;
      }
      var chunk := byId[citation.chunkId];
      var span := FindSpan(chunk.text, citation.quote);
      if span.None? {
        return false, surviving, rejected;
      }
      surviving := surviving
        + [Citation(citation.chunkId, chunk.documentId, span.value.text, Some(span.value.start), Some(span.value.end))];
    }
    assert citations[..|citations|] == citations;
    asserted := true;
  }

  /** None stands for the failed assertion. */
  method ValidateClaims(claims: seq<Claim>, retrieved: seq<Chunk>, requireVerbatim: bool) returns (r: Option<Outcome>)
    ensures r.Some? <==> ClaimsLocatable(claims, ById(retrieved), requireVerbatim)
    ensures r.Some? ==> r.value == Validated(claims, ById(retrieved), requireVerbatim)
  {
    hide Survivors, Rejects, AllLocatable, ById;
    var byId := ById(retrieved);
    var outcome := Outcome([], [], []);
    for i := 0 to |claims|
      invariant forall k :: 0 <= k < i ==> AllLocatable(claims[k].citations, byId, requireVerbatim)
      invariant outcome == Validated(claims[..i], byId, requireVerbatim)
    {
      assert claims[..i + 1][..i] == claims[..i];
      var claim := claims[i];
      var asserted, surviving, rejected := SiftCitations(claim, byId, requireVerbatim, outcome.rejected);
      if !asserted {
        return None;
      }
      outcome := outcome.(rejected := rejected);
      if surviving != [] {
        outcome := outcome.(claims := outcome.claims + [Claim(claim.text, surviving)]);
      } else {
        outcome := outcome.(unsupported := outcome.unsupported + [claim.text]);
      }
    }
    assert claims[..|claims|] == claims;
    r := Some(outcome);
  }

  // ---- conservation ---------------------------------------------------------

  /** The positions, in increasing order, at which `flags` reads `want`. */
  function Where(flags: seq<bool>, want: bool): seq<nat> {
    if flags == [] then []
    else
      var n := |flags| - 1;
      Where(flags[..n], want) + (if flags[n] == want then [n] else [])
  }

  predicate Lists(at: seq<nat>, flags: seq<bool>, want: bool) {
    && (forall k :: 0 <= k < |at| ==> at[k] < |flags| && flags[at[k]] == want)
    && (forall k, l :: 0 <= k < l < |at| ==> at[k] < at[l])
    && (forall i :: 0 <= i < |flags| && flags[i] == want ==> i in at)
  }

  lemma {:induction false} ListsStep(at: seq<nat>, flags: seq<bool>, want: bool)
    requires flags != [] && Lists(at, flags[..|flags| - 1], want)
    ensures var n := |flags| - 1; Lists(at + (if flags[n] == want then [n] else []), flags, want)
  {
  }

  lemma {:induction false} WhereStep(flags: seq<bool>, want: bool)
    requires flags != []
    ensures var n := |flags| - 1; Where(flags, want) == Where(flags[..n], want) + (if flags[n] == want then [n] else [])
  {
  }

  lemma {:induction false} WhereLists(flags: seq<bool>, want: bool)
    ensures Lists(Where(flags, want), flags, want)
    ensures |Where(flags, want)| + |Where(flags, !want)| == |flags|
  {
    if flags != [] {
      hide Where, Lists;
      var n := |flags| - 1;
      WhereLists(flags[..n], want);
      WhereStep(flags, want);
      WhereStep(flags, !want);
      ListsStep(Where(flags[..n], want), flags, want);
    }
  }

  function Passes(citations: seq<Citation>, byId: map<nat, Chunk>, verbatim: bool): (flags: seq<bool>)
  {
    seq(|citations|, i requires 0 <= i < |citations| => Check(citations[i], byId, verbatim).None?)
  }

  predicate AreResolved(out: seq<Citation>, at: seq<nat>, citations: seq<Citation>, byId: map<nat, Chunk>) {
    && |out| == |at|
    && forall k :: 0 <= k < |at| ==> at[k] < |citations| && out[k] == Resolved(citations[at[k]], byId)
  }

  predicate AreRejected(out: seq<RejectedCitation>, at: seq<nat>, text: string, citations: seq<Citation>,
                        byId: map<nat, Chunk>, verbatim: bool)
  {
    && |out| == |at|
    && forall k :: 0 <= k < |at| ==>
         && at[k] < |citations|
         && Check(citations[at[k]], byId, verbatim).Some?
         && out[k] == RejectedCitation(text, citations[at[k]], Check(citations[at[k]], byId, verbatim).value)
  }

  lemma {:induction false} ResolvedSnoc(out: seq<Citation>, at: seq<nat>, citations: seq<Citation>, byId: map<nat, Chunk>)
    requires citations != [] && AreResolved(out, at, citations[..|citations| - 1], byId)
    ensures var n := |citations| - 1;
            && AreResolved(out + [], at + [], citations, byId)
            && AreResolved(out + [Resolved(citations[n], byId)], at + [n], citations, byId)
  {
    hide Resolved;
  }

  lemma {:induction false} SiftStep(text: string, citations: seq<Citation>, byId: map<nat, Chunk>, verbatim: bool)
    requires citations != []
    ensures var n := |citations| - 1;
            var c, reason := citations[n], Check(citations[n], byId, verbatim);
            && Survivors(citations, byId, verbatim) ==
                 Survivors(citations[..n], byId, verbatim) + (if reason.None? then [Resolved(c, byId)] else [])
            && Rejects(text, citations, byId, verbatim) ==
                 Rejects(text, citations[..n], byId, verbatim)
                 + (if reason.Some? then [RejectedCitation(text, c, reason.value)] else [])
  {
    hide Check, Resolved;
  }

  lemma {:induction false} PassesStep(citations: seq<Citation>, byId: map<nat, Chunk>, verbatim: bool)
    requires citations != []
    ensures var n, flags := |citations| - 1, Passes(citations, byId, verbatim);
            && |flags| == |citations| && flags[..n] == Passes(citations[..n], byId, verbatim)
            && flags[n] == Check(citations[n], byId, verbatim).None?
  {
    hide Check;
  }

  lemma {:induction false} SurvivorsSifted(citations: seq<Citation>, byId: map<nat, Chunk>, verbatim: bool)
    ensures AreResolved(Survivors(citations, byId, verbatim), Where(Passes(citations, byId, verbatim), true), citations,
                        byId)
  {
    if citations != [] {
      hide Check, Resolved, AreResolved, Where, Passes, Survivors, Rejects;
      var n := |citations| - 1;
      SurvivorsSifted(citations[..n], byId, verbatim);
      PassesStep(citations, byId, verbatim);
      SiftStep("", citations, byId, verbatim);
      WhereStep(Passes(citations, byId, verbatim), true);
      ResolvedSnoc(Survivors(citations[..n], byId, verbatim), Where(Passes(citations[..n], byId, verbatim), true),
                   citations, byId);
    }
  }

  lemma {:induction false} RejectedSnoc(out: seq<RejectedCitation>, at: seq<nat>, text: string, citations: seq<Citation>,
                                        byId: map<nat, Chunk>, verbatim: bool)
    requires citations != [] && AreRejected(out, at, text, citations[..|citations| - 1], byId, verbatim)
    ensures AreRejected(out + [], at + [], text, citations, byId, verbatim)
    ensures var n := |citations| - 1;
            var reason := Check(citations[n], byId, verbatim);
            reason.Some? ==>
              AreRejected(out + [RejectedCitation(text, citations[n], reason.value)], at + [n], text, citations, byId,
                          verbatim)
  {
    hide Check;
  }

  lemma {:induction false} RejectsSifted(text: string, citations: seq<Citation>, byId: map<nat, Chunk>, verbatim: bool)
    ensures AreRejected(Rejects(text, citations, byId, verbatim), Where(Passes(citations, byId, verbatim), false),
                        text, citations, byId, verbatim)
  {
    if citations != [] {
      hide Check, Resolved, AreRejected, Where, Passes, Survivors, Rejects;
      var n := |citations| - 1;
      RejectsSifted(text, citations[..n], byId, verbatim);
      PassesStep(citations, byId, verbatim);
      SiftStep(text, citations, byId, verbatim);
      WhereStep(Passes(citations, byId, verbatim), false);
      RejectedSnoc(Rejects(text, citations[..n], byId, verbatim), Where(Passes(citations[..n], byId, verbatim), false),
                   text, citations, byId, verbatim);
    }
  }

  /** Every citation of a claim goes, in order, to exactly one of the two lists. */
  lemma {:induction false} CitationsSifted(text: string, citations: seq<Citation>, byId: map<nat, Chunk>, verbatim: bool)
    ensures var flags := Passes(citations, byId, verbatim);
            && AreResolved(Survivors(citations, byId, verbatim), Where(flags, true), citations, byId)
            && AreRejected(Rejects(text, citations, byId, verbatim), Where(flags, false), text, citations, byId, verbatim)
            && Lists(Where(flags, true), flags, true) && Lists(Where(flags, false), flags, false)
    ensures |Survivors(citations, byId, verbatim)| + |Rejects(text, citations, byId, verbatim)| == |citations|
  {
    hide Check, Lists, Where, Survivors, Rejects;
    WhereLists(Passes(citations, byId, verbatim), true);
    WhereLists(Passes(citations, byId, verbatim), false);
    SurvivorsSifted(citations, byId, verbatim);
    RejectsSifted(text, citations, byId, verbatim);
  }

  function CitationCount(claims: seq<Claim>): nat {
    if claims == [] then 0 else CitationCount(claims[..|claims| - 1]) + |claims[|claims| - 1].citations|
  }

  function Supported(claims: seq<Claim>, byId: map<nat, Chunk>, verbatim: bool): (flags: seq<bool>)
  {
    seq(|claims|, i requires 0 <= i < |claims| => Survivors(claims[i].citations, byId, verbatim) != [])
  }

  predicate AreKept(out: seq<Claim>, at: seq<nat>, claims: seq<Claim>, byId: map<nat, Chunk>, verbatim: bool) {
    && |out| == |at|
    && forall k :: 0 <= k < |at| ==>
         at[k] < |claims| && out[k] == Claim(claims[at[k]].text, Survivors(claims[at[k]].citations, byId, verbatim))
  }

  predicate AreTexts(out: seq<string>, at: seq<nat>, claims: seq<Claim>) {
    && |out| == |at|
    && forall k :: 0 <= k < |at| ==> at[k] < |claims| && out[k] == claims[at[k]].text
  }

  lemma {:induction false} KeptSnoc(out: seq<Claim>, at: seq<nat>, claims: seq<Claim>, byId: map<nat, Chunk>, verbatim: bool)
    requires claims != [] && AreKept(out, at, claims[..|claims| - 1], byId, verbatim)
    ensures var n := |claims| - 1;
            var kept := Claim(claims[n].text, Survivors(claims[n].citations, byId, verbatim));
            && AreKept(out + [], at + [], claims, byId, verbatim)
            && AreKept(out + [kept], at + [n], claims, byId, verbatim)
  {
    hide Survivors;
  }

  lemma {:induction false} TextsSnoc(out: seq<string>, at: seq<nat>, claims: seq<Claim>)
    requires claims != [] && AreTexts(out, at, claims[..|claims| - 1])
    ensures var n := |claims| - 1;
            AreTexts(out + [], at + [], claims) && AreTexts(out + [claims[n].text], at + [n], claims)
  {
  }

  lemma {:induction false} SupportedStep(claims: seq<Claim>, byId: map<nat, Chunk>, verbatim: bool)
    requires claims != []
    ensures var n, flags := |claims| - 1, Supported(claims, byId, verbatim);
            && |flags| == |claims| && flags[..n] == Supported(claims[..n], byId, verbatim)
            && flags[n] == (Survivors(claims[n].citations, byId, verbatim) != [])
  {
    hide Survivors;
  }

  lemma {:induction false} KeptStep(claims: seq<Claim>, byId: map<nat, Chunk>, verbatim: bool)
    requires claims != []
    ensures var n := |claims| - 1;
            var surviving := Survivors(claims[n].citations, byId, verbatim);
            KeptClaims(claims, byId, verbatim) ==
              KeptClaims(claims[..n], byId, verbatim) + (if surviving != [] then [Claim(claims[n].text, surviving)] else [])
  {
    hide Survivors;
  }

  lemma {:induction false} UnsupportedStep(claims: seq<Claim>, byId: map<nat, Chunk>, verbatim: bool)
    requires claims != []
    ensures var n := |claims| - 1;
            Unsupported(claims, byId, verbatim) ==
              Unsupported(claims[..n], byId, verbatim)
              + (if Survivors(claims[n].citations, byId, verbatim) == [] then [claims[n].text] else [])
  {
    hide Survivors;
  }

  lemma {:induction false} KeptSplit(claims: seq<Claim>, byId: map<nat, Chunk>, verbatim: bool)
    ensures AreKept(KeptClaims(claims, byId, verbatim), Where(Supported(claims, byId, verbatim), true), claims, byId,
                    verbatim)
  {
    if claims != [] {
      hide Survivors, AreKept, Where, Supported, KeptClaims;
      var n := |claims| - 1;
      KeptSplit(claims[..n], byId, verbatim);
      SupportedStep(claims, byId, verbatim);
      KeptStep(claims, byId, verbatim);
      WhereStep(Supported(claims, byId, verbatim), true);
      var flags := Supported(claims[..n], byId, verbatim);
      KeptSnoc(KeptClaims(claims[..n], byId, verbatim), Where(flags, true), claims, byId, verbatim);
    }
  }

  lemma {:induction false} TextsSplit(claims: seq<Claim>, byId: map<nat, Chunk>, verbatim: bool)
    ensures AreTexts(Unsupported(claims, byId, verbatim), Where(Supported(claims, byId, verbatim), false), claims)
  {
    if claims != [] {
      hide Survivors, AreTexts, Where, Supported, Unsupported;
      var n := |claims| - 1;
      TextsSplit(claims[..n], byId, verbatim);
      SupportedStep(claims, byId, verbatim);
      UnsupportedStep(claims, byId, verbatim);
      WhereStep(Supported(claims, byId, verbatim), false);
      var flags := Supported(claims[..n], byId, verbatim);
      TextsSnoc(Unsupported(claims[..n], byId, verbatim), Where(flags, false), claims);
    }
  }

  /** Every claim goes, in order, to exactly one of kept and unsupported. */
  lemma {:induction false} ClaimsSplit(claims: seq<Claim>, byId: map<nat, Chunk>, verbatim: bool)
    ensures var flags := Supported(claims, byId, verbatim);
            && AreKept(KeptClaims(claims, byId, verbatim), Where(flags, true), claims, byId, verbatim)
            && AreTexts(Unsupported(claims, byId, verbatim), Where(flags, false), claims)
            && Lists(Where(flags, true), flags, true) && Lists(Where(flags, false), flags, false)
    ensures |KeptClaims(claims, byId, verbatim)| + |Unsupported(claims, byId, verbatim)| == |claims|
  {
    hide Survivors, Lists, Where, KeptClaims, Unsupported;
    WhereLists(Supported(claims, byId, verbatim), true);
    WhereLists(Supported(claims, byId, verbatim), false);
    KeptSplit(claims, byId, verbatim);
    TextsSplit(claims, byId, verbatim);
  }

  /** Surviving and rejected citations together are all the citations. */
  lemma {:induction false} CitationsConserved(claims: seq<Claim>, byId: map<nat, Chunk>, verbatim: bool)
    ensures CitationCount(KeptClaims(claims, byId, verbatim)) + |AllRejects(claims, byId, verbatim)| == CitationCount(claims)
  {
    hide Survivors, Rejects;
    if claims != [] {
      var n := |claims| - 1;
      CitationsConserved(claims[..n], byId, verbatim);
      SiftedCount(claims[n].text, claims[n].citations, byId, verbatim);
      var kept, surviving := KeptClaims(claims[..n], byId, verbatim), Survivors(claims[n].citations, byId, verbatim);
      assert CitationCount(kept + [Claim(claims[n].text, surviving)]) == CitationCount(kept) + |surviving|;
      assert kept + [] == kept;
    }
  }

  lemma {:induction false} SiftedCount(text: string, citations: seq<Citation>, byId: map<nat, Chunk>, verbatim: bool)
    ensures |Survivors(citations, byId, verbatim)| + |Rejects(text, citations, byId, verbatim)| == |citations|
  {
    hide *;
    CitationsSifted(text, citations, byId, verbatim);
  }

  // ---- when the outcome is clean --------------------------------------------

  lemma {:induction false} NoRejectsIff(text: string, citations: seq<Citation>, byId: map<nat, Chunk>, verbatim: bool)
    ensures Rejects(text, citations, byId, verbatim) == [] <==>
              forall k :: 0 <= k < |citations| ==> Check(citations[k], byId, verbatim).None?
    ensures Rejects(text, citations, byId, verbatim) == [] ==> |Survivors(citations, byId, verbatim)| == |citations|
  {
    hide Check, Resolved;
    if citations != [] {
      var n := |citations| - 1;
      NoRejectsIff(text, citations[..n], byId, verbatim);
      assert forall k :: 0 <= k < n ==> citations[..n][k] == citations[k];
    }
  }

  predicate AllPass(claim: Claim, byId: map<nat, Chunk>, verbatim: bool) {
    forall k :: 0 <= k < |claim.citations| ==> Check(claim.citations[k], byId, verbatim).None?
  }

  lemma {:induction false} NoneRejectedIff(claims: seq<Claim>, byId: map<nat, Chunk>, verbatim: bool)
    ensures AllRejects(claims, byId, verbatim) == [] <==>
              forall i :: 0 <= i < |claims| ==> AllPass(claims[i], byId, verbatim)
  {
    hide Check, Rejects;
    if claims != [] {
      var n := |claims| - 1;
      NoneRejectedIff(claims[..n], byId, verbatim);
      NoRejectsIff(claims[n].text, claims[n].citations, byId, verbatim);
      assert forall i :: 0 <= i < n ==> claims[..n][i] == claims[i];
    }
  }

  lemma {:induction false} AllKept(claims: seq<Claim>, byId: map<nat, Chunk>, verbatim: bool)
    requires Cited(claims) && AllRejects(claims, byId, verbatim) == []
    ensures |KeptClaims(claims, byId, verbatim)| == |claims| && Unsupported(claims, byId, verbatim) == []
  {
    hide Check, Rejects, Survivors;
    if claims != [] {
      var n := |claims| - 1;
      AllKept(claims[..n], byId, verbatim);
      NoRejectsIff(claims[n].text, claims[n].citations, byId, verbatim);
    }
  }

  ghost predicate EverySound(claims: seq<Claim>, byId: map<nat, Chunk>) {
    forall i, k :: 0 <= i < |claims| && 0 <= k < |claims[i].citations| ==> Sound(claims[i].citations[k], byId)
  }

  /** An outcome is clean exactly when there are claims and every citation is sound. */
  lemma {:induction false} OkIff(claims: seq<Claim>, byId: map<nat, Chunk>)
    requires Cited(claims)
    ensures Validated(claims, byId, true).Ok() <==> claims != [] && EverySound(claims, byId)
  {
    hide Check, Sound, KeptClaims, Unsupported, AllRejects;
    NoneRejectedIff(claims, byId, true);
    forall i, k | 0 <= i < |claims| && 0 <= k < |claims[i].citations|
      ensures Sound(claims[i].citations[k], byId) <==> Check(claims[i].citations[k], byId, true).None?
    {
      CheckIsSound(claims[i].citations[k], byId);
    }
    if AllRejects(claims, byId, true) == [] { AllKept(claims, byId, true); }
  }

  // ---- what is kept ---------------------------------------------------------

  /** A kept citation: the exact text of a groundable chunk, at its true offsets. */
  predicate Grounded(c: Citation, byId: map<nat, Chunk>) {
    && c.chunkId in byId && byId[c.chunkId].eligibility == Groundable
    && c.documentId == byId[c.chunkId].documentId
    && c.start.Some? && c.end.Some? && c.start.value < c.end.value <= |byId[c.chunkId].text|
    && c.quote == byId[c.chunkId].text[c.start.value..c.end.value]
    && InkBounded(c.quote)
  }

  /** Reading the whitespace alike, the kept quote says what the given one said. */
  predicate SameWords(given: Citation, kept: Citation) {
    given.chunkId == kept.chunkId && Needle(kept.quote) == Needle(given.quote)
  }

  lemma {:induction false} ResolvedIsGrounded(c: Citation, byId: map<nat, Chunk>)
    requires Check(c, byId, true).None?
    ensures Grounded(Resolved(c, byId), byId) && SameWords(c, Resolved(c, byId))
  {
    hide Strip, SpanOf, Needle, Collapse, IsSpace;
    var text := byId[c.chunkId].text;
    VerbatimLocatable(c, byId);
    SpanIsLeftmostOccurrence(text, c.quote);
    NeedleOfBounded(Resolved(c, byId).quote);
  }

  lemma {:induction false} NeedleOfBounded(quote: string)
    requires InkBounded(quote)
    ensures Needle(quote) == Collapse(quote) && Strip(quote) == quote
  {
    hide Collapse, Strip, IsSpace;
    NeedleOfPadded("", quote, "");
    StripUnique("", quote, "");
    assert "" + quote + "" == quote;
  }

  predicate Evidence(claim: Claim, byId: map<nat, Chunk>) {
    claim.citations != [] && forall k :: 0 <= k < |claim.citations| ==> Grounded(claim.citations[k], byId)
  }

  lemma {:induction false} SurvivorsGrounded(citations: seq<Citation>, byId: map<nat, Chunk>)
    ensures forall k :: 0 <= k < |Survivors(citations, byId, true)| ==> Grounded(Survivors(citations, byId, true)[k], byId)
  {
    hide Check, Grounded, Resolved;
    if citations != [] {
      var n := |citations| - 1;
      SurvivorsGrounded(citations[..n], byId);
      if Check(citations[n], byId, true).None? { ResolvedIsGrounded(citations[n], byId); }
    }
  }

  /** No claim is kept without evidence, and all of it is groundable text, verbatim. */
  lemma {:induction false} KeptHasEvidence(claims: seq<Claim>, byId: map<nat, Chunk>)
    ensures forall i :: 0 <= i < |KeptClaims(claims, byId, true)| ==> Evidence(KeptClaims(claims, byId, true)[i], byId)
  {
    hide Survivors, Grounded;
    if claims != [] {
      var n := |claims| - 1;
      KeptHasEvidence(claims[..n], byId);
      SurvivorsGrounded(claims[n].citations, byId);
    }
  }

  // ---- validating twice -----------------------------------------------------

  /** A citation that validation would leave as it is, were it not too short. */
  predicate Settled(c: Citation, byId: map<nat, Chunk>) {
    && Resolved(c, byId) == c
    && (Check(c, byId, true).None? <==> |c.quote| >= MIN_QUOTE_CHARS)
  }

  lemma {:induction false} ResolvedIsSettled(c: Citation, byId: map<nat, Chunk>)
    requires Check(c, byId, true).None?
    ensures Settled(Resolved(c, byId), byId)
  {
    hide Strip, SpanOf, Needle, Collapse, IsSpace;
    ResolvedIsGrounded(c, byId);
    var again := Resolved(c, byId);
    VerbatimLocatable(c, byId);
    NeedleOfBounded(again.quote);
    SpanByNeedle(byId[c.chunkId].text, c.quote, again.quote);
  }

  predicate AllSettled(citations: seq<Citation>, byId: map<nat, Chunk>) {
    forall k :: 0 <= k < |citations| ==> Settled(citations[k], byId)
  }

  lemma {:induction false} SurvivorsSettled(citations: seq<Citation>, byId: map<nat, Chunk>)
    ensures AllSettled(Survivors(citations, byId, true), byId)
  {
    hide Check, Settled, Resolved;
    if citations != [] {
      var n := |citations| - 1;
      SurvivorsSettled(citations[..n], byId);
      if Check(citations[n], byId, true).None? { ResolvedIsSettled(citations[n], byId); }
    }
  }

  predicate ClaimsSettled(claims: seq<Claim>, byId: map<nat, Chunk>) {
    forall i :: 0 <= i < |claims| ==> claims[i].citations != [] && AllSettled(claims[i].citations, byId)
  }

  lemma {:induction false} KeptSettled(claims: seq<Claim>, byId: map<nat, Chunk>)
    ensures ClaimsSettled(KeptClaims(claims, byId, true), byId)
  {
    hide Survivors, AllSettled;
    if claims != [] {
      var n := |claims| - 1;
      KeptSettled(claims[..n], byId);
      SurvivorsSettled(claims[n].citations, byId);
    }
  }

  predicate LongQuotes(citations: seq<Citation>) {
    forall k :: 0 <= k < |citations| ==> |citations[k].quote| >= MIN_QUOTE_CHARS
  }

  lemma {:induction false} AllSettledFront(citations: seq<Citation>, byId: map<nat, Chunk>)
    requires AllSettled(citations, byId) && citations != []
    ensures var n := |citations| - 1;
            && AllSettled(citations[..n], byId) && Resolved(citations[n], byId) == citations[n]
            && (Check(citations[n], byId, true).None? <==> |citations[n].quote| >= MIN_QUOTE_CHARS)
  {
    hide Check, Resolved;
    assert Settled(citations[|citations| - 1], byId);
  }

  lemma {:induction false} LongQuotesSnoc(citations: seq<Citation>, c: Citation)
    ensures LongQuotes(citations + [c]) <==> LongQuotes(citations) && |c.quote| >= MIN_QUOTE_CHARS
  {
    assert (citations + [c])[|citations|] == c;
    assert forall k :: 0 <= k < |citations| ==> (citations + [c])[k] == citations[k];
  }

  lemma {:induction false} SettledSurvive(text: string, citations: seq<Citation>, byId: map<nat, Chunk>)
    requires AllSettled(citations, byId)
    ensures Rejects(text, citations, byId, true) == [] <==> LongQuotes(citations)
    ensures LongQuotes(citations) ==> Survivors(citations, byId, true) == citations
  {
    hide Check, Resolved, Settled;
    if citations != [] {
      hide LongQuotes, AllSettled, Survivors, Rejects;
      var n := |citations| - 1;
      AllSettledFront(citations, byId);
      SettledSurvive(text, citations[..n], byId);
      SiftStep(text, citations, byId, true);
      LongQuotesSnoc(citations[..n], citations[n]);
      assert citations[..n] + [citations[n]] == citations;
    }
  }

  predicate AllLong(claims: seq<Claim>) {
    forall i :: 0 <= i < |claims| ==> LongQuotes(claims[i].citations)
  }

  lemma {:induction false} SettledStay(claims: seq<Claim>, byId: map<nat, Chunk>)
    requires ClaimsSettled(claims, byId)
    ensures AllRejects(claims, byId, true) == [] <==> AllLong(claims)
    ensures AllLong(claims) ==> KeptClaims(claims, byId, true) == claims && Unsupported(claims, byId, true) == []
  {
    hide Survivors, Rejects, AllSettled, LongQuotes;
    if claims != [] {
      var n := |claims| - 1;
      SettledStay(claims[..n], byId);
      SettledSurvive(claims[n].text, claims[n].citations, byId);
      assert claims[..n] + [claims[n]] == claims;
    }
  }

  /** Validating the kept claims again changes nothing, offsets included, exactly when
      every kept quote is itself long enough. */
  lemma {:induction false} RevalidationIsFixpointIff(claims: seq<Claim>, byId: map<nat, Chunk>)
    ensures var kept := KeptClaims(claims, byId, true);
            Validated(kept, byId, true) == Outcome(kept, [], []) <==> AllLong(kept)
  {
    hide KeptClaims, AllLong, ClaimsSettled, AllRejects, Unsupported;
    KeptSettled(claims, byId);
    SettledStay(KeptClaims(claims, byId, true), byId);
  }

  /** Quotes that are long once their whitespace is collapsed always are. */
  lemma {:induction false} CollapsedLongEnough(c: Citation, byId: map<nat, Chunk>)
    requires Check(c, byId, true).None? && |Needle(c.quote)| >= MIN_QUOTE_CHARS
    ensures |Resolved(c, byId).quote| >= MIN_QUOTE_CHARS
  {
    hide Check, Needle, Collapse, Offsets, Grounded;
    ResolvedIsGrounded(c, byId);
    GroundedNeedle(Resolved(c, byId), byId);
    OffsetsMap(Resolved(c, byId).quote);
  }

  lemma {:induction false} GroundedNeedle(c: Citation, byId: map<nat, Chunk>)
    requires Grounded(c, byId)
    ensures Needle(c.quote) == Collapse(c.quote)
  {
    NeedleOfBounded(c.quote);
  }

  predicate LongWhenCollapsed(citations: seq<Citation>, byId: map<nat, Chunk>) {
    forall k :: 0 <= k < |citations| && Check(citations[k], byId, true).None? ==>
      |Needle(citations[k].quote)| >= MIN_QUOTE_CHARS
  }

  lemma {:induction false} SurvivorsLong(citations: seq<Citation>, byId: map<nat, Chunk>)
    requires LongWhenCollapsed(citations, byId)
    ensures LongQuotes(Survivors(citations, byId, true))
  {
    hide Check, Needle, Resolved;
    if citations != [] {
      var n := |citations| - 1;
      SurvivorsLong(citations[..n], byId);
      if Check(citations[n], byId, true).None? { CollapsedLongEnough(citations[n], byId); }
    }
  }

  /** The condition a caller can see on what it passes in. */
  lemma {:induction false} KeptLong(claims: seq<Claim>, byId: map<nat, Chunk>)
    requires forall i :: 0 <= i < |claims| ==> LongWhenCollapsed(claims[i].citations, byId)
    ensures AllLong(KeptClaims(claims, byId, true))
  {
    hide Survivors, LongWhenCollapsed, LongQuotes;
    if claims != [] {
      var n := |claims| - 1;
      KeptLong(claims[..n], byId);
      SurvivorsLong(claims[n].citations, byId);
    }
  }

  lemma {:induction false} CollapseRun(s: string)
    requires s != "" && AllSpace(s)
    ensures Collapse(s) == " "
  {
    hide IsSpace;
    var n := |s| - 1;
    if n == 0 {
      CollapseEmpty();
    } else {
      CollapseRun(s[..n]);
      assert IsSpace(s[n]) && IsSpace(s[n - 1]);
    }
  }

  lemma {:induction false} CollapseWords(a: string, gap: string, b: string)
    requires InkBounded(a) && InkBounded(b) && gap != "" && AllSpace(gap)
    ensures Collapse(a + gap + b) == Collapse(a) + " " + Collapse(b)
  {
    hide Collapse, Offsets, IsSpace;
    CollapseRun(gap);
    CollapseConcat(a, gap);
    CollapseConcat(a + gap, b);
  }

  /** A quote of two words and a wide gap passes; what is kept of it does not. */
  lemma {:induction false} WideGapIsNotFixpoint()
    ensures var c := Citation(1, 0, "no       fee", None, None);
            var claims, byId := [Claim("There is no fee.", [c])], ById([Chunk(1, 7, "no fee", Groundable)]);
            var kept := KeptClaims(claims, byId, true);
            && Validated(claims, byId, true).Ok()
            && Validated(kept, byId, true) != Outcome(kept, [], [])
  {
    var c := Citation(1, 0, "no       fee", None, None);
    var claims, byId := [Claim("There is no fee.", [c])], ById([Chunk(1, 7, "no fee", Groundable)]);
    hide ById, KeptClaims, AllRejects, Unsupported, Check, Sound, AllLong, Resolved;
    WideGapPasses(c, byId);
    OkIff(claims, byId);
    KeptOne(claims[0], byId);
    RevalidationIsFixpointIff(claims, byId);
    ShortIsNotLong(claims[0].text, Resolved(c, byId));
  }

  lemma {:induction false} ShortIsNotLong(text: string, c: Citation)
    requires |c.quote| < MIN_QUOTE_CHARS
    ensures !AllLong([Claim(text, [c])])
  {
    assert !LongQuotes([Claim(text, [c])][0].citations) by { assert [c][0] == c; }
  }

  lemma {:induction false} WideGapPasses(c: Citation, byId: map<nat, Chunk>)
    requires c == Citation(1, 0, "no       fee", None, None) && byId == ById([Chunk(1, 7, "no fee", Groundable)])
    ensures Sound(c, byId) && Check(c, byId, true).None? && |Resolved(c, byId).quote| < MIN_QUOTE_CHARS
  {
    var chunk := Chunk(1, 7, "no fee", Groundable);
    assert byId == map[1 := chunk] by { assert ById([chunk]) == map[chunk.id := chunk]; }
    hide ById, Check, Needle, Collapse, Resolved, Occurrence;
    GapOccurs();
    GapQuoteIsLong();
    assert |"no       fee"| == MIN_QUOTE_CHARS && |"no fee"| < MIN_QUOTE_CHARS;
    hide Strip;
    CheckIsSound(c, byId);
    ShortChunk(c, byId);
  }

  lemma {:induction false} ShortChunk(c: Citation, byId: map<nat, Chunk>)
    requires Check(c, byId, true).None? && |byId[c.chunkId].text| < MIN_QUOTE_CHARS
    ensures |Resolved(c, byId).quote| < MIN_QUOTE_CHARS
  {
    hide Check, SameWords, InkBounded;
    ResolvedIsGrounded(c, byId);
    assert Resolved(c, byId).chunkId == c.chunkId;
  }

  lemma {:induction false} KeptOne(claim: Claim, byId: map<nat, Chunk>)
    requires |claim.citations| == 1 && Check(claim.citations[0], byId, true).None?
    ensures KeptClaims([claim], byId, true) == [Claim(claim.text, [Resolved(claim.citations[0], byId)])]
  {
    hide Check, Resolved;
    assert [claim][..0] == [];
    assert claim.citations[..0] == [];
    assert Survivors(claim.citations, byId, true) == [Resolved(claim.citations[0], byId)];
  }

  lemma {:induction false} GapQuoteIsLong()
    ensures Strip("no       fee") == "no       fee"
  {
    hide Strip, Collapse;
    NeedleOfBounded("no       fee");
  }

  lemma {:induction false} GapOccurs()
    ensures Occurrence("no fee", "no       fee", 0, 6)
  {
    hide Collapse, Needle, Strip;
    CollapseWords("no", "       ", "fee");
    CollapseWords("no", " ", "fee");
    assert "no" + "       " + "fee" == "no       fee" && "no" + " " + "fee" == "no fee";
    NeedleOfBounded("no       fee");
    assert "no fee"[0..6] == "no fee";
  }
}
