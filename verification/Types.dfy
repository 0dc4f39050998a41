/** The entities shared by retrieval, validation and the run loop (agentcore/types.py). */
module Types {
  import opened Text

  /** What a source is allowed to do, however well it matches. */
  datatype Eligibility = Groundable | ConflictOnly | ContextOnly

  datatype Chunk = Chunk(id: nat, documentId: nat, text: string, eligibility: Eligibility)

  /** A reference to a span of a chunk; the offsets are filled in by validation. */
  datatype Citation = Citation(chunkId: nat, documentId: nat, quote: string, start: Option<nat>, end: Option<nat>)

  datatype Claim = Claim(text: string, citations: seq<Citation>)

  /** A claim cannot be constructed without a citation. */
  predicate Cited(claims: seq<Claim>) {
    forall i :: 0 <= i < |claims| ==> claims[i].citations != []
  }
}
