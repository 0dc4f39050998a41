/** The evidence channels of a run (agentcore/retrieval/hybrid.py, lines 353-389). */
module Channels {
  import opened Text
  import opened Types

  datatype Hit = Hit(chunk: Chunk, score: real)

  predicate DistinctIds(hits: seq<Hit>) {
    forall i, j :: 0 <= i < j < |hits| ==> hits[i].chunk.id != hits[j].chunk.id
  }

  predicate HasId(hits: seq<Hit>, id: nat) {
    exists h :: h in hits && h.chunk.id == id
  }

  // ---- the host language's stable sort --------------------------------------

  datatype Order = ByScore | ByScoreThenId

  predicate Le(o: Order, a: Hit, b: Hit) {
    match o
    case ByScore => a.score >= b.score
    case ByScoreThenId => a.score > b.score || (a.score == b.score && a.chunk.id <= b.chunk.id)
  }

  predicate Sorted(o: Order, hits: seq<Hit>) {
    forall i, j :: 0 <= i < j < |hits| ==> Le(o, hits[i], hits[j])
  }

  function Insert(o: Order, hits: seq<Hit>, h: Hit): seq<Hit> {
    if hits == [] then [h]
    else
      var n := |hits| - 1;
      if Le(o, hits[n], h) then hits + [h] else Insert(o, hits[..n], h) + [hits[n]]
  }

  function Sort(o: Order, hits: seq<Hit>): seq<Hit> {
    if hits == [] then []
    else Insert(o, Sort(o, hits[..|hits| - 1]), hits[|hits| - 1])
  }

  lemma {:induction false} InsertHolds(o: Order, hits: seq<Hit>, h: Hit)
    ensures multiset(Insert(o, hits, h)) == multiset(hits) + multiset{h}
  {
    if hits != [] {
      var n := |hits| - 1;
      assert hits[..n] + [hits[n]] == hits;
      if !Le(o, hits[n], h) { InsertHolds(o, hits[..n], h); }
    }
  }

  lemma {:induction false} InsertMember(o: Order, hits: seq<Hit>, h: Hit, x: Hit)
    ensures x in Insert(o, hits, h) <==> x in hits || x == h
  {
    hide Insert;
    InsertHolds(o, hits, h);
    assert x in Insert(o, hits, h) <==> x in multiset(Insert(o, hits, h));
  }

  lemma {:induction false} InsertSorted(o: Order, hits: seq<Hit>, h: Hit)
    requires Sorted(o, hits)
    ensures Sorted(o, Insert(o, hits, h))
  {
    if hits != [] {
      var n := |hits| - 1;
      if !Le(o, hits[n], h) {
        InsertSorted(o, hits[..n], h);
        var front := Insert(o, hits[..n], h);
        forall i | 0 <= i < |front| ensures Le(o, front[i], hits[n]) {
          InsertMember(o, hits[..n], h, front[i]);
        }
      }
    }
  }

  lemma {:induction false} InsertDistinct(o: Order, hits: seq<Hit>, h: Hit)
    requires DistinctIds(hits) && !HasId(hits, h.chunk.id)
    ensures DistinctIds(Insert(o, hits, h))
  {
    if hits != [] {
      var n := |hits| - 1;
      if Le(o, hits[n], h) {
        assert DistinctIds(hits + [h]);
      } else {
        assert hits[n] in hits;
        assert !HasId(hits[..n], h.chunk.id);
        InsertDistinct(o, hits[..n], h);
        var front := Insert(o, hits[..n], h);
        forall x | x in front ensures x.chunk.id != hits[n].chunk.id {
          InsertMember(o, hits[..n], h, x);
        }
        assert DistinctIds(front + [hits[n]]);
      }
    }
  }

  lemma {:induction false} SortHolds(o: Order, hits: seq<Hit>)
    ensures Sorted(o, Sort(o, hits)) && multiset(Sort(o, hits)) == multiset(hits)
    ensures DistinctIds(hits) ==> DistinctIds(Sort(o, hits))
  {
    if hits != [] {
      var n := |hits| - 1;
      assert DistinctIds(hits) ==> DistinctIds(hits[..n]);
      hide Insert, Sorted, DistinctIds, HasId;
      var front := Sort(o, hits[..n]);
      SortHolds(o, hits[..n]);
      InsertSorted(o, front, hits[n]);
      InsertHolds(o, front, hits[n]);
      assert hits[..n] + [hits[n]] == hits;
      if DistinctIds(hits) {
        NewId(hits, front);
        InsertDistinct(o, front, hits[n]);
      }
    }
  }

  lemma {:induction false} NewId(hits: seq<Hit>, front: seq<Hit>)
    requires hits != [] && DistinctIds(hits) && multiset(front) == multiset(hits[..|hits| - 1])
    ensures !HasId(front, hits[|hits| - 1].chunk.id)
  {
    var n := |hits| - 1;
    forall h | h in front ensures h.chunk.id != hits[n].chunk.id {
      assert h in front <==> h in multiset(front);
      assert h in hits[..n] <==> h in multiset(hits[..n]);
    }
  }

  lemma {:induction false} SortMember(o: Order, hits: seq<Hit>, x: Hit)
    ensures x in Sort(o, hits) <==> x in hits
  {
    hide Sort;
    SortHolds(o, hits);
    assert x in hits <==> x in multiset(hits);
    assert x in Sort(o, hits) <==> x in multiset(Sort(o, hits));
  }

  // ---- one search -----------------------------------------------------------

  datatype Result = Result(groundable: seq<Hit>, conflict: seq<Hit>, context: seq<Hit>, candidates: seq<Hit>) {
    function Of(e: Eligibility): seq<Hit> {
      match e
      case Groundable => groundable
      case ConflictOnly => conflict
      case ContextOnly => context
    }
  }

  function Only(hits: seq<Hit>, e: Eligibility): seq<Hit> {
    if hits == [] then []
    else
      var n := |hits| - 1;
      Only(hits[..n], e) + (if hits[n].chunk.eligibility == e then [hits[n]] else [])
  }

  /** The sort and the gate of one search. */
  function Gate(found: seq<Hit>, finalK: nat): Result {
    var candidates := Sort(ByScoreThenId, found);
    Result(First(Only(candidates, Groundable), finalK), First(Only(candidates, ConflictOnly), 2),
           First(Only(candidates, ContextOnly), 2), candidates)
  }

  lemma {:induction false} OnlyMember(hits: seq<Hit>, e: Eligibility, x: Hit)
    ensures x in Only(hits, e) <==> x in hits && x.chunk.eligibility == e
  {
    if hits != [] {
      OnlyMember(hits[..|hits| - 1], e, x);
      assert hits[..|hits| - 1] + [hits[|hits| - 1]] == hits;
    }
  }

  lemma {:induction false} OnlySorted(o: Order, hits: seq<Hit>, e: Eligibility)
    requires Sorted(o, hits)
    ensures Sorted(o, Only(hits, e))
  {
    if hits != [] {
      var n := |hits| - 1;
      OnlySorted(o, hits[..n], e);
      var front := Only(hits[..n], e);
      forall i | 0 <= i < |front| ensures Le(o, front[i], hits[n]) {
        OnlyMember(hits[..n], e, front[i]);
      }
    }
  }

  function Bound(e: Eligibility, finalK: nat): nat {
    if e == Groundable then finalK else 2
  }

  /** Each channel selects its best candidates, up to its bound: everything selected is of
      the channel's eligibility, and what is left out is outranked by all of a full
      selection, whatever else was found. */
  lemma {:induction false} BestOfChannel(found: seq<Hit>, finalK: nat, e: Eligibility, x: Hit)
    ensures var selected := Gate(found, finalK).Of(e);
            && Sorted(ByScoreThenId, selected) && |selected| <= Bound(e, finalK)
            && (x in selected ==> x in found && x.chunk.eligibility == e)
            && (x in found && x.chunk.eligibility == e && x !in selected ==>
                  |selected| == Bound(e, finalK) && forall s :: s in selected ==> Le(ByScoreThenId, s, x))
  {
    var sorted := Sort(ByScoreThenId, found);
    var all, n := Only(sorted, e), Bound(e, finalK);
    assert Gate(found, finalK).Of(e) == First(all, n);
    hide Sort, Only, Gate, Bound;
    SortHolds(ByScoreThenId, found);
    OnlySorted(ByScoreThenId, sorted, e);
    OnlyMember(sorted, e, x);
    SortMember(ByScoreThenId, found, x);
    assert x in First(all, n) ==> x in all;
    assert x in all && x !in First(all, n) ==>
             |First(all, n)| == n && forall s :: s in First(all, n) ==> Le(ByScoreThenId, s, x);
  }

  /** So a search selects the best `finalK` groundable candidates. */
  lemma {:induction false} BestGroundable(found: seq<Hit>, finalK: nat, x: Hit)
    ensures var selected := Gate(found, finalK).groundable;
            && Sorted(ByScoreThenId, selected) && |selected| <= finalK
            && (x in selected ==> x in found && x.chunk.eligibility == Groundable)
            && (x in found && x.chunk.eligibility == Groundable && x !in selected ==>
                  |selected| == finalK && forall s :: s in selected ==> Le(ByScoreThenId, s, x))
  {
    hide Gate, Sorted;
    BestOfChannel(found, finalK, Groundable, x);
  }

  /** All that was found stays a candidate, in order. */
  lemma {:induction false} CandidatesAreFound(found: seq<Hit>, finalK: nat)
    ensures Sorted(ByScoreThenId, Gate(found, finalK).candidates)
    ensures multiset(Gate(found, finalK).candidates) == multiset(found)
  {
    hide Sort, Only, Sorted;
    SortHolds(ByScoreThenId, found);
  }

  lemma {:induction false} GateEligible(found: seq<Hit>, finalK: nat, e: Eligibility, x: Hit)
    ensures x in Gate(found, finalK).Of(e) ==> x in found && x.chunk.eligibility == e
    ensures |Gate(found, finalK).Of(e)| <= if e == Groundable then finalK else 2
  {
    var sorted := Sort(ByScoreThenId, found);
    hide Sort, Only;
    OnlyMember(sorted, e, x);
    SortMember(ByScoreThenId, found, x);
    SortHolds(ByScoreThenId, found);
  }

  lemma {:induction false} OneOrder(a: seq<Hit>, b: seq<Hit>)
    requires Sorted(ByScoreThenId, a) && Sorted(ByScoreThenId, b) && multiset(a) == multiset(b) && DistinctIds(a)
    ensures a == b
  {
    hide Sorted, DistinctIds, Le;
    assert |a| == |multiset(a)| == |multiset(b)| == |b|;
    if a != [] {
      var n := |a| - 1;
      LastIsLast(a, b);
      LastIsLast(b, a);
      SameLast(a, b);
      SameFront(a, b);
      FrontOf(a);
      FrontOf(b);
      OneOrder(a[..n], b[..n]);
      assert a == a[..n] + [a[n]] && b == b[..n] + [b[n]];
    }
  }

  lemma {:induction false} SameFront(a: seq<Hit>, b: seq<Hit>)
    requires a != [] && b != [] && multiset(a) == multiset(b) && a[|a| - 1] == b[|b| - 1]
    ensures multiset(a[..|a| - 1]) == multiset(b[..|b| - 1])
  {
    var x := a[|a| - 1];
    assert a == a[..|a| - 1] + [x] && b == b[..|b| - 1] + [x];
    assert multiset(a) == multiset(a[..|a| - 1]) + multiset{x};
    assert multiset(b) == multiset(b[..|b| - 1]) + multiset{x};
    assert multiset(a[..|a| - 1]) == multiset(a) - multiset{x};
  }

  lemma {:induction false} FrontOf(a: seq<Hit>)
    requires a != []
    ensures Sorted(ByScoreThenId, a) ==> Sorted(ByScoreThenId, a[..|a| - 1])
    ensures DistinctIds(a) ==> DistinctIds(a[..|a| - 1])
  {
    hide Le;
  }

  lemma {:induction false} SameLast(a: seq<Hit>, b: seq<Hit>)
    requires a != [] && |a| == |b| && multiset(a) == multiset(b) && DistinctIds(a)
    requires Le(ByScoreThenId, a[|a| - 1], b[|b| - 1]) && Le(ByScoreThenId, b[|b| - 1], a[|a| - 1])
    ensures a[|a| - 1] == b[|b| - 1]
  {
    var y := b[|b| - 1];
    assert y in multiset(a);
    var j :| 0 <= j < |a| && a[j] == y;
  }

  lemma {:induction false} LastIsLast(a: seq<Hit>, b: seq<Hit>)
    requires Sorted(ByScoreThenId, a) && multiset(a) == multiset(b) && a != [] && |a| == |b|
    ensures Le(ByScoreThenId, b[|b| - 1], a[|a| - 1])
  {
    var y := b[|b| - 1];
    assert y in multiset(a);
    var j :| 0 <= j < |a| && a[j] == y;
  }

  /** Which order the rows were found in makes no difference: ties go by identifier. */
  lemma {:induction false} GateIgnoresOrder(found: seq<Hit>, again: seq<Hit>, finalK: nat)
    requires multiset(found) == multiset(again) && DistinctIds(found)
    ensures Gate(found, finalK) == Gate(again, finalK)
  {
    hide Sort, Only, Sorted, DistinctIds;
    SortHolds(ByScoreThenId, found);
    SortHolds(ByScoreThenId, again);
    OneOrder(Sort(ByScoreThenId, found), Sort(ByScoreThenId, again));
  }

  // ---- merging searches -----------------------------------------------------
  // (agentcore/orchestrator/engine.py, lines 1388-1485)

  function IndexOf(hits: seq<Hit>, id: nat): (r: Option<nat>)
    ensures r.Some? ==> r.value < |hits| && hits[r.value].chunk.id == id
    ensures r.None? <==> !HasId(hits, id)
  {
    if hits == [] then None
    else
      var n := |hits| - 1;
      if hits[n].chunk.id == id then
        assert hits[n] in hits; Some(n)
      else
        assert hits == hits[..n] + [hits[n]]; IndexOf(hits[..n], id)
  }

  /** An insertion-ordered table: a better score replaces the entry in place. */
  function Put(best: seq<Hit>, h: Hit): seq<Hit> {
    match IndexOf(best, h.chunk.id)
    case None => best + [h]
    case Some(i) => if h.score > best[i].score then best[i := h] else best
  }

  function Best(hits: seq<Hit>): seq<Hit> {
    if hits == [] then [] else Put(Best(hits[..|hits| - 1]), hits[|hits| - 1])
  }

  method Merge(a: seq<Hit>, b: seq<Hit>) returns (merged: seq<Hit>)
    ensures merged == Sort(ByScore, Best(a + b))
  {
    hide Sort, HasId;
    var best: seq<Hit> := [];
    var all := a + b;
    for i := 0 to |all|
      invariant best == Best(all[..i])
    {
      assert all[..i + 1][..i] == all[..i];
      var chunk := all[i];
      var key := IndexOf(best, chunk.chunk.id);
      if key.None? {
        best := best + [chunk];
      } else if chunk.score > best[key.value].score {
        best := best[key.value := chunk];
      }
    }
    assert all[..|all|] == all;
    merged := Sort(ByScore, best);
  }

  /** No chunk of `hits` scores above `h` under the same identifier. */
  predicate Highest(hits: seq<Hit>, h: Hit) {
    forall g :: g in hits && g.chunk.id == h.chunk.id ==> g.score <= h.score
  }

  /** `out` holds each chunk of `hits` once, at its highest score. */
  ghost predicate Tops(out: seq<Hit>, hits: seq<Hit>) {
    && DistinctIds(out)
    && (forall h :: h in out ==> h in hits && Highest(hits, h))
    && (forall g :: g in hits ==> HasId(out, g.chunk.id))
  }

  lemma {:induction false} PutDistinct(best: seq<Hit>, h: Hit)
    requires DistinctIds(best)
    ensures DistinctIds(Put(best, h))
  {
    if IndexOf(best, h.chunk.id).None? { assert DistinctIds(best + [h]); }
  }

  lemma {:induction false} PutIds(best: seq<Hit>, h: Hit, id: nat)
    ensures HasId(Put(best, h), id) <==> HasId(best, id) || id == h.chunk.id
  {
    var key := IndexOf(best, h.chunk.id);
    var out := Put(best, h);
    if key.None? {
      assert out[|best|] == h;
      if HasId(best, id) {
        var g :| g in best && g.chunk.id == id;
        assert g in out;
      }
    } else {
      SameIds(best, key.value, h, id);
    }
  }

  lemma {:induction false} SameIds(best: seq<Hit>, i: nat, h: Hit, id: nat)
    requires i < |best| && best[i].chunk.id == h.chunk.id
    ensures HasId(best[i := h], id) <==> HasId(best, id)
    ensures HasId(best, h.chunk.id)
  {
    var out := best[i := h];
    assert best[i] in best && out[i] in out;
    if HasId(best, id) {
      var g :| g in best && g.chunk.id == id;
      var j :| 0 <= j < |best| && best[j] == g;
      assert out[j] in out;
    }
    if HasId(out, id) {
      var g :| g in out && g.chunk.id == id;
      var j :| 0 <= j < |out| && out[j] == g;
      assert best[j] in best;
    }
  }

  lemma {:induction false} PutHighest(best: seq<Hit>, hits: seq<Hit>, h: Hit, x: Hit)
    requires Tops(best, hits) && x in Put(best, h)
    ensures x in hits + [h] && Highest(hits + [h], x)
  {
    hide HasId;
    var key := IndexOf(best, h.chunk.id);
    if key.None? {
      if x !in best {
        assert x == h;
        forall g | g in hits ensures g.chunk.id != h.chunk.id {}
      }
    } else {
      var prior := best[key.value];
      assert prior in best;
      if x != h { assert x in best && (x in best[key.value := h] ==> x.chunk.id != h.chunk.id); }
    }
  }

  lemma {:induction false} PutTops(best: seq<Hit>, hits: seq<Hit>, h: Hit)
    requires Tops(best, hits)
    ensures Tops(Put(best, h), hits + [h])
  {
    hide Put, Highest, HasId;
    PutDistinct(best, h);
    forall x | x in Put(best, h) ensures x in hits + [h] && Highest(hits + [h], x) {
      PutHighest(best, hits, h, x);
    }
    forall g | g in hits + [h] ensures HasId(Put(best, h), g.chunk.id) {
      PutIds(best, h, g.chunk.id);
    }
  }

  lemma {:induction false} BestTops(hits: seq<Hit>)
    ensures Tops(Best(hits), hits)
  {
    hide Put, Highest, HasId, Tops, Best;
    if hits == [] {
      NothingTops();
    } else {
      var n := |hits| - 1;
      BestTops(hits[..n]);
      PutTops(Best(hits[..n]), hits[..n], hits[n]);
      assert hits[..n] + [hits[n]] == hits;
      BestLast(hits);
    }
  }

  lemma {:induction false} NothingTops()
    ensures Tops(Best([]), [])
  {
  }

  lemma {:induction false} BestLast(hits: seq<Hit>)
    requires hits != []
    ensures Best(hits) == Put(Best(hits[..|hits| - 1]), hits[|hits| - 1])
  {
  }

  /** On a tie the earliest stands. */
  predicate Earliest(hits: seq<Hit>, h: Hit, k: nat) {
    && k < |hits| && hits[k] == h
    && forall j :: 0 <= j < k && hits[j].chunk.id == h.chunk.id ==> hits[j].score < h.score
  }

  lemma {:induction false} BestIsEarliest(hits: seq<Hit>, x: Hit) returns (k: nat)
    requires x in Best(hits)
    ensures Earliest(hits, x, k) && Highest(hits, x)
  {
    BestTops(hits);
    hide Tops, Highest, HasId;
    k := EarliestBest(hits, x);
    assert Highest(hits, x) by { TopsHighest(Best(hits), hits, x); }
  }

  lemma {:induction false} TopsHighest(out: seq<Hit>, hits: seq<Hit>, x: Hit)
    requires Tops(out, hits) && x in out
    ensures Highest(hits, x)
  {
    hide Highest, HasId;
  }

  lemma {:induction false} EarliestBest(hits: seq<Hit>, x: Hit) returns (k: nat)
    requires x in Best(hits)
    ensures Earliest(hits, x, k)
  {
    var n := |hits| - 1;
    var best, h := Best(hits[..n]), hits[n];
    if x in best {
      k := EarliestBest(hits[..n], x);
    } else {
      k := n;
      NewIsHigher(hits[..n], h, x);
    }
  }

  /** Only a higher score, or a new chunk, enters the table. */
  lemma {:induction false} NewIsHigher(hits: seq<Hit>, h: Hit, x: Hit)
    requires x in Put(Best(hits), h) && x !in Best(hits)
    ensures x == h && forall g :: g in hits && g.chunk.id == h.chunk.id ==> g.score < h.score
  {
    BestTops(hits);
    hide Best, DistinctIds;
    var best := Best(hits);
    var key := IndexOf(best, h.chunk.id);
    forall g | g in hits && g.chunk.id == h.chunk.id ensures g.score < h.score {
      var top :| top in best && top.chunk.id == g.chunk.id;
      assert key.Some? && best[key.value] in best && Highest(hits, best[key.value]);
    }
  }

  lemma {:induction false} SortTops(o: Order, out: seq<Hit>, hits: seq<Hit>)
    requires Tops(out, hits)
    ensures Tops(Sort(o, out), hits) && Sorted(o, Sort(o, out))
  {
    hide Sort, Highest, Sorted;
    SortHolds(o, out);
    forall x ensures x in Sort(o, out) <==> x in out { SortMember(o, out, x); }
    forall g | g in hits ensures HasId(Sort(o, out), g.chunk.id) {
      var h :| h in out && h.chunk.id == g.chunk.id;
      assert h in Sort(o, out);
    }
  }

  /** Merging a merged list is merging everything it came from. */
  lemma {:induction false} TopsOfTops(out: seq<Hit>, a: seq<Hit>, earlier: seq<Hit>, b: seq<Hit>)
    requires Tops(a, earlier) && Tops(out, a + b)
    ensures Tops(out, earlier + b)
  {
    forall h | h in out ensures h in earlier + b && Highest(earlier + b, h) {
      forall g | g in earlier + b && g.chunk.id == h.chunk.id ensures g.score <= h.score {
        if g in earlier {
          var top :| top in a && top.chunk.id == g.chunk.id;
          assert top in a + b;
        } else {
          assert g in a + b;
        }
      }
    }
    forall g | g in earlier + b ensures HasId(out, g.chunk.id) {
      if g in earlier {
        var top :| top in a && top.chunk.id == g.chunk.id;
        assert top in a + b;
      } else {
        assert g in a + b;
      }
    }
  }

  function Empty(): Result {
    Result([], [], [], [])
  }

  function MergedList(a: seq<Hit>, b: seq<Hit>): seq<Hit> {
    Sort(ByScore, Best(a + b))
  }

  function MergedResult(base: Result, search: Result): Result {
    Result(MergedList(base.groundable, search.groundable), MergedList(base.conflict, search.conflict),
           MergedList(base.context, search.context), MergedList(base.candidates, search.candidates))
  }

  method MergeRetrieval(base: Result, search: Result) returns (merged: Result)
    ensures merged == MergedResult(base, search)
  {
    var groundable := Merge(base.groundable, search.groundable);
    var conflict := Merge(base.conflict, search.conflict);
    var context := Merge(base.context, search.context);
    var candidates := Merge(base.candidates, search.candidates);
    merged := Result(groundable, conflict, context, candidates);
  }

  function Folded(searches: seq<Result>): Result {
    if searches == [] then Empty()
    else MergedResult(Folded(searches[..|searches| - 1]), searches[|searches| - 1])
  }

  /** Everything the searches put in one channel, in order. */
  function HitsOf(searches: seq<Result>, e: Eligibility): seq<Hit> {
    if searches == [] then []
    else HitsOf(searches[..|searches| - 1], e) + searches[|searches| - 1].Of(e)
  }

  lemma {:induction false} MergedTops(a: seq<Hit>, earlier: seq<Hit>, b: seq<Hit>)
    requires Tops(a, earlier)
    ensures Tops(MergedList(a, b), earlier + b) && Sorted(ByScore, MergedList(a, b))
  {
    hide Tops, Sorted, Best, Sort;
    BestTops(a + b);
    SortTops(ByScore, Best(a + b), a + b);
    TopsOfTops(MergedList(a, b), a, earlier, b);
  }

  /** However many searches are merged, a channel holds each chunk they put there once,
      at its best score, in order of score. */
  lemma {:induction false} FoldTops(searches: seq<Result>, e: Eligibility)
    ensures Tops(Folded(searches).Of(e), HitsOf(searches, e)) && Sorted(ByScore, Folded(searches).Of(e))
  {
    if searches != [] {
      hide Tops, Sorted, MergedList;
      var n := |searches| - 1;
      FoldTops(searches[..n], e);
      MergedTops(Folded(searches[..n]).Of(e), HitsOf(searches[..n], e), searches[n].Of(e));
    }
  }

  function CandidatesOf(searches: seq<Result>): seq<Hit> {
    if searches == [] then [] else CandidatesOf(searches[..|searches| - 1]) + searches[|searches| - 1].candidates
  }

  /** So does the candidate list. */
  lemma {:induction false} FoldCandidates(searches: seq<Result>)
    ensures Tops(Folded(searches).candidates, CandidatesOf(searches)) && Sorted(ByScore, Folded(searches).candidates)
  {
    if searches != [] {
      hide Tops, Sorted, MergedList;
      var n := |searches| - 1;
      FoldCandidates(searches[..n]);
      MergedTops(Folded(searches[..n]).candidates, CandidatesOf(searches[..n]), searches[n].candidates);
    }
  }

  // ---- a whole run ----------------------------------------------------------

  /** Hits drawn from one corpus, with scores in the range of fused scores. */
  predicate Drawn(hits: seq<Hit>, corpus: map<nat, Chunk>) {
    forall h :: h in hits ==> h.chunk.id in corpus && corpus[h.chunk.id] == h.chunk && h.score <= 1.0
  }

  predicate AllDrawn(found: seq<seq<Hit>>, corpus: map<nat, Chunk>) {
    forall i :: 0 <= i < |found| ==> Drawn(found[i], corpus)
  }

  function Searches(found: seq<seq<Hit>>, finalK: nat): (rs: seq<Result>)
  {
    seq(|found|, i requires 0 <= i < |found| => Gate(found[i], finalK))
  }

  predicate Channel(hits: seq<Hit>, e: Eligibility, corpus: map<nat, Chunk>) {
    Drawn(hits, corpus) && forall h :: h in hits ==> h.chunk.eligibility == e
  }

  lemma {:induction false} HitsAreOfChannel(found: seq<seq<Hit>>, finalK: nat, e: Eligibility, corpus: map<nat, Chunk>)
    requires AllDrawn(found, corpus)
    ensures Channel(HitsOf(Searches(found, finalK), e), e, corpus)
  {
    hide Gate;
    if found != [] {
      var n := |found| - 1;
      HitsAreOfChannel(found[..n], finalK, e, corpus);
      assert Searches(found, finalK)[..n] == Searches(found[..n], finalK);
      forall x | x in Gate(found[n], finalK).Of(e) ensures x in found[n] && x.chunk.eligibility == e {
        GateEligible(found[n], finalK, e, x);
      }
      assert Drawn(found[n], corpus);
    }
  }

  /** The clauses asked for that are not already groundable. */
  function Missing(groundable: seq<Hit>, wanted: set<nat>): set<nat> {
    set id | id in wanted && !HasId(groundable, id)
  }

  /** What the database may answer: some of the missing clauses, each once, groundable. */
  predicate Answers(rows: seq<Chunk>, missing: set<nat>, corpus: map<nat, Chunk>) {
    && (forall i, j :: 0 <= i < j < |rows| ==> rows[i].id != rows[j].id)
    && forall i :: 0 <= i < |rows| ==>
         && rows[i].id in missing && rows[i].id in corpus && corpus[rows[i].id] == rows[i]
         && rows[i].eligibility == Groundable
  }

  function Admitted(rows: seq<Chunk>): (hits: seq<Hit>)
  {
    seq(|rows|, i requires 0 <= i < |rows| => Hit(rows[i], 1.0))
  }

  /** Decision clauses go in front, at a score no search can exceed. */
  function Admit(r: Result, rows: seq<Chunk>): Result {
    Result(Admitted(rows) + r.groundable, r.conflict, r.context, Admitted(rows) + r.candidates)
  }

  /** Every clause the database answers with becomes groundable evidence and a candidate, at
      score 1.0 and in front; nothing is dropped, and the other channels stay. */
  lemma {:induction false} AdmittedAreGroundable(r: Result, rows: seq<Chunk>)
    ensures var out := Admit(r, rows);
            && |out.groundable| == |rows| + |r.groundable| && |out.candidates| == |rows| + |r.candidates|
            && (forall i :: 0 <= i < |rows| ==> out.groundable[i] == Hit(rows[i], 1.0) == out.candidates[i])
            && out.groundable[|rows|..] == r.groundable && out.candidates[|rows|..] == r.candidates
            && out.conflict == r.conflict && out.context == r.context
  {
  }

  predicate DisjointIds(a: seq<Hit>, b: seq<Hit>) {
    forall x, y :: x in a && y in b ==> x.chunk.id != y.chunk.id
  }

  ghost predicate ChannelsOk(r: Result, corpus: map<nat, Chunk>) {
    && (forall e :: Channel(r.Of(e), e, corpus) && DistinctIds(r.Of(e)) && Sorted(ByScore, r.Of(e)))
    && DisjointIds(r.groundable, r.conflict) && DisjointIds(r.groundable, r.context) && DisjointIds(r.conflict, r.context)
  }

  lemma {:induction false} ChannelsApart(a: seq<Hit>, e: Eligibility, b: seq<Hit>, f: Eligibility, corpus: map<nat, Chunk>)
    requires e != f && Channel(a, e, corpus) && Channel(b, f, corpus)
    ensures DisjointIds(a, b)
  {
  }

  lemma {:induction false} FoldOk(found: seq<seq<Hit>>, finalK: nat, corpus: map<nat, Chunk>)
    requires AllDrawn(found, corpus)
    ensures ChannelsOk(Folded(Searches(found, finalK)), corpus)
  {
    hide Folded, HitsOf, Searches, Sorted, DisjointIds;
    var r := Folded(Searches(found, finalK));
    forall e ensures Channel(r.Of(e), e, corpus) && DistinctIds(r.Of(e)) && Sorted(ByScore, r.Of(e)) {
      FoldTops(Searches(found, finalK), e);
      HitsAreOfChannel(found, finalK, e, corpus);
    }
    assert Channel(r.Of(Groundable), Groundable, corpus) && Channel(r.Of(ConflictOnly), ConflictOnly, corpus)
           && Channel(r.Of(ContextOnly), ContextOnly, corpus);
    hide Channel;
    ChannelsApart(r.groundable, Groundable, r.conflict, ConflictOnly, corpus);
    ChannelsApart(r.groundable, Groundable, r.context, ContextOnly, corpus);
    ChannelsApart(r.conflict, ConflictOnly, r.context, ContextOnly, corpus);
  }

  lemma {:induction false} AdmittedInFront(rows: seq<Chunk>, hits: seq<Hit>, wanted: set<nat>, corpus: map<nat, Chunk>)
    requires Answers(rows, Missing(hits, wanted), corpus)
    requires Channel(hits, Groundable, corpus) && DistinctIds(hits) && Sorted(ByScore, hits)
    ensures var out := Admitted(rows) + hits;
            Channel(out, Groundable, corpus) && DistinctIds(out) && Sorted(ByScore, out)
  {
    var out := Admitted(rows) + hits;
    assert forall i :: 0 <= i < |hits| ==> hits[i] in hits;
    forall i, j | 0 <= i < j < |out| ensures out[i].chunk.id != out[j].chunk.id && out[i].score >= out[j].score {
      if i < |rows| <= j {
        assert !HasId(hits, out[i].chunk.id);
        assert hits[j - |rows|] in hits;
      }
    }
  }

  /** After any searches, and after admission, the channels are disjoint, free of
      duplicates, of their own eligibility and sorted by score. */
  lemma {:induction false} ChannelsStayApart(found: seq<seq<Hit>>, finalK: nat, corpus: map<nat, Chunk>, wanted: set<nat>,
                                             rows: seq<Chunk>)
    requires AllDrawn(found, corpus)
    requires Answers(rows, Missing(Folded(Searches(found, finalK)).groundable, wanted), corpus)
    ensures ChannelsOk(Admit(Folded(Searches(found, finalK)), rows), corpus)
  {
    var r := Folded(Searches(found, finalK));
    hide Folded, Searches, Admitted, Answers, Missing, AllDrawn;
    FoldOk(found, finalK, corpus);
    assert Channel(r.Of(Groundable), Groundable, corpus) && DistinctIds(r.Of(Groundable))
           && Sorted(ByScore, r.Of(Groundable));
    assert Channel(r.Of(ConflictOnly), ConflictOnly, corpus) && Channel(r.Of(ContextOnly), ContextOnly, corpus);
    AdmittedInFront(rows, r.groundable, wanted, corpus);
    hide Channel, DistinctIds, Sorted, DisjointIds;
    var out := Admit(r, rows);
    ChannelsApart(out.groundable, Groundable, out.conflict, ConflictOnly, corpus);
    ChannelsApart(out.groundable, Groundable, out.context, ContextOnly, corpus);
    assert forall e :: e != Groundable ==> out.Of(e) == r.Of(e);
  }

  /** The candidate list alone can repeat a chunk: when a clause admitted as evidence had
      been found, but ranked too low to be selected. */
  lemma {:induction false} CandidatesRepeatIff(r: Result, rows: seq<Chunk>, wanted: set<nat>, corpus: map<nat, Chunk>)
    requires Answers(rows, Missing(r.groundable, wanted), corpus) && DistinctIds(r.candidates)
    ensures DistinctIds(Admit(r, rows).candidates) <==> forall i :: 0 <= i < |rows| ==> !HasId(r.candidates, rows[i].id)
  {
    var out := Admit(r, rows).candidates;
    if i :| 0 <= i < |rows| && HasId(r.candidates, rows[i].id) {
      var g :| g in r.candidates && g.chunk.id == rows[i].id;
      var j :| 0 <= j < |r.candidates| && r.candidates[j] == g;
      assert out[i].chunk.id == out[|rows| + j].chunk.id;
    } else {
      forall i, j | 0 <= i < j < |out| ensures out[i].chunk.id != out[j].chunk.id {
        if i < |rows| <= j {
          assert r.candidates[j - |rows|] in r.candidates;
        }
      }
    }
  }
}
