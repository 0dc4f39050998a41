/** Reciprocal rank fusion in exact arithmetic (agentcore/retrieval/hybrid.py, lines 231-262). */
module Fusion {
  import opened Text

  datatype Row = Row(id: nat, score: real)

  /** A ranker's verdict on a chunk: its 1-based rank and its raw score. */
  type Ranked = Option<(nat, real)>

  datatype Entry = Entry(row: Row, fused: real, lex: Ranked, dense: Ranked)

  function Weight(k: nat, rank: nat): real
    requires rank > 0
  {
    1.0 / (k + rank) as real
  }

  /** What one ranking contributes to a chunk: the weights of all its places there. */
  function Share(list: seq<Row>, id: nat, k: nat): real {
    if list == [] then 0.0
    else
      var n := |list| - 1;
      Share(list[..n], id, k) + (if list[n].id == id then Weight(k, n + 1) else 0.0)
  }

  predicate Found(list: seq<Row>, id: nat) {
    exists i :: 0 <= i < |list| && list[i].id == id
  }

  /** The last place a ranking gives a chunk. */
  function LastRank(list: seq<Row>, id: nat): Ranked {
    if list == [] then None
    else
      var n := |list| - 1;
      if list[n].id == id then Some((n + 1, list[n].score)) else LastRank(list[..n], id)
  }

  function FusedScore(lexical: seq<Row>, dense: seq<Row>, id: nat, k: nat): real {
    Share(lexical, id, k) + Share(dense, id, k)
  }

  /** The table after both rankings have been read. */
  ghost predicate Fused(fused: map<nat, Entry>, lexical: seq<Row>, dense: seq<Row>, k: nat) {
    && (forall id :: id in fused <==> Found(lexical, id) || Found(dense, id))
    && forall id <- fused :: EntryOk(fused[id], lexical, dense, id, k)
  }

  predicate EntryOk(e: Entry, lexical: seq<Row>, dense: seq<Row>, id: nat, k: nat) {
    && e.row.id == id && (e.row in lexical || e.row in dense)
    && e.fused == FusedScore(lexical, dense, id, k)
    && e.lex == LastRank(lexical, id) && e.dense == LastRank(dense, id)
  }

  function Fetch(fused: map<nat, Entry>, row: Row): Entry {
    if row.id in fused then fused[row.id] else Entry(row, 0.0, None, None)
  }

  method ReciprocalRankFusion(lexical: seq<Row>, dense: seq<Row>, k: nat) returns (fused: map<nat, Entry>)
    ensures Fused(fused, lexical, dense, k)
  {
    assert Fused(map[], [], [], k);
    hide Fused;
    fused := map[];
    for i := 0 to |lexical|
      invariant Fused(fused, lexical[..i], [], k)
    {
      LexicalStep(fused, lexical, i, k);
      var row := lexical[i];
      var entry := Fetch(fused, row);
      fused := fused[row.id := entry.(lex := Some((i + 1, row.score)), fused := entry.fused + Weight(k, i + 1))];
    }
    assert lexical[..|lexical|] == lexical && dense[..0] == [];
    for i := 0 to |dense|
      invariant Fused(fused, lexical, dense[..i], k)
    {
      DenseStep(fused, lexical, dense, i, k);
      var row := dense[i];
      var entry := Fetch(fused, row);
      fused := fused[row.id := entry.(dense := Some((i + 1, row.score)), fused := entry.fused + Weight(k, i + 1))];
    }
    assert dense[..|dense|] == dense;
  }

  lemma {:induction false} Absent(list: seq<Row>, id: nat, k: nat)
    requires !Found(list, id)
    ensures Share(list, id, k) == 0.0 && LastRank(list, id) == None
  {
    hide Weight;
    if list != [] {
      var n := |list| - 1;
      assert list[n].id != id;
      assert Found(list[..n], id) ==> Found(list, id);
      Absent(list[..n], id, k);
    }
  }

  lemma {:induction false} ListStep(list: seq<Row>, i: nat, k: nat)
    requires i < |list|
    ensures forall id :: Found(list[..i + 1], id) <==> Found(list[..i], id) || id == list[i].id
    ensures forall id ::
              Share(list[..i + 1], id, k) == Share(list[..i], id, k) + (if list[i].id == id then Weight(k, i + 1) else 0.0)
    ensures LastRank(list[..i + 1], list[i].id) == Some((i + 1, list[i].score))
    ensures forall id :: id != list[i].id ==> LastRank(list[..i + 1], id) == LastRank(list[..i], id)
    ensures forall row :: row in list[..i] ==> row in list[..i + 1]
    ensures list[i] in list[..i + 1]
  {
    hide Weight;
    assert list[..i + 1][..i] == list[..i];
    assert list[..i + 1][i] == list[i];
    forall id ensures Found(list[..i + 1], id) <==> Found(list[..i], id) || id == list[i].id {
      if Found(list[..i], id) {
        var j :| 0 <= j < i && list[..i][j].id == id;
        assert list[..i + 1][j].id == id;
      }
      if Found(list[..i + 1], id) && id != list[i].id {
        var j :| 0 <= j < i + 1 && list[..i + 1][j].id == id;
        assert list[..i][j].id == id;
      }
    }
  }

  lemma {:induction false} LexicalStep(fused: map<nat, Entry>, lexical: seq<Row>, i: nat, k: nat)
    requires i < |lexical| && Fused(fused, lexical[..i], [], k)
    ensures var row := lexical[i];
            var entry := Fetch(fused, row);
            Fused(fused[row.id := entry.(lex := Some((i + 1, row.score)), fused := entry.fused + Weight(k, i + 1))],
                  lexical[..i + 1], [], k)
  {
    hide Share, LastRank, Found, Weight;
    var row := lexical[i];
    ListStep(lexical, i, k);
    Unfetched(fused, lexical[..i], [], row.id, k);
  }

  lemma {:induction false} DenseStep(fused: map<nat, Entry>, lexical: seq<Row>, dense: seq<Row>, i: nat, k: nat)
    requires i < |dense| && Fused(fused, lexical, dense[..i], k)
    ensures var row := dense[i];
            var entry := Fetch(fused, row);
            Fused(fused[row.id := entry.(dense := Some((i + 1, row.score)), fused := entry.fused + Weight(k, i + 1))],
                  lexical, dense[..i + 1], k)
  {
    hide Share, LastRank, Found, Weight;
    var row := dense[i];
    ListStep(dense, i, k);
    Unfetched(fused, lexical, dense[..i], row.id, k);
  }

  lemma {:induction false} Unfetched(fused: map<nat, Entry>, lexical: seq<Row>, dense: seq<Row>, id: nat, k: nat)
    requires Fused(fused, lexical, dense, k)
    ensures id !in fused ==>
              && FusedScore(lexical, dense, id, k) == 0.0
              && LastRank(lexical, id) == None && LastRank(dense, id) == None
  {
    hide Share, LastRank, Found;
    if id !in fused {
      Absent(lexical, id, k);
      Absent(dense, id, k);
    }
  }

  // ---- what the scores mean -------------------------------------------------

  predicate NoDuplicates(list: seq<Row>) {
    forall i, j :: 0 <= i < j < |list| ==> list[i].id != list[j].id
  }

  /** In a duplicate-free ranking a chunk contributes the weight of its one rank. */
  lemma {:induction false} ShareOfRank(list: seq<Row>, i: nat, k: nat)
    requires NoDuplicates(list) && i < |list|
    ensures Share(list, list[i].id, k) == Weight(k, i + 1)
  {
    hide Weight;
    var n := |list| - 1;
    if i < n {
      ShareOfRank(list[..n], i, k);
    } else {
      assert !Found(list[..n], list[n].id);
      Absent(list[..n], list[n].id, k);
    }
  }

  lemma {:induction false} WeightFalls(k: nat, r: nat, s: nat)
    requires 0 < r <= s
    ensures 0.0 < Weight(k, s) <= Weight(k, r)
  {
    assert 0.0 < 1.0 / ((k + s) as real) <= 1.0 / ((k + r) as real);
  }

  /** Clearing the denominators of `1/x + 1/y - 1/m`. */
  lemma {:induction false} Cleared(m: real, x: real, y: real)
    requires m > 0.0 && x > 0.0 && y > 0.0
    ensures m * (x * y) > 0.0 && (1.0 / x + 1.0 / y - 1.0 / m) * (m * (x * y)) == m * y + m * x - x * y
  {
    var p, q, r := 1.0 / x, 1.0 / y, 1.0 / m;
    assert p * x == 1.0 && q * y == 1.0 && r * m == 1.0;
    assert p * (m * (x * y)) == (p * x) * (m * y);
    assert q * (m * (x * y)) == (q * y) * (m * x);
    assert r * (m * (x * y)) == (r * m) * (x * y);
    assert x * y > 0.0;
  }

  lemma {:induction false} SameSign(d: real, c: real)
    requires c > 0.0
    ensures d > 0.0 <==> d * c > 0.0
  {
    if d > 0.0 {
      assert d * c > 0.0;
    } else {
      assert d * c <= 0.0;
    }
  }

  /** When the last places of two rankings outweigh the first place of one. */
  lemma {:induction false} LastPlacesOutweigh(k: nat, a: nat, b: nat)
    requires a > 0 && b > 0
    ensures Weight(k, a) + Weight(k, b) > Weight(k, 1) <==> (a - 1) * (b - 1) < (k + 1) * (k + 1)
  {
    var m, x, y := (k + 1) as real, (k + a) as real, (k + b) as real;
    Cleared(m, x, y);
    SameSign(1.0 / x + 1.0 / y - 1.0 / m, m * (x * y));
    PlacesProduct(k, a, b);
  }

  lemma {:induction false} PlacesProduct(k: nat, a: nat, b: nat)
    requires a > 0 && b > 0
    ensures var m, x, y := (k + 1) as real, (k + a) as real, (k + b) as real;
            m * y + m * x - x * y > 0.0 <==> (a - 1) * (b - 1) < (k + 1) * (k + 1)
  {
    var n, c, d := k + 1, a - 1, b - 1;
    assert n * (n + d) + n * (n + c) - (n + c) * (n + d) == n * n - c * d;
    assert (k + a) == n + c && (k + b) == n + d;
  }

  /** Every chunk that both rankings found scores above every chunk that only one found. */
  ghost predicate BothWin(lexical: seq<Row>, dense: seq<Row>, k: nat) {
    forall both, one ::
      Found(lexical, both) && Found(dense, both) && Found(lexical, one) != Found(dense, one) ==>
        FusedScore(lexical, dense, both, k) > FusedScore(lexical, dense, one, k)
  }

  /** Two duplicate-free rankings of at most `a` and `b` rows. */
  predicate Within(lexical: seq<Row>, dense: seq<Row>, a: nat, b: nat) {
    NoDuplicates(lexical) && NoDuplicates(dense) && |lexical| <= a && |dense| <= b
  }

  /** No chunk can be in both, or the limits are small enough for the constant. */
  predicate LimitsFit(a: nat, b: nat, k: nat) {
    a == 0 || b == 0 || (a - 1) * (b - 1) < (k + 1) * (k + 1)
  }

  lemma {:induction false} BothBeatOneWithin(lexical: seq<Row>, dense: seq<Row>, a: nat, b: nat, k: nat,
                                             both: nat, one: nat)
    requires Within(lexical, dense, a, b) && LimitsFit(a, b, k)
    requires Found(lexical, both) && Found(dense, both) && Found(lexical, one) != Found(dense, one)
    ensures FusedScore(lexical, dense, both, k) > FusedScore(lexical, dense, one, k)
  {
    hide Weight, Share;
    var i :| 0 <= i < |lexical| && lexical[i].id == both;
    var j :| 0 <= j < |dense| && dense[j].id == both;
    ShareOfRank(lexical, i, k);
    ShareOfRank(dense, j, k);
    WeightFalls(k, i + 1, a);
    WeightFalls(k, j + 1, b);
    LastPlacesOutweigh(k, a, b);
    SingleAtMost(lexical, dense, k, one);
  }

  lemma {:induction false} SingleAtMost(lexical: seq<Row>, dense: seq<Row>, k: nat, one: nat)
    requires NoDuplicates(lexical) && NoDuplicates(dense) && Found(lexical, one) != Found(dense, one)
    ensures FusedScore(lexical, dense, one, k) <= Weight(k, 1)
  {
    hide Weight, Share;
    var list := if Found(lexical, one) then lexical else dense;
    var i :| 0 <= i < |list| && list[i].id == one;
    ShareOfRank(list, i, k);
    WeightFalls(k, 1, i + 1);
    Absent(if Found(lexical, one) then dense else lexical, one, k);
  }

  /** `n` rows with identifiers from `from` on. */
  function Filler(from: nat, n: nat): (rows: seq<Row>)
  {
    seq(n, i requires 0 <= i < n => Row(from + i, 0.0))
  }

  /** The last row of two rankings against the first row of the lexical one. Chunk 0 is in
      both, chunk 1 in the lexical ranking alone. */
  lemma {:induction false} LastInBoth(a: nat, b: nat, k: nat)
    requires a > 1 && b > 1
    ensures var lexical, dense := Filler(1, a - 1) + [Row(0, 0.0)], Filler(a, b - 1) + [Row(0, 0.0)];
            && Within(lexical, dense, a, b)
            && Found(lexical, 0) && Found(dense, 0) && Found(lexical, 1) && !Found(dense, 1)
            && FusedScore(lexical, dense, 0, k) == Weight(k, a) + Weight(k, b)
            && FusedScore(lexical, dense, 1, k) == Weight(k, 1)
  {
    hide Weight, Share;
    var lexical, dense := Filler(1, a - 1) + [Row(0, 0.0)], Filler(a, b - 1) + [Row(0, 0.0)];
    assert lexical[a - 1].id == 0 && dense[b - 1].id == 0 && lexical[0].id == 1;
    assert !Found(dense, 1);
    ShareOfRank(lexical, a - 1, k);
    ShareOfRank(dense, b - 1, k);
    ShareOfRank(lexical, 0, k);
    Absent(dense, 1, k);
  }

  /** The exact condition on the two candidate limits: a chunk both rankers found beats
      every chunk only one found, in all rankings within the limits, exactly when
      `(a - 1) * (b - 1) < (k + 1) * (k + 1)`, or a limit is 0. */
  lemma {:induction false} BothBeatOneIff(a: nat, b: nat, k: nat)
    ensures (forall lexical, dense :: Within(lexical, dense, a, b) ==> BothWin(lexical, dense, k)) <==>
              LimitsFit(a, b, k)
  {
    if LimitsFit(a, b, k) {
      hide Within, LimitsFit, FusedScore, Found;
      forall lexical, dense | Within(lexical, dense, a, b) ensures BothWin(lexical, dense, k) {
        forall both, one
          | Found(lexical, both) && Found(dense, both) && Found(lexical, one) != Found(dense, one)
          ensures FusedScore(lexical, dense, both, k) > FusedScore(lexical, dense, one, k)
        {
          BothBeatOneWithin(lexical, dense, a, b, k, both, one);
        }
      }
    } else {
      LimitsAbove(a, b, k);
      hide Within, FusedScore, Found, Weight;
      LastInBoth(a, b, k);
      LastPlacesOutweigh(k, a, b);
      assert !BothWin(Filler(1, a - 1) + [Row(0, 0.0)], Filler(a, b - 1) + [Row(0, 0.0)], k);
    }
  }

  lemma {:induction false} LimitsAbove(a: nat, b: nat, k: nat)
    requires !LimitsFit(a, b, k)
    ensures a > 1 && b > 1
  {
    assert (k + 1) * (k + 1) > 0;
  }

  /** In particular with at most `k + 1` rows in each ranking. */
  lemma {:induction false} BothBeatOne(lexical: seq<Row>, dense: seq<Row>, k: nat, both: nat, one: nat)
    requires NoDuplicates(lexical) && NoDuplicates(dense) && |lexical| <= k + 1 && |dense| <= k + 1
    requires Found(lexical, both) && Found(dense, both) && Found(lexical, one) != Found(dense, one)
    ensures FusedScore(lexical, dense, both, k) > FusedScore(lexical, dense, one, k)
  {
    hide Found, FusedScore, NoDuplicates;
    assert k * k < (k + 1) * (k + 1);
    BothBeatOneWithin(lexical, dense, k + 1, k + 1, k, both, one);
  }

  /** At `k + 2` rows in each the last place in both only ties with the first in one. */
  lemma {:induction false} BoundIsTight(k: nat)
    ensures var lexical, dense := Filler(1, k + 1) + [Row(0, 0.0)], Filler(k + 2, k + 1) + [Row(0, 0.0)];
            && Within(lexical, dense, k + 2, k + 2)
            && Found(lexical, 0) && Found(dense, 0) && Found(lexical, 1) && !Found(dense, 1)
            && FusedScore(lexical, dense, 0, k) == FusedScore(lexical, dense, 1, k)
  {
    hide Within, Found, FusedScore;
    LastInBoth(k + 2, k + 2, k);
    var m := (k + 1) as real;
    assert (k + k + 2) as real == 2.0 * m;
    assert 1.0 / (2.0 * m) + 1.0 / (2.0 * m) == 1.0 / m;
  }

  /** Which ranking is read first makes no difference to any score. */
  lemma {:induction false} FoldOrderIrrelevant(one: map<nat, Entry>, other: map<nat, Entry>, lexical: seq<Row>,
                                               dense: seq<Row>, k: nat)
    requires Fused(one, lexical, dense, k) && Fused(other, dense, lexical, k)
    ensures one.Keys == other.Keys && forall id <- one :: one[id].fused == other[id].fused
  {
    hide Share, Found, LastRank;
  }

  /** Fused scores stay under 1, so a clause admitted at 1.0 outranks every search hit. */
  lemma {:induction false} FusedBelowOne(lexical: seq<Row>, dense: seq<Row>, k: nat, id: nat)
    requires NoDuplicates(lexical) && NoDuplicates(dense) && k > 0
    ensures 0.0 <= FusedScore(lexical, dense, id, k) <= 1.0
  {
    hide Share;
    ShareAtMost(lexical, k, id);
    ShareAtMost(dense, k, id);
    assert 0.0 < 1.0 / ((k + 1) as real) <= 1.0 / 2.0;
  }

  lemma {:induction false} ShareAtMost(list: seq<Row>, k: nat, id: nat)
    requires NoDuplicates(list)
    ensures 0.0 <= Share(list, id, k) <= Weight(k, 1)
  {
    hide Share, Weight;
    WeightFalls(k, 1, 1);
    if Found(list, id) {
      var i :| 0 <= i < |list| && list[i].id == id;
      ShareOfRank(list, i, k);
      WeightFalls(k, 1, i + 1);
    } else {
      Absent(list, id, k);
    }
  }
}
