/** What the fused result of two arms is guaranteed to be. */
module FusionOrder {
  import opened Fusion
  import opened FusionHybrid

  lemma SeenInjective(notes: seq<Note>)
    ensures Injective(SeenMap(notes)) && SeenMap(notes).Keys == set id | id in Order(notes)
  {
    var o, m := Order(notes), SeenMap(notes);
    hide Order;
    forall a, b | a in m && b in m && a != b ensures m[a] != m[b] {
      assert o[Place(o, a)] == a && o[Place(o, b)] == b;
    }
  }

  lemma FinalInSeen(fold: Fold, q: string, fts: seq<Hit>, vec: seq<Hit>)
    ensures FinalMap(fold, q, fts, vec).Keys <= SeenMap(HybridNotes(fts, vec)).Keys
  {
    hide Order, HybridNotes, FinalOf, Place;
  }

  /** The result is determined by the two arms: no iteration order of a map shows. */
  lemma HybridUnique(fold: Fold, q: string, fts: seq<Hit>, vec: seq<Hit>, limit: int, out1: seq<Hit>, ex1: seq<Explain>, out2: seq<Hit>, ex2: seq<Explain>)
    requires IsHybrid(fold, q, fts, vec, limit, out1, ex1) && IsHybrid(fold, q, fts, vec, limit, out2, ex2)
    ensures out1 == out2 && ex1 == ex2
  {
    var final, seen := FinalMap(fold, q, fts, vec), SeenMap(HybridNotes(fts, vec));
    hide FinalMap, SeenMap, HybridNotes, IsRanking, Injective, HitFor, ExplainFor;
    var r1 :| IsRanking(r1, final, seen) && Lists_(fold, q, fts, vec, limit, r1, out1, ex1);
    var r2 :| IsRanking(r2, final, seen) && Lists_(fold, q, fts, vec, limit, r2, out2, ex2);
    FinalInSeen(fold, q, fts, vec);
    SeenInjective(HybridNotes(fts, vec));
    RankingUnique(r1, r2, final, seen);
  }

  ghost predicate Aligned(hits: seq<Hit>, explains: seq<Explain>) {
    |hits| == |explains| && forall i :: 0 <= i < |hits| ==> hits[i].score == explains[i].finalScore && hits[i].arm == explains[i].arm
  }

  ghost predicate RankedByScore(hits: seq<Hit>) {
    && (forall i :: 0 <= i < |hits| ==> hits[i].rank == i + 1)
    && (forall i, j :: 0 <= i < j < |hits| ==> hits[i].score >= hits[j].score && hits[i].id != hits[j].id)
  }

  /** Ranks are 1, 2, 3 and so on, scores never rise, no id comes twice, explanations go
      with their hits, and every hit comes from an arm. */
  lemma HybridShape(fold: Fold, q: string, fts: seq<Hit>, vec: seq<Hit>, limit: int, out: seq<Hit>, explains: seq<Explain>)
    requires IsHybrid(fold, q, fts, vec, limit, out, explains)
    ensures Aligned(out, explains) && RankedByScore(out) && |out| <= (if limit <= 0 then 20 else limit)
    ensures forall i :: 0 <= i < |out| ==> Has(fts + vec, out[i].id)
  {
    hide FinalMap, SeenMap, HybridNotes, FinalOf, IsRanking, HitFor, ExplainFor, Has;
    var final, seen := FinalMap(fold, q, fts, vec), SeenMap(HybridNotes(fts, vec));
    var r :| IsRanking(r, final, seen) && Lists_(fold, q, fts, vec, limit, r, out, explains);
    forall i | 0 <= i < |out|
      ensures out[i].id == r[i] && out[i].rank == i + 1 && out[i].score == FinalOf(fold, q, fts, vec, r[i])
      ensures out[i].score == explains[i].finalScore && out[i].arm == explains[i].arm
    {
      assert out[i] == HitFor(fold, q, fts, vec, r[i], i) && explains[i] == ExplainFor(fold, q, fts, vec, r[i]);
      Fields(fold, q, fts, vec, r[i], i);
    }
    ShapeOfRanking(fold, q, fts, vec, r, out);
  }

  lemma Fields(fold: Fold, q: string, fts: seq<Hit>, vec: seq<Hit>, id: string, i: nat)
    ensures
      var hit, explain := HitFor(fold, q, fts, vec, id, i), ExplainFor(fold, q, fts, vec, id);
      && hit.id == id && hit.rank == i + 1 && hit.score == explain.finalScore == FinalOf(fold, q, fts, vec, id)
      && hit.arm == explain.arm
  {
    hide FinalOf, TitleOf, KindOf, OfficialOf, ArmRank, VecScore, TitleBoost;
  }

  lemma ShapeOfRanking(fold: Fold, q: string, fts: seq<Hit>, vec: seq<Hit>, r: seq<string>, out: seq<Hit>)
    requires IsRanking(r, FinalMap(fold, q, fts, vec), SeenMap(HybridNotes(fts, vec))) && |out| <= |r|
    requires forall i :: 0 <= i < |out| ==> out[i].id == r[i] && out[i].rank == i + 1 && out[i].score == FinalOf(fold, q, fts, vec, r[i])
    ensures RankedByScore(out) && forall i :: 0 <= i < |out| ==> Has(fts + vec, out[i].id)
  {
    var final, seen := FinalMap(fold, q, fts, vec), SeenMap(HybridNotes(fts, vec));
    hide FinalMap, SeenMap, HybridNotes, FinalOf, Before, Has;
    SortedDistinct(r, final, seen);
    forall i | 0 <= i < |out| ensures Has(fts + vec, out[i].id) && out[i].score == final[r[i]] {
      assert r[i] in r;
      FinalAt(fold, q, fts, vec, r[i]);
    }
    forall i, j | 0 <= i < j < |out| ensures out[i].score >= out[j].score {
      NeverRising(r, final, seen, i, j);
    }
  }

  lemma FinalAt(fold: Fold, q: string, fts: seq<Hit>, vec: seq<Hit>, id: string)
    requires id in FinalMap(fold, q, fts, vec)
    ensures FinalMap(fold, q, fts, vec)[id] == FinalOf(fold, q, fts, vec, id)
    ensures Has(fts + vec, id)
  {
    SeenIsHeld(fts, vec, id);
    hide Order, HybridNotes, FinalOf, Has;
  }

  lemma FinalHas(fold: Fold, q: string, fts: seq<Hit>, vec: seq<Hit>, id: string)
    requires Has(fts + vec, id)
    ensures id in FinalMap(fold, q, fts, vec)
  {
    SeenIsHeld(fts, vec, id);
    hide Order, HybridNotes, FinalOf, Has;
  }

  // ---- order

  /** A list of hits names each id once, as a query over the concept table does. */
  ghost predicate DistinctHits(hits: seq<Hit>) {
    forall i, j :: 0 <= i < j < |hits| ==> hits[i].id != hits[j].id
  }

  /** Where the arm lists `b` it lists `a` before. */
  ghost predicate AheadInArm(hits: seq<Hit>, a: string, b: string) {
    forall j :: 0 <= j < |hits| && hits[j].id == b ==> exists i :: 0 <= i < j && hits[i].id == a
  }

  lemma GainsFall(i: nat, j: nat)
    requires i < j
    ensures Gain(i) > Gain(j) > 0.0
  {
    Reciprocals((RRF_K + i) as real, (RRF_K + j) as real);
  }

  lemma ArmFalls(hits: seq<Hit>)
    requires DistinctHits(hits)
    ensures Falling(ArmNotes(hits))
  {
    var notes := ArmNotes(hits);
    forall i | 0 <= i < |notes| ensures notes[i].gain > 0.0 {
      GainsFall(i, i + 1);
    }
    forall i, j | 0 <= i < j < |notes| ensures notes[i].id != notes[j].id && notes[i].gain > notes[j].gain {
      GainsFall(i, j);
    }
  }

  lemma ArmAhead(hits: seq<Hit>, a: string, b: string)
    requires AheadInArm(hits, a, b)
    ensures AheadIn(ArmNotes(hits), a, b)
    ensures Lists(ArmNotes(hits), b) <==> Has(hits, b)
  {
    var notes := ArmNotes(hits);
    assert forall i :: 0 <= i < |notes| ==> notes[i].id == hits[i].id;
    hide ArmNotes, First;
    if Lists(notes, b) {
      assert hits[First(notes, b)].id == b;
      var i :| 0 <= i < First(notes, b) && hits[i].id == a;
      assert First(notes, a) <= i;
    }
    if Has(hits, b) {
      var j :| 0 <= j < |hits| && hits[j].id == b;
      assert notes[j].id == b;
    }
  }

  lemma BoostPositive(fold: Fold, q: string, hits: seq<Hit>, id: string)
    ensures Boost(fold, q, hits, id) > 0.0
  {
    TitleBoostBounds(fold, q, TitleOf(hits, id));
    var b := BoostsOf(fold, q, hits, id);
    assert b.typeWeight >= 1.0 && b.titleBoost >= 1.0 && b.officialBoost >= 1.0;
    hide BoostsOf;
    Products(b.typeWeight, b.titleBoost);
    Products(b.typeWeight * b.titleBoost, b.officialBoost);
  }

  lemma Products(x: real, y: real)
    requires x >= 1.0 && y >= 1.0
    ensures x * y >= 1.0
  {
    Monotone(1.0, x, y);
  }

  /** An id ahead of another in every arm that lists the other, with the same boosts,
      scores more. */
  lemma AheadScoresMoreFused(fold: Fold, q: string, fts: seq<Hit>, vec: seq<Hit>, a: string, b: string)
    requires DistinctHits(fts) && DistinctHits(vec) && AheadInArm(fts, a, b) && AheadInArm(vec, a, b)
    requires Has(fts + vec, b) && Boost(fold, q, fts + vec, a) == Boost(fold, q, fts + vec, b)
    ensures FinalOf(fold, q, fts, vec, a) > FinalOf(fold, q, fts, vec, b)
  {
    hide *;
    ArmsScoreMore(fts, vec, a, b);
    BoostPositive(fold, q, fts + vec, b);
    FinalProduct(fold, q, fts, vec, a);
    FinalProduct(fold, q, fts, vec, b);
    Monotone(ScoreOf(HybridNotes(fts, vec), b), ScoreOf(HybridNotes(fts, vec), a), Boost(fold, q, fts + vec, b));
  }

  lemma FinalProduct(fold: Fold, q: string, fts: seq<Hit>, vec: seq<Hit>, id: string)
    ensures FinalOf(fold, q, fts, vec, id) == ScoreOf(HybridNotes(fts, vec), id) * Boost(fold, q, fts + vec, id)
  {
    hide Boost, ScoreOf, HybridNotes;
  }

  lemma ArmsScoreMore(fts: seq<Hit>, vec: seq<Hit>, a: string, b: string)
    requires DistinctHits(fts) && DistinctHits(vec) && AheadInArm(fts, a, b) && AheadInArm(vec, a, b) && Has(fts + vec, b)
    ensures ScoreOf(HybridNotes(fts, vec), a) > ScoreOf(HybridNotes(fts, vec), b)
  {
    hide ArmNotes, Falling, AheadIn, Lists, ScoreOf, Has, AheadInArm, DistinctHits, Flatten;
    var x, y := ArmNotes(fts), ArmNotes(vec);
    ArmFalls(fts);
    ArmFalls(vec);
    ArmAhead(fts, a, b);
    ArmAhead(vec, a, b);
    HasEither(fts, vec, b);
    TwoLists(x, y);
    var lists := [x, y];
    assert lists[0] == x && lists[1] == y;
    assert SomeLists(lists, b) by {
      assert Lists(lists[0], b) || Lists(lists[1], b);
    }
    AheadScoresMore(lists, a, b);
  }

  lemma HasEither(fts: seq<Hit>, vec: seq<Hit>, id: string)
    requires Has(fts + vec, id)
    ensures Has(fts, id) || Has(vec, id)
  {
    var i :| 0 <= i < |fts + vec| && (fts + vec)[i].id == id;
    assert i >= |fts| ==> vec[i - |fts|].id == id;
  }

  lemma TwoLists(x: seq<Note>, y: seq<Note>)
    ensures Flatten([x, y]) == x + y
  {
    var two := [x, y];
    assert two[..1] == [x] && [x][..0] == [];
    assert Flatten([]) == [];
    assert Flatten([x]) == Flatten([]) + x;
    assert Flatten(two) == Flatten(two[..1]) + y;
  }

  /** A hit strictly ahead of another in every arm that lists the other, with equal
      boosts, is ranked before it. */
  lemma AheadIsRankedFirst(fold: Fold, q: string, fts: seq<Hit>, vec: seq<Hit>, limit: int, out: seq<Hit>, explains: seq<Explain>,
      a: string, j: nat) returns (i: nat)
    requires IsHybrid(fold, q, fts, vec, limit, out, explains) && j < |out|
    requires DistinctHits(fts) && DistinctHits(vec) && AheadInArm(fts, a, out[j].id) && AheadInArm(vec, a, out[j].id)
    requires Boost(fold, q, fts + vec, a) == Boost(fold, q, fts + vec, out[j].id)
    ensures i < j && out[i].id == a
  {
    var final, seen := FinalMap(fold, q, fts, vec), SeenMap(HybridNotes(fts, vec));
    var r :| IsRanking(r, final, seen) && Lists_(fold, q, fts, vec, limit, r, out, explains);
    var b := out[j].id;
    assert r[j] == b && b in r;
    hide FinalMap, SeenMap, HybridNotes, FinalOf, Before, HitFor, ExplainFor, DistinctHits, Boost;
    FinalAt(fold, q, fts, vec, b);
    AheadScoresMoreFused(fold, q, fts, vec, a, b);
    AheadIsThere(fts, vec, a, b);
    FinalHas(fold, q, fts, vec, a);
    FinalAt(fold, q, fts, vec, a);
    assert a in r;
    i :| 0 <= i < |r| && r[i] == a;
    hide AheadInArm, Has;
    GreaterFirst(r, final, seen, i, j);
    assert out[i] == HitFor(fold, q, fts, vec, r[i], i);
    HitForId(fold, q, fts, vec, r[i], i);
  }

  lemma HitForId(fold: Fold, q: string, fts: seq<Hit>, vec: seq<Hit>, id: string, i: nat)
    ensures HitFor(fold, q, fts, vec, id, i).id == id
  {
  }

  lemma AheadIsThere(fts: seq<Hit>, vec: seq<Hit>, a: string, b: string)
    requires AheadInArm(fts, a, b) && AheadInArm(vec, a, b) && Has(fts + vec, b)
    ensures Has(fts + vec, a)
  {
    HasEither(fts, vec, b);
    if Has(fts, b) {
      var j :| 0 <= j < |fts| && fts[j].id == b;
      var i :| 0 <= i < j && fts[i].id == a;
      assert (fts + vec)[i].id == a;
    } else {
      var j :| 0 <= j < |vec| && vec[j].id == b;
      var i :| 0 <= i < j && vec[i].id == a;
      assert (fts + vec)[|fts| + i].id == a;
    }
  }

  /** A hit is missing only because of the limit: a result shorter than the limit has every id that
      either arm lists. */
  lemma NoneMissing(fold: Fold, q: string, fts: seq<Hit>, vec: seq<Hit>, limit: int, out: seq<Hit>, explains: seq<Explain>, id: string)
    requires IsHybrid(fold, q, fts, vec, limit, out, explains)
    requires |out| < (if limit <= 0 then 20 else limit) && Has(fts + vec, id)
    ensures Has(out, id)
  {
    hide FinalMap, SeenMap, HybridNotes, FinalOf, Sorted, HitFor, ExplainFor;
    var r :| IsRanking(r, FinalMap(fold, q, fts, vec), SeenMap(HybridNotes(fts, vec))) && Lists_(fold, q, fts, vec, limit, r, out, explains);
    FinalHas(fold, q, fts, vec, id);
    assert id in r && |out| == |r|;
    var i :| 0 <= i < |r| && r[i] == id;
    assert out[i] == HitFor(fold, q, fts, vec, r[i], i);
    Fields(fold, q, fts, vec, r[i], i);
    assert out[i].id == id;
  }

  /** A question finds nothing exactly when no text matches it and no vector hit reaches the floor. */
  lemma FindsNothingIff(fold: Fold, q: string, fts: seq<Hit>, vec: seq<Hit>, limit: int, out: seq<Hit>, explains: seq<Explain>)
    requires IsHybrid(fold, q, fts, Kept(vec), limit, out, explains)
    ensures out == [] <==> fts == [] && forall h :: h in vec ==> h.score < 0.05
  {
    KeptIs(vec);
    HybridShape(fold, q, fts, Kept(vec), limit, out, explains);
    hide IsHybrid, Kept, LimitOf, Aligned, RankedByScore;
    var all := fts + Kept(vec);
    if out == [] && all != [] {
      assert Has(all, all[0].id);
      NoneMissing(fold, q, fts, Kept(vec), limit, out, explains, all[0].id);
    }
    if out != [] {
      assert Has(all, out[0].id);
    }
    assert all == [] <==> fts == [] && Kept(vec) == [];
    NothingKept(vec);
  }

  lemma NothingKept(vec: seq<Hit>)
    ensures Kept(vec) == [] <==> forall h :: h in vec ==> h.score < VEC_SCORE_FLOOR
  {
    KeptIs(vec);
    hide Kept;
    if Kept(vec) != [] {
      assert Kept(vec)[0] in Kept(vec);
    }
  }
}
