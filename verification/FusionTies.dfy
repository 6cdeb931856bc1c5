/** Which of two hits with the same score comes first, in each of the three fusions. */
module FusionTies {
  import opened Fusion
  import opened FusionHybrid
  import opened FusionOrder
  import opened FusionLists
  import opened FusionMulti
  import opened FusionSimilar

  /** Going through the hits, `a` is met before `b`. */
  ghost predicate MetBefore(hits: seq<Hit>, a: string, b: string) {
    exists i :: 0 <= i < |hits| && hits[i].id == a && forall j :: 0 <= j <= i ==> hits[j].id != b
  }

  ghost predicate SameIds(notes: seq<Note>, hits: seq<Hit>) {
    |notes| == |hits| && forall i :: 0 <= i < |hits| ==> notes[i].id == hits[i].id
  }

  lemma FirstIsMet(notes: seq<Note>, hits: seq<Hit>, a: string, b: string)
    requires SameIds(notes, hits) && First(notes, a) < First(notes, b)
    ensures MetBefore(hits, a, b)
  {
    var i := First(notes, a);
    assert i < First(notes, b) <= |notes|;
    hide First;
    assert hits[i].id == a;
  }

  lemma PlacesAreFirsts(notes: seq<Note>, a: string, b: string)
    requires a in Order(notes) && b in Order(notes) && Place(Order(notes), a) < Place(Order(notes), b)
    ensures First(notes, a) < First(notes, b)
  {
    var o := Order(notes);
    OrderIsByFirst(notes);
    hide Order, Place, First;
    assert o[Place(o, a)] == a && o[Place(o, b)] == b;
  }

  lemma TiesByPlace(r: seq<string>, final: map<string, real>, notes: seq<Note>, i: nat, j: nat)
    requires IsRanking(r, final, SeenMap(notes)) && i < j < |r| && r[i] in final && r[j] in final
    requires r[i] != r[j] && final[r[i]] == final[r[j]]
    ensures First(notes, r[i]) < First(notes, r[j])
  {
    SeenInjective(notes);
    hide Order, Place, First;
    assert Before(final, SeenMap(notes), r[i], r[j]);
    PlacesAreFirsts(notes, r[i], r[j]);
  }

  /** Of two hits with the same score the one that the arms, the text arm first, list first
      comes first. */
  lemma HybridTies(fold: Fold, q: string, fts: seq<Hit>, vec: seq<Hit>, limit: int, out: seq<Hit>, explains: seq<Explain>, i: nat, j: nat)
    requires IsHybrid(fold, q, fts, vec, limit, out, explains) && i < j < |out| && out[i].score == out[j].score
    ensures MetBefore(fts + vec, out[i].id, out[j].id)
  {
    HybridShape(fold, q, fts, vec, limit, out, explains);
    hide FinalMap, SeenMap, HybridNotes, FinalOf, IsRanking, HitFor, ExplainFor, Has, LimitOf, MetBefore, First, Aligned;
    var notes := HybridNotes(fts, vec);
    var final := FinalMap(fold, q, fts, vec);
    var r :| IsRanking(r, final, SeenMap(notes)) && Lists_(fold, q, fts, vec, limit, r, out, explains);
    Fields(fold, q, fts, vec, r[i], i);
    Fields(fold, q, fts, vec, r[j], j);
    RankedFinal(fold, q, fts, vec, r, i);
    RankedFinal(fold, q, fts, vec, r, j);
    TiesByPlace(r, final, notes, i, j);
    ArmIds(fts, vec);
    FirstIsMet(notes, fts + vec, r[i], r[j]);
  }

  lemma RankedFinal(fold: Fold, q: string, fts: seq<Hit>, vec: seq<Hit>, r: seq<string>, i: nat)
    requires IsRanking(r, FinalMap(fold, q, fts, vec), SeenMap(HybridNotes(fts, vec))) && i < |r|
    ensures r[i] in FinalMap(fold, q, fts, vec) && FinalMap(fold, q, fts, vec)[r[i]] == FinalOf(fold, q, fts, vec, r[i])
  {
    assert r[i] in r;
    hide FinalOf, HybridNotes, Order, SeenMap, Sorted;
  }

  lemma ArmIds(fts: seq<Hit>, vec: seq<Hit>)
    ensures SameIds(HybridNotes(fts, vec), fts + vec)
  {
    hide Gain;
  }

  /** The same of hits fused from lists: the one met first, list by list. */
  lemma TotalTies(k: nat, hits: seq<Hit>, cap: nat, r: seq<string>, out: seq<Hit>, i: nat, j: nat)
    requires k > 0 && RanksTotals(k, hits, r) && FusesAs(k, hits, cap, r, out) && i < j < |out| && out[i].score == out[j].score
    ensures MetBefore(hits, out[i].id, out[j].id)
  {
    FusionShape(k, hits, cap, r, out);
    hide TotalMap, SeenMap, ListNotes, ScoreOf, FusedHit, MetBefore, First;
    var notes := ListNotes(k, hits);
    FusedFields(k, hits, r[i], i);
    FusedFields(k, hits, r[j], j);
    assert r[i] in r && r[j] in r;
    TotalAt(k, hits, r[i]);
    TotalAt(k, hits, r[j]);
    TiesByPlace(r, TotalMap(k, hits), notes, i, j);
    ListIds(k, hits);
    FirstIsMet(notes, hits, r[i], r[j]);
  }

  lemma ListIds(k: nat, hits: seq<Hit>)
    requires k > 0
    ensures SameIds(ListNotes(k, hits), hits)
  {
    hide RankGain;
  }

  lemma MultiTies(queries: seq<string>, lists: seq<seq<Hit>>, limit: int, out: seq<MultiHit>, i: nat, j: nat)
    requires |queries| == |lists| && MultiFusesTo(queries, lists, limit, out)
    requires i < j < |out| && out[i].hit.score == out[j].hit.score
    ensures MetBefore(Concat(lists), out[i].hit.id, out[j].hit.id)
  {
    var r :| IsMulti(queries, lists, limit, r, out);
    hide RanksTotals, FusesAs, MatchesIn, Concat, MetBefore;
    assert HitsOf(out)[i] == out[i].hit && HitsOf(out)[j] == out[j].hit;
    TotalTies(MULTI_RRF_K, Concat(lists), LimitOf(limit), r, HitsOf(out), i, j);
  }

  lemma SimilarTies(lists: seq<seq<SimilarHit>>, out: seq<SimilarHit>, i: nat, j: nat)
    requires FusesTo(lists, out) && i < j < |out| && out[i].hit.score == out[j].hit.score
    ensures MetBefore(Concat(ListsOf(lists)), out[i].hit.id, out[j].hit.id)
  {
    var r :| IsFused(lists, r, out);
    hide RanksTotals, FusesAs, SortedReasons, Concat, MetBefore, ListsOf;
    assert PlainHits(out)[i] == out[i].hit && PlainHits(out)[j] == out[j].hit;
    TotalTies(FUSION_RRF_K, Concat(ListsOf(lists)), |r|, r, PlainHits(out), i, j);
  }
}
