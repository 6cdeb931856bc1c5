/** What each hit of a fused result and its explanation say, read off the two arms. */
module FusionExplained {
  import opened Fusion
  import opened FusionHybrid
  import opened FusionOrder

  // ---- read off the lists

  /** The place of the last hit of the id, counted from 1; 0 when there is none. */
  ghost predicate RankIn(hits: seq<Hit>, id: string, rank: nat) {
    && rank <= |hits| && (rank > 0 ==> hits[rank - 1].id == id)
    && forall i :: rank <= i < |hits| ==> hits[i].id != id
  }

  /** What a place adds to the score. */
  function Share(rank: nat): real {
    if rank == 0 then 0.0 else 1.0 / (59 + rank) as real
  }

  ghost predicate MarkedOfficial(hits: seq<Hit>, id: string) {
    exists h :: h in hits && h.id == id && h.official
  }

  /** The title of the first hit of the id. */
  ghost predicate TitleIn(hits: seq<Hit>, id: string, title: string) {
    exists i :: 0 <= i < |hits| && hits[i].id == id && hits[i].title == title && forall j :: 0 <= j < i ==> hits[j].id != id
  }

  /** The type of the last hit of the id that has one. */
  ghost predicate KindIn(hits: seq<Hit>, id: string, kind: string) {
    if kind == "" then forall h :: h in hits && h.id == id ==> h.kind == ""
    else
      exists i ::
        && 0 <= i < |hits| && hits[i].id == id && hits[i].kind == kind
        && forall j :: i < j < |hits| && hits[j].id == id ==> hits[j].kind == ""
  }

  /** The types with authority. */
  predicate Canonical(kind: string) {
    kind in {"ApiEndpoint", "PacsMessage", "CamtMessage"}
  }

  /** One and half the share of the distinct tokens asked for that the title has. */
  predicate BoostedTitle(fold: Fold, q: string, title: string, boost: real) {
    var asked, given := set t | t in fold(q), set t | t in fold(title);
    if asked == {} then boost == 1.0 else boost == 1.0 + 0.5 * (|asked * given| as real) / (|asked| as real)
  }

  /** A hit and its explanation, in everything but the score. */
  ghost predicate Explained(fold: Fold, q: string, fts: seq<Hit>, vec: seq<Hit>, h: Hit, e: Explain) {
    && TitleIn(fts + vec, h.id, h.title) && KindIn(fts + vec, h.id, h.kind)
    && (h.official <==> MarkedOfficial(fts + vec, h.id))
    && RankIn(fts, h.id, e.ftsRank) && RankIn(vec, h.id, e.vecRank)
    && e.vecScore == (if e.vecRank == 0 then 0.0 else vec[e.vecRank - 1].score)
    && h.arm == e.arm == (if e.ftsRank == 0 then "vector" else if e.vecRank == 0 then "fts" else "both")
    && e.officialBoost == (if h.official then 1.15 else 1.0)
    && e.typeWeight == (if Canonical(h.kind) then 1.15 else 1.0)
    && BoostedTitle(fold, q, h.title, e.titleBoost)
  }

  /** The score of a hit, from its explanation. */
  predicate Scored(h: Hit, e: Explain) {
    h.score == e.finalScore == (Share(e.ftsRank) + Share(e.vecRank)) * (e.typeWeight * e.titleBoost * e.officialBoost)
  }

  // ---- the parts

  lemma {:induction false} RankIs(hits: seq<Hit>, id: string)
    ensures RankIn(hits, id, ArmRank(hits, id))
  {
    if hits != [] && hits[|hits| - 1].id != id {
      RankIs(hits[..|hits| - 1], id);
    }
  }

  lemma {:induction false} TitleIs(hits: seq<Hit>, id: string)
    requires Has(hits, id)
    ensures TitleIn(hits, id, TitleOf(hits, id))
  {
    if hits[0].id != id {
      var i :| 0 <= i < |hits| && hits[i].id == id;
      var rest := hits[1..];
      assert rest[i - 1].id == id;
      TitleIs(rest, id);
      var k :| 0 <= k < |rest| && rest[k].id == id && rest[k].title == TitleOf(rest, id) && forall j :: 0 <= j < k ==> rest[j].id != id;
      assert hits[k + 1] == rest[k];
      assert forall j :: 1 <= j < k + 1 ==> hits[j] == rest[j - 1];
    }
  }

  lemma {:induction false} KindIs(hits: seq<Hit>, id: string)
    ensures KindIn(hits, id, KindOf(hits, id))
  {
    if hits != [] {
      var init, last := hits[..|hits| - 1], hits[|hits| - 1];
      assert hits == init + [last];
      if last.id == id && last.kind != "" {
        assert hits[|hits| - 1].kind == KindOf(hits, id);
      } else {
        KindIs(init, id);
        var kind := KindOf(init, id);
        if kind != "" {
          var i :| 0 <= i < |init| && init[i].id == id && init[i].kind == kind &&
            forall j :: i < j < |init| && init[j].id == id ==> init[j].kind == "";
          assert hits[i] == init[i];
        }
      }
    }
  }

  lemma OfficialIs(hits: seq<Hit>, id: string)
    ensures OfficialOf(hits, id) <==> MarkedOfficial(hits, id)
  {
    if h :| h in hits && h.id == id && h.official {
      var i :| 0 <= i < |hits| && hits[i] == h;
    }
  }

  lemma TitleBoostIs(fold: Fold, q: string, title: string)
    ensures BoostedTitle(fold, q, title, TitleBoost(fold, q, title))
  {
    TokensAre(fold(q));
    TokensAre(fold(title));
    hide TokensOf;
  }

  lemma TokensAre(tokens: seq<string>)
    ensures TokensOf(tokens) == set t | t in tokens
  {
  }

  lemma WeightIs(kind: string)
    ensures TypeWeight(kind) == if Canonical(kind) then 1.15 else 1.0
  {
  }

  lemma Presented(fold: Fold, q: string, fts: seq<Hit>, vec: seq<Hit>, id: string, i: nat)
    requires Has(fts + vec, id)
    ensures Explained(fold, q, fts, vec, HitFor(fold, q, fts, vec, id, i), ExplainFor(fold, q, fts, vec, id))
  {
    TitleIs(fts + vec, id);
    KindIs(fts + vec, id);
    OfficialIs(fts + vec, id);
    RankIs(fts, id);
    RankIs(vec, id);
    TitleBoostIs(fold, q, TitleOf(fts + vec, id));
    SomewhereRanked(fts, vec, id);
    WeightIs(KindOf(fts + vec, id));
    hide TypeWeight, Canonical, TitleIn, KindIn, MarkedOfficial, RankIn, BoostedTitle, TitleOf, KindOf, OfficialOf, ArmRank, TitleBoost, FinalOf;
  }

  lemma SomewhereRanked(fts: seq<Hit>, vec: seq<Hit>, id: string)
    requires Has(fts + vec, id)
    ensures ArmRank(fts, id) > 0 || ArmRank(vec, id) > 0
  {
    HasEither(fts, vec, id);
    RankIs(fts, id);
    RankIs(vec, id);
    hide ArmRank;
  }

  // ---- scores

  lemma PlaceOfId(hits: seq<Hit>, id: string)
    requires DistinctHits(hits)
    ensures
      var notes, rank := ArmNotes(hits), ArmRank(hits, id);
      if rank == 0 then !Lists(notes, id) else Lists(notes, id) && First(notes, id) == rank - 1
  {
    var notes, rank := ArmNotes(hits), ArmRank(hits, id);
    RankIs(hits, id);
    assert forall i :: 0 <= i < |notes| ==> notes[i].id == hits[i].id;
    hide ArmRank, Gain, ArmNotes;
    if rank > 0 {
      FirstIs(notes, id, rank - 1);
    } else {
      FirstIsNone(notes, id);
    }
  }

  lemma ShareOfArm(hits: seq<Hit>, id: string)
    requires DistinctHits(hits)
    ensures ScoreOf(ArmNotes(hits), id) == Share(ArmRank(hits, id))
  {
    ArmFalls(hits);
    ScoreInList(ArmNotes(hits), id);
    PlaceOfId(hits, id);
    hide ScoreOf, ArmRank, Falling, First, DistinctHits, Lists;
  }

  lemma SharesAdd(fts: seq<Hit>, vec: seq<Hit>, id: string)
    requires DistinctHits(fts) && DistinctHits(vec)
    ensures ScoreOf(HybridNotes(fts, vec), id) == Share(ArmRank(fts, id)) + Share(ArmRank(vec, id))
  {
    hide ScoreOf, ArmNotes, ArmRank, Share, DistinctHits;
    ShareOfArm(fts, id);
    ShareOfArm(vec, id);
    ScoreConcat(ArmNotes(fts), ArmNotes(vec), id);
  }

  lemma BoostIs(fold: Fold, q: string, fts: seq<Hit>, vec: seq<Hit>, id: string)
    ensures var e := ExplainFor(fold, q, fts, vec, id);
      Boost(fold, q, fts + vec, id) == e.typeWeight * e.titleBoost * e.officialBoost
  {
    hide TitleBoost, TypeWeight, Pick, TitleOf, KindOf, OfficialOf, ArmRank, ArmLabel, VecScore, FinalOf;
  }

  lemma RanksIn(fold: Fold, q: string, fts: seq<Hit>, vec: seq<Hit>, id: string)
    ensures var e := ExplainFor(fold, q, fts, vec, id); e.ftsRank == ArmRank(fts, id) && e.vecRank == ArmRank(vec, id)
  {
    hide TitleBoost, TypeWeight, Pick, TitleOf, KindOf, OfficialOf, ArmRank, ArmLabel, VecScore, FinalOf;
  }

  lemma ScoreIs(fold: Fold, q: string, fts: seq<Hit>, vec: seq<Hit>, id: string, i: nat)
    requires DistinctHits(fts) && DistinctHits(vec)
    ensures Scored(HitFor(fold, q, fts, vec, id, i), ExplainFor(fold, q, fts, vec, id))
  {
    hide ScoreOf, HybridNotes, FinalOf, ArmRank, DistinctHits, ExplainFor, HitFor, Boost, Share;
    Fields(fold, q, fts, vec, id, i);
    RanksIn(fold, q, fts, vec, id);
    BoostIs(fold, q, fts, vec, id);
    SharesAdd(fts, vec, id);
    FinalProduct(fold, q, fts, vec, id);
  }

  /** Every hit and its explanation are what the arms say of the id: where each arm ranks
      it, its title, type and official mark, the boosts these give, and, when no arm lists
      an id twice, the score they add up to. */
  lemma ExplanationExact(fold: Fold, q: string, fts: seq<Hit>, vec: seq<Hit>, limit: int, out: seq<Hit>, explains: seq<Explain>)
    requires IsHybrid(fold, q, fts, vec, limit, out, explains)
    ensures |out| == |explains|
    ensures forall i :: 0 <= i < |out| ==> Explained(fold, q, fts, vec, out[i], explains[i])
    ensures DistinctHits(fts) && DistinctHits(vec) ==> forall i :: 0 <= i < |out| ==> Scored(out[i], explains[i])
  {
    HybridShape(fold, q, fts, vec, limit, out, explains);
    hide FinalMap, SeenMap, HybridNotes, FinalOf, IsRanking, HitFor, ExplainFor, Has, LimitOf, Explained, Scored, DistinctHits,
      RankedByScore, Aligned;
    var r :| IsRanking(r, FinalMap(fold, q, fts, vec), SeenMap(HybridNotes(fts, vec))) && Lists_(fold, q, fts, vec, limit, r, out, explains);
    forall i | 0 <= i < |out|
      ensures Explained(fold, q, fts, vec, out[i], explains[i])
      ensures DistinctHits(fts) && DistinctHits(vec) ==> Scored(out[i], explains[i])
    {
      assert out[i] == HitFor(fold, q, fts, vec, r[i], i) && explains[i] == ExplainFor(fold, q, fts, vec, r[i]);
      HitForId(fold, q, fts, vec, r[i], i);
      assert Has(fts + vec, out[i].id);
      Presented(fold, q, fts, vec, r[i], i);
      if DistinctHits(fts) && DistinctHits(vec) {
        ScoreIs(fold, q, fts, vec, r[i], i);
      }
    }
  }

  // ---- what raises a hit

  /** What the two arms say of an id. */
  datatype Evidence = Evidence(ftsRank: nat, vecRank: nat, title: string, kind: string, official: bool)

  ghost predicate Says(fts: seq<Hit>, vec: seq<Hit>, id: string, e: Evidence) {
    && Has(fts + vec, id) && RankIn(fts, id, e.ftsRank) && RankIn(vec, id, e.vecRank)
    && TitleIn(fts + vec, id, e.title) && KindIn(fts + vec, id, e.kind)
    && (e.official <==> MarkedOfficial(fts + vec, id))
  }

  function Shares(e: Evidence): real {
    Share(e.ftsRank) + Share(e.vecRank)
  }

  /** `a` is nowhere behind `b`, given the boosts of their titles, and somewhere ahead. */
  predicate Better(a: Evidence, titleA: real, b: Evidence, titleB: real) {
    && Shares(a) >= Shares(b) && titleA >= titleB && (Canonical(b.kind) ==> Canonical(a.kind)) && (b.official ==> a.official)
    && (|| Shares(a) > Shares(b) || titleA > titleB || (Canonical(a.kind) && !Canonical(b.kind)) || (a.official && !b.official))
  }

  lemma EvidenceIs(fts: seq<Hit>, vec: seq<Hit>, id: string, e: Evidence)
    requires Says(fts, vec, id, e)
    ensures e == Evidence(ArmRank(fts, id), ArmRank(vec, id), TitleOf(fts + vec, id), KindOf(fts + vec, id), OfficialOf(fts + vec, id))
  {
    var hits := fts + vec;
    OneRank(fts, id, e.ftsRank);
    OneRank(vec, id, e.vecRank);
    TitleIs(hits, id);
    KindIs(hits, id);
    OfficialIs(hits, id);
    OneTitle(hits, id, e.title, TitleOf(hits, id));
    OneKind(hits, id, e.kind, KindOf(hits, id));
    hide RankIn, TitleIn, KindIn, MarkedOfficial, TitleOf, KindOf, OfficialOf, ArmRank;
  }

  lemma OneRank(hits: seq<Hit>, id: string, rank: nat)
    requires RankIn(hits, id, rank)
    ensures rank == ArmRank(hits, id)
  {
    RankIs(hits, id);
    hide ArmRank;
  }

  lemma OneTitle(hits: seq<Hit>, id: string, a: string, b: string)
    requires TitleIn(hits, id, a) && TitleIn(hits, id, b)
    ensures a == b
  {
  }

  lemma OneKind(hits: seq<Hit>, id: string, a: string, b: string)
    requires KindIn(hits, id, a) && KindIn(hits, id, b)
    ensures a == b
  {
    if a != "" {
      var i :| 0 <= i < |hits| && hits[i].id == id && hits[i].kind == a && forall j :: i < j < |hits| && hits[j].id == id ==> hits[j].kind == "";
      assert hits[i] in hits;
    }
  }

  lemma OneBoost(fold: Fold, q: string, title: string, boost: real)
    requires BoostedTitle(fold, q, title, boost)
    ensures boost == TitleBoost(fold, q, title)
  {
    TitleBoostIs(fold, q, title);
    hide TitleBoost;
  }

  lemma FinalFromEvidence(fold: Fold, q: string, fts: seq<Hit>, vec: seq<Hit>, id: string, e: Evidence, title: real)
    requires DistinctHits(fts) && DistinctHits(vec) && Says(fts, vec, id, e) && BoostedTitle(fold, q, e.title, title)
    ensures FinalOf(fold, q, fts, vec, id) ==
      Shares(e) * ((if Canonical(e.kind) then 1.15 else 1.0) * title * (if e.official then 1.15 else 1.0))
    ensures Shares(e) > 0.0 && title >= 1.0
  {
    hide ScoreOf, HybridNotes, FinalOf, DistinctHits, Says, BoostedTitle, ArmRank, TitleOf, KindOf, OfficialOf, TitleBoost, Has, Share;
    EvidenceIs(fts, vec, id, e);
    OneBoost(fold, q, e.title, title);
    TitleBoostBounds(fold, q, e.title);
    SharesAdd(fts, vec, id);
    FinalProduct(fold, q, fts, vec, id);
    SaysHas(fts, vec, id, e);
    SomewhereRanked(fts, vec, id);
    ShareSigns(e);
  }

  lemma SaysHas(fts: seq<Hit>, vec: seq<Hit>, id: string, e: Evidence)
    requires Says(fts, vec, id, e)
    ensures Has(fts + vec, id)
  {
  }

  lemma ShareSigns(e: Evidence)
    ensures Shares(e) >= 0.0
    ensures e.ftsRank > 0 || e.vecRank > 0 ==> Shares(e) > 0.0
  {
    assert Share(e.ftsRank) >= 0.0 && Share(e.vecRank) >= 0.0;
  }

  lemma ProductGrows(x: real, y: real, u: real, v: real)
    requires x >= u > 0.0 && y >= v > 0.0
    ensures x * y >= u * v > 0.0
    ensures x > u || y > v ==> x * y > u * v
  {
    assert x * y - u * v == (x - u) * y + u * (y - v);
  }

  lemma BetterScoresMore(fold: Fold, q: string, fts: seq<Hit>, vec: seq<Hit>, a: string, ea: Evidence, ta: real, b: string, eb: Evidence, tb: real)
    requires DistinctHits(fts) && DistinctHits(vec) && Says(fts, vec, a, ea) && Says(fts, vec, b, eb)
    requires BoostedTitle(fold, q, ea.title, ta) && BoostedTitle(fold, q, eb.title, tb) && Better(ea, ta, eb, tb)
    ensures FinalOf(fold, q, fts, vec, a) > FinalOf(fold, q, fts, vec, b)
  {
    hide FinalOf, DistinctHits, Says, BoostedTitle, Canonical, Shares;
    FinalFromEvidence(fold, q, fts, vec, a, ea, ta);
    FinalFromEvidence(fold, q, fts, vec, b, eb, tb);
    var wa, wb := if Canonical(ea.kind) then 1.15 else 1.0, if Canonical(eb.kind) then 1.15 else 1.0;
    var oa, ob := if ea.official then 1.15 else 1.0, if eb.official then 1.15 else 1.0;
    ProductGrows(wa, ta, wb, tb);
    ProductGrows(wa * ta, oa, wb * tb, ob);
    ProductGrows(Shares(ea), wa * ta * oa, Shares(eb), wb * tb * ob);
  }

  /** Of two ids, one that is nowhere behind, by its places in the arms, its title, its
      type or its official mark, and somewhere ahead, is ranked before the other. So is an
      official id before one that is its like in everything else. */
  lemma BetterIsRankedFirst(fold: Fold, q: string, fts: seq<Hit>, vec: seq<Hit>, limit: int, out: seq<Hit>, explains: seq<Explain>,
      a: string, ea: Evidence, ta: real, j: nat, eb: Evidence, tb: real) returns (i: nat)
    requires IsHybrid(fold, q, fts, vec, limit, out, explains) && j < |out| && DistinctHits(fts) && DistinctHits(vec)
    requires Says(fts, vec, a, ea) && Says(fts, vec, out[j].id, eb)
    requires BoostedTitle(fold, q, ea.title, ta) && BoostedTitle(fold, q, eb.title, tb) && Better(ea, ta, eb, tb)
    ensures i < j && out[i].id == a
  {
    var final, seen := FinalMap(fold, q, fts, vec), SeenMap(HybridNotes(fts, vec));
    hide FinalMap, SeenMap, HybridNotes, FinalOf, Before, HitFor, ExplainFor, DistinctHits, Says, Better, BoostedTitle, Has;
    var r :| IsRanking(r, final, seen) && Lists_(fold, q, fts, vec, limit, r, out, explains);
    var b := out[j].id;
    assert out[j] == HitFor(fold, q, fts, vec, r[j], j);
    HitForId(fold, q, fts, vec, r[j], j);
    assert r[j] == b && b in r;
    BetterScoresMore(fold, q, fts, vec, a, ea, ta, b, eb, tb);
    SaysHas(fts, vec, a, ea);
    FinalAt(fold, q, fts, vec, b);
    FinalHas(fold, q, fts, vec, a);
    FinalAt(fold, q, fts, vec, a);
    assert a in r;
    i :| 0 <= i < |r| && r[i] == a;
    GreaterFirst(r, final, seen, i, j);
    assert out[i] == HitFor(fold, q, fts, vec, r[i], i);
    HitForId(fold, q, fts, vec, r[i], i);
  }
}
