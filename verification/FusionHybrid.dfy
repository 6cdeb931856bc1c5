/** hybridCore: the full-text and the vector arm fused (internal/query/hybrid.go). */
module FusionHybrid {
  import opened Wrappers
  import opened Fusion

  datatype Hit = Hit(id: string, title: string, kind: string, rank: nat, score: real, arm: string, official: bool)

  datatype Explain = Explain(
    ftsRank: nat, vecRank: nat, vecScore: real,
    typeWeight: real, titleBoost: real, officialBoost: real, finalScore: real, arm: string)

  const RRF_K := 60
  const TITLE_BOOST_WEIGHT := 0.5
  const OFFICIAL_BOOST := 1.15
  const VEC_SCORE_FLOOR := 0.05
  const DEFAULT_LIMIT := 20

  function TypeWeight(kind: string): real {
    if kind == "ApiEndpoint" || kind == "PacsMessage" || kind == "CamtMessage" then 1.15 else 1.0
  }

  /** Splits a text into comparable tokens; the folding itself is not modelled. */
  type Fold = string -> seq<string>

  function TokensOf(tokens: seq<string>): set<string> {
    set i | 0 <= i < |tokens| :: tokens[i]
  }

  /** One more than the weighted share of the query's distinct tokens that the title has. */
  function TitleBoost(fold: Fold, query: string, title: string): real {
    var q := TokensOf(fold(query));
    if q == {} then 1.0 else 1.0 + TITLE_BOOST_WEIGHT * (|q * TokensOf(fold(title))| as real) / (|q| as real)
  }

  function Pick(official: bool): real {
    if official then OFFICIAL_BOOST else 1.0
  }

  function ArmLabel(fts: bool, vec: bool): string {
    if fts && vec then "both" else if fts then "fts" else if vec then "vector" else ""
  }

  // ---- what each id is fused from

  function Gain(rank: nat): real {
    1.0 / (RRF_K + rank) as real
  }

  function ArmNotes(hits: seq<Hit>): (notes: seq<Note>)
    ensures |notes| == |hits|
  {
    seq(|hits|, i requires 0 <= i < |hits| => Note(hits[i].id, Gain(i)))
  }

  function HybridNotes(fts: seq<Hit>, vec: seq<Hit>): seq<Note> {
    ArmNotes(fts) + ArmNotes(vec)
  }

  function TitleOf(hits: seq<Hit>, id: string): string {
    if hits == [] then "" else if hits[0].id == id then hits[0].title else TitleOf(hits[1..], id)
  }

  /** The last type that is not empty. */
  function KindOf(hits: seq<Hit>, id: string): string {
    if hits == [] then ""
    else
      var last := hits[|hits| - 1];
      if last.id == id && last.kind != "" then last.kind else KindOf(hits[..|hits| - 1], id)
  }

  predicate OfficialOf(hits: seq<Hit>, id: string) {
    exists i :: 0 <= i < |hits| && hits[i].id == id && hits[i].official
  }

  /** One-based place in an arm, 0 when the arm does not list the id. */
  function ArmRank(hits: seq<Hit>, id: string): (rank: nat)
    ensures rank <= |hits| && (rank > 0 ==> hits[rank - 1].id == id)
  {
    if hits == [] then 0 else if hits[|hits| - 1].id == id then |hits| else ArmRank(hits[..|hits| - 1], id)
  }

  function VecScore(vec: seq<Hit>, id: string): real {
    var rank := ArmRank(vec, id);
    if rank == 0 then 0.0 else vec[rank - 1].score
  }

  datatype Boosts = Boosts(typeWeight: real, titleBoost: real, officialBoost: real)

  function BoostsOf(fold: Fold, q: string, hits: seq<Hit>, id: string): Boosts {
    Boosts(TypeWeight(KindOf(hits, id)), TitleBoost(fold, q, TitleOf(hits, id)), Pick(OfficialOf(hits, id)))
  }

  function Product(b: Boosts): real {
    b.typeWeight * b.titleBoost * b.officialBoost
  }

  function Boost(fold: Fold, q: string, hits: seq<Hit>, id: string): real {
    Product(BoostsOf(fold, q, hits, id))
  }

  // ---- the tables the loops fill

  function GetKind(kinds: map<string, string>, id: string): string {
    if id in kinds then kinds[id] else ""
  }

  function GetRank(ranks: map<string, nat>, id: string): nat {
    if id in ranks then ranks[id] else 0
  }

  function GetScore(scores: map<string, real>, id: string): real {
    if id in scores then scores[id] else 0.0
  }

  predicate Has(hits: seq<Hit>, id: string) {
    exists i :: 0 <= i < |hits| && hits[i].id == id
  }

  ghost predicate TitlesOk(titles: map<string, string>, hits: seq<Hit>) {
    forall id :: (id in titles <==> Has(hits, id)) && (id in titles ==> titles[id] == TitleOf(hits, id))
  }

  ghost predicate KindsOk(kinds: map<string, string>, hits: seq<Hit>) {
    forall id :: GetKind(kinds, id) == KindOf(hits, id)
  }

  ghost predicate OfficialOk(official: set<string>, hits: seq<Hit>) {
    forall id :: id in official <==> OfficialOf(hits, id)
  }

  ghost predicate RanksOk(ranks: map<string, nat>, hits: seq<Hit>) {
    forall id :: GetRank(ranks, id) == ArmRank(hits, id)
  }

  ghost predicate FromOk(from: set<string>, hits: seq<Hit>) {
    forall id :: id in from <==> ArmRank(hits, id) > 0
  }

  ghost predicate VecScoresOk(scores: map<string, real>, vec: seq<Hit>) {
    forall id :: GetScore(scores, id) == VecScore(vec, id)
  }

  lemma HasSnoc(hits: seq<Hit>, h: Hit, id: string)
    ensures Has(hits + [h], id) <==> Has(hits, id) || h.id == id
  {
    var all := hits + [h];
    assert all[|hits|] == h;
    if Has(hits, id) {
      var i :| 0 <= i < |hits| && hits[i].id == id;
      assert all[i].id == id;
    }
  }

  lemma {:induction false} TitleSnoc(hits: seq<Hit>, h: Hit, id: string)
    ensures TitleOf(hits + [h], id) == if Has(hits, id) then TitleOf(hits, id) else if h.id == id then h.title else ""
  {
    if hits == [] {
      assert hits + [h] == [h] && [h][1..] == [];
    } else {
      var all := hits + [h];
      assert all[0] == hits[0] && all[1..] == hits[1..] + [h];
      TitleSnoc(hits[1..], h, id);
      assert hits == [hits[0]] + hits[1..];
      if hits[0].id != id && Has(hits, id) {
        var i :| 0 <= i < |hits| && hits[i].id == id;
        assert hits[1..][i - 1].id == id;
      }
      if Has(hits[1..], id) {
        var i :| 0 <= i < |hits[1..]| && hits[1..][i].id == id;
        assert hits[i + 1].id == id;
      }
    }
  }

  lemma TitlesStep(titles: map<string, string>, hits: seq<Hit>, h: Hit)
    requires TitlesOk(titles, hits)
    ensures TitlesOk(if h.id in titles then titles else titles[h.id := h.title], hits + [h])
  {
    var after := if h.id in titles then titles else titles[h.id := h.title];
    forall id ensures (id in after <==> Has(hits + [h], id)) && (id in after ==> after[id] == TitleOf(hits + [h], id)) {
      HasSnoc(hits, h, id);
      TitleSnoc(hits, h, id);
      assert id in titles <==> Has(hits, id);
      hide Has, TitleOf;
    }
  }

  lemma KindSnoc(hits: seq<Hit>, h: Hit, id: string)
    ensures KindOf(hits + [h], id) == if h.id == id && h.kind != "" then h.kind else KindOf(hits, id)
  {
    assert (hits + [h])[..|hits|] == hits;
  }

  lemma KindsStep(kinds: map<string, string>, hits: seq<Hit>, h: Hit)
    requires KindsOk(kinds, hits)
    ensures KindsOk(if h.kind != "" then kinds[h.id := h.kind] else kinds, hits + [h])
  {
    var after := if h.kind != "" then kinds[h.id := h.kind] else kinds;
    forall id ensures GetKind(after, id) == KindOf(hits + [h], id) {
      KindSnoc(hits, h, id);
      assert GetKind(kinds, id) == KindOf(hits, id);
      hide KindOf;
    }
  }

  lemma OfficialStep(official: set<string>, hits: seq<Hit>, h: Hit)
    requires OfficialOk(official, hits)
    ensures OfficialOk(if h.official then official + {h.id} else official, hits + [h])
  {
    var all := hits + [h];
    assert all[|hits|] == h;
    forall id ensures OfficialOf(all, id) <==> OfficialOf(hits, id) || (h.official && h.id == id) {
      if OfficialOf(hits, id) {
        var i :| 0 <= i < |hits| && hits[i].id == id && hits[i].official;
        assert all[i].id == id && all[i].official;
      }
    }
    hide OfficialOf;
  }

  lemma RankSnoc(hits: seq<Hit>, h: Hit, id: string)
    ensures ArmRank(hits + [h], id) == if h.id == id then |hits| + 1 else ArmRank(hits, id)
  {
    assert (hits + [h])[..|hits|] == hits;
  }

  lemma RanksStep(ranks: map<string, nat>, from: set<string>, hits: seq<Hit>, h: Hit)
    requires ArmOk(from, ranks, hits)
    ensures ArmOk(from + {h.id}, ranks[h.id := |hits| + 1], hits + [h])
  {
    forall id
      ensures GetRank(ranks[h.id := |hits| + 1], id) == ArmRank(hits + [h], id)
      ensures id in from + {h.id} <==> ArmRank(hits + [h], id) > 0
    {
      RankSnoc(hits, h, id);
      assert GetRank(ranks, id) == ArmRank(hits, id);
      hide ArmRank;
    }
  }

  lemma VecScoresStep(scores: map<string, real>, vec: seq<Hit>, h: Hit)
    requires VecScoresOk(scores, vec)
    ensures VecScoresOk(scores[h.id := h.score], vec + [h])
  {
    forall id ensures GetScore(scores[h.id := h.score], id) == VecScore(vec + [h], id) {
      RankSnoc(vec, h, id);
      assert GetScore(scores, id) == VecScore(vec, id);
      hide ArmRank;
    }
  }

  lemma ArmNotesSnoc(hits: seq<Hit>, h: Hit)
    ensures ArmNotes(hits + [h]) == ArmNotes(hits) + [Note(h.id, Gain(|hits|))]
  {
    hide Gain;
  }

  ghost predicate NotedOk(titles: map<string, string>, kinds: map<string, string>, official: set<string>, hits: seq<Hit>) {
    TitlesOk(titles, hits) && KindsOk(kinds, hits) && OfficialOk(official, hits)
  }

  ghost predicate ArmOk(from: set<string>, ranks: map<string, nat>, hits: seq<Hit>) {
    RanksOk(ranks, hits) && FromOk(from, hits)
  }

  function NewTitles(titles: map<string, string>, h: Hit): map<string, string> {
    if h.id in titles then titles else titles[h.id := h.title]
  }

  function NewKinds(kinds: map<string, string>, h: Hit): map<string, string> {
    if h.kind != "" then kinds[h.id := h.kind] else kinds
  }

  function NewOfficial(official: set<string>, h: Hit): set<string> {
    if h.official then official + {h.id} else official
  }

  lemma NotedStep(titles: map<string, string>, kinds: map<string, string>, official: set<string>, hits: seq<Hit>, h: Hit)
    requires NotedOk(titles, kinds, official, hits)
    ensures NotedOk(NewTitles(titles, h), NewKinds(kinds, h), NewOfficial(official, h), hits + [h])
  {
    TitlesStep(titles, hits, h);
    KindsStep(kinds, hits, h);
    OfficialStep(official, hits, h);
    hide TitlesOk, KindsOk, OfficialOk;
  }

  /** The maps of hybridCore, with the hits seen so far. */
  class Tables {
    const tally: Tally
    var titles: map<string, string>
    var kinds: map<string, string>
    var official: set<string>
    var fromFts: set<string>
    var fromVec: set<string>
    var ftsRank: map<string, nat>
    var vecRank: map<string, nat>
    var vecScore: map<string, real>
    ghost var fts: seq<Hit>
    ghost var vec: seq<Hit>

    ghost predicate Valid()
      reads this, tally
    {
      && tally.Valid() && tally.notes == HybridNotes(fts, vec)
      && NotedOk(titles, kinds, official, fts + vec)
      && ArmOk(fromFts, ftsRank, fts) && ArmOk(fromVec, vecRank, vec) && VecScoresOk(vecScore, vec)
    }

    constructor ()
      ensures Valid() && fts == [] && vec == [] && fresh(tally)
    {
      tally := new Tally();
      titles, kinds, official, fromFts, fromVec := map[], map[], {}, {}, {};
      ftsRank, vecRank, vecScore, fts, vec := map[], map[], map[], [], [];
    }

    /** Title and type of a hit, and its share of the score. */
    method Note(h: Hit, rank: nat)
      requires tally.Valid()
      modifies this`titles, this`kinds, this`official, tally
      ensures forall hits :: NotedOk(old(titles), old(kinds), old(official), hits) ==> NotedOk(titles, kinds, official, hits + [h])
      ensures tally.Valid() && tally.notes == old(tally.notes) + [Fusion.Note(h.id, Gain(rank))]
    {
      forall hits | NotedOk(titles, kinds, official, hits)
        ensures NotedOk(NewTitles(titles, h), NewKinds(kinds, h), NewOfficial(official, h), hits + [h])
      {
        NotedStep(titles, kinds, official, hits, h);
      }
      hide NotedOk;
      if h.id !in titles {
        titles := titles[h.id := h.title];
      }
      if h.kind != "" {
        kinds := kinds[h.id := h.kind];
      }
      tally.Add(h.id, 1.0 / (RRF_K + rank) as real);
      if h.official {
        official := official + {h.id};
      }
    }

    method SeeFts(h: Hit, i: nat)
      requires Valid() && vec == [] && i == |fts|
      modifies this, tally
      ensures Valid() && fts == old(fts) + [h] && vec == []
    {
      hide NotedOk, ArmOk, VecScoresOk, HybridNotes, Gain;
      FtsStep(fts, h);
      RanksStep(ftsRank, fromFts, fts, h);
      Note(h, i);
      fromFts := fromFts + {h.id};
      ftsRank := ftsRank[h.id := i + 1];
      fts := fts + [h];
    }

    method SeeVec(h: Hit, i: nat)
      requires Valid() && i == |vec|
      modifies this, tally
      ensures Valid() && fts == old(fts) && vec == old(vec) + [h]
    {
      hide NotedOk, ArmOk, VecScoresOk, HybridNotes, Gain;
      VecStep(fts, vec, h);
      RanksStep(vecRank, fromVec, vec, h);
      VecScoresStep(vecScore, vec, h);
      Note(h, i);
      fromVec := fromVec + {h.id};
      vecRank := vecRank[h.id := i + 1];
      vecScore := vecScore[h.id := h.score];
      vec := vec + [h];
    }
  }

  lemma FtsStep(fts: seq<Hit>, h: Hit)
    ensures fts + [h] + [] == fts + [] + [h]
    ensures HybridNotes(fts + [h], []) == HybridNotes(fts, []) + [Fusion.Note(h.id, Gain(|fts|))]
  {
    ArmNotesSnoc(fts, h);
    assert ArmNotes([]) == [];
    hide ArmNotes, Gain;
  }

  lemma VecStep(fts: seq<Hit>, vec: seq<Hit>, h: Hit)
    ensures fts + (vec + [h]) == fts + vec + [h]
    ensures HybridNotes(fts, vec + [h]) == HybridNotes(fts, vec) + [Fusion.Note(h.id, Gain(|vec|))]
  {
    ArmNotesSnoc(vec, h);
    hide ArmNotes, Gain;
  }

  // ---- the result

  function FinalOf(fold: Fold, q: string, fts: seq<Hit>, vec: seq<Hit>, id: string): real {
    ScoreOf(HybridNotes(fts, vec), id) * Boost(fold, q, fts + vec, id)
  }

  function FinalMap(fold: Fold, q: string, fts: seq<Hit>, vec: seq<Hit>): map<string, real> {
    map id | id in Order(HybridNotes(fts, vec)) :: FinalOf(fold, q, fts, vec, id)
  }

  /** Where each id was first seen. */
  function SeenMap(notes: seq<Note>): map<string, nat> {
    map id | id in Order(notes) :: Place(Order(notes), id)
  }

  function Place(ids: seq<string>, id: string): (i: nat)
    requires id in ids
    ensures i < |ids| && ids[i] == id
  {
    if ids[0] == id then 0 else Place(ids[1..], id) + 1
  }

  function HitFor(fold: Fold, q: string, fts: seq<Hit>, vec: seq<Hit>, id: string, i: nat): Hit {
    Hit(id, TitleOf(fts + vec, id), KindOf(fts + vec, id), i + 1, FinalOf(fold, q, fts, vec, id),
      ArmLabel(ArmRank(fts, id) > 0, ArmRank(vec, id) > 0), OfficialOf(fts + vec, id))
  }

  function ExplainFor(fold: Fold, q: string, fts: seq<Hit>, vec: seq<Hit>, id: string): Explain {
    Explain(ArmRank(fts, id), ArmRank(vec, id), VecScore(vec, id), TypeWeight(KindOf(fts + vec, id)),
      TitleBoost(fold, q, TitleOf(fts + vec, id)), Pick(OfficialOf(fts + vec, id)), FinalOf(fold, q, fts, vec, id),
      ArmLabel(ArmRank(fts, id) > 0, ArmRank(vec, id) > 0))
  }

  function LimitOf(limit: int): nat {
    if limit <= 0 then DEFAULT_LIMIT else limit
  }

  function Least(a: nat, b: nat): nat {
    if a <= b then a else b
  }

  /** The hits and their explanations for the ranking `r`. */
  ghost predicate Lists_(fold: Fold, q: string, fts: seq<Hit>, vec: seq<Hit>, limit: int, r: seq<string>, out: seq<Hit>, explains: seq<Explain>) {
    && |out| == |explains| == Least(|r|, LimitOf(limit))
    && (forall i :: 0 <= i < |out| ==> out[i] == HitFor(fold, q, fts, vec, r[i], i))
    && forall i :: 0 <= i < |out| ==> explains[i] == ExplainFor(fold, q, fts, vec, r[i])
  }

  /** A result of the fusion of two arms, the vector arm without the hits below the
      floor. */
  ghost predicate IsHybrid(fold: Fold, q: string, fts: seq<Hit>, vec: seq<Hit>, limit: int, out: seq<Hit>, explains: seq<Explain>) {
    exists r ::
      && IsRanking(r, FinalMap(fold, q, fts, vec), SeenMap(HybridNotes(fts, vec)))
      && Lists_(fold, q, fts, vec, limit, r, out, explains)
  }

  function Kept(vec: seq<Hit>): seq<Hit> {
    if vec == [] then []
    else Kept(vec[..|vec| - 1]) + if vec[|vec| - 1].score >= VEC_SCORE_FLOOR then [vec[|vec| - 1]] else []
  }

  /** Exactly the hits at or above the floor are kept. */
  lemma {:induction false} KeptIs(vec: seq<Hit>)
    ensures forall h :: h in Kept(vec) <==> h in vec && h.score >= 0.05
  {
    if vec != [] {
      var init, last := vec[..|vec| - 1], vec[|vec| - 1];
      assert vec == init + [last];
      KeptIs(init);
    }
  }

  /** Drops the hits below the floor in place; the first `n` remain, in their order. */
  method FilterFloor(hits: array<Hit>) returns (n: nat)
    modifies hits
    ensures n <= hits.Length && hits[..n] == Kept(old(hits[..]))
    ensures forall h :: h in hits[..n] <==> h in old(hits[..]) && h.score >= VEC_SCORE_FLOOR
  {
    hide Kept;
    ghost var was := hits[..];
    NoneKept(was[..0]);
    n := 0;
    for i := 0 to hits.Length
      invariant n <= i
      invariant hits[..n] == Kept(was[..i])
      invariant forall k :: i <= k < hits.Length ==> hits[k] == was[k]
    {
      KeptNext(was, i);
      if hits[i].score >= VEC_SCORE_FLOOR {
        ghost var before := hits[..n];
        hits[n] := hits[i];
        assert hits[..n] == before;
        assert hits[..n + 1] == before + [was[i]];
        n := n + 1;
      }
    }
    assert was[..hits.Length] == was;
    KeptIs(was);
  }

  lemma NoneKept(vec: seq<Hit>)
    ensures vec == [] ==> Kept(vec) == []
  {
  }

  lemma KeptNext(vec: seq<Hit>, i: nat)
    requires i < |vec|
    ensures Kept(vec[..i + 1]) == Kept(vec[..i]) + if vec[i].score >= VEC_SCORE_FLOOR then [vec[i]] else []
  {
    assert vec[..i + 1][..i] == vec[..i];
  }

  // ---- titleBoost

  method Collect(tokens: seq<string>) returns (found: set<string>)
    ensures found == TokensOf(tokens)
  {
    found := {};
    for i := 0 to |tokens|
      invariant found == TokensOf(tokens[..i])
    {
      TokensNext(tokens, i);
      found := found + {tokens[i]};
    }
    assert tokens[..|tokens|] == tokens;
  }

  /** The distinct query tokens, and how many of them the title has. */
  method CountMatched(q: seq<string>, inTitle: set<string>) returns (seen: set<string>, matched: nat)
    ensures seen == TokensOf(q) && matched == |seen * inTitle|
  {
    seen, matched := {}, 0;
    for i := 0 to |q|
      invariant seen == TokensOf(q[..i]) && matched == |seen * inTitle|
    {
      TokensNext(q, i);
      hide TokensOf;
      if q[i] !in seen {
        MatchedNext(seen, inTitle, q[i]);
        seen := seen + {q[i]};
        if q[i] in inTitle {
          matched := matched + 1;
        }
      } else {
        assert seen + {q[i]} == seen;
      }
    }
    assert q[..|q|] == q;
  }

  lemma MatchedNext(seen: set<string>, inTitle: set<string>, x: string)
    requires x !in seen
    ensures |(seen + {x}) * inTitle| == |seen * inTitle| + if x in inTitle then 1 else 0
  {
    assert (seen + {x}) * inTitle == seen * inTitle + if x in inTitle then {x} else {};
  }

  method ComputeTitleBoost(fold: Fold, query: string, title: string) returns (boost: real)
    ensures boost == TitleBoost(fold, query, title)
  {
    var q := fold(query);
    if |q| == 0 {
      assert TokensOf(q) == {};
      return 1.0;
    }
    assert q[0] in TokensOf(q);
    hide TokensOf;
    var inTitle := Collect(fold(title));
    var seen, matched := CountMatched(q, inTitle);
    boost := 1.0 + TITLE_BOOST_WEIGHT * (matched as real) / (|seen| as real);
  }

  lemma TokensNext(tokens: seq<string>, i: nat)
    requires i < |tokens|
    ensures TokensOf(tokens[..i + 1]) == TokensOf(tokens[..i]) + {tokens[i]}
  {
    var all := tokens[..i + 1];
    assert forall j :: 0 <= j < i ==> all[j] == tokens[..i][j];
    assert all[i] == tokens[i];
  }

  /** The boost lies between one and one and a half, and is the latter exactly when the
      title has every token of a query that has any. */
  lemma TitleBoostBounds(fold: Fold, query: string, title: string)
    ensures 1.0 <= TitleBoost(fold, query, title) <= 1.5
    ensures TitleBoost(fold, query, title) == 1.5 <==> fold(query) != [] && TokensOf(fold(query)) <= TokensOf(fold(title))
  {
    var q, t := TokensOf(fold(query)), TokensOf(fold(title));
    if fold(query) == [] {
      assert q == {};
    } else {
      assert fold(query)[0] in q;
      Share(q, t);
      var part := (|q * t| as real) / (|q| as real);
      assert TITLE_BOOST_WEIGHT * (|q * t| as real) / (|q| as real) == TITLE_BOOST_WEIGHT * part;
    }
  }

  lemma Share(q: set<string>, t: set<string>)
    requires |q| > 0
    ensures 0.0 <= (|q * t| as real) / (|q| as real) <= 1.0
    ensures (|q * t| as real) / (|q| as real) == 1.0 <==> q <= t
  {
    Subset(q * t, q);
    assert q <= t <==> q * t == q;
    Ratio(|q * t|, |q|);
  }

  lemma Subset(a: set<string>, b: set<string>)
    requires a <= b
    ensures |a| <= |b| && (|a| == |b| <==> a == b)
  {
    assert b == a + (b - a);
    assert |b| == |a| + |b - a|;
  }

  lemma Ratio(m: nat, n: nat)
    requires m <= n && n > 0
    ensures 0.0 <= (m as real) / (n as real) <= 1.0
    ensures (m as real) / (n as real) == 1.0 <==> m == n
  {
    var x, y := m as real, n as real;
    assert (x / y) * y == x;
  }

  // ---- hybridCore

  /** The totals after the boosts, with the boosts for the explanations. */
  method ApplyBoosts(fold: Fold, q: string, t: Tables) returns (final: map<string, real>, boosts: map<string, Boosts>)
    requires t.Valid()
    ensures final == FinalMap(fold, q, t.fts, t.vec)
    ensures forall id :: id in final ==> id in boosts && boosts[id] == BoostsOf(fold, q, t.fts + t.vec, id)
  {
    hide Tables.Valid, Order, ScoreOf, HybridNotes, BoostsOf, Product, Boosted, FinalMap, FinalOf;
    var todo := t.tally.scores.Keys;
    final, boosts := map[], map[];
    Totals(t);
    NoneBoosted(fold, q, t.fts, t.vec);
    ghost var done: set<string> := {};
    while todo != {}
      invariant todo <= t.tally.scores.Keys && done == t.tally.scores.Keys - todo
      invariant Boosted(fold, q, t.fts, t.vec, final, boosts, done)
      decreases |todo|
    {
      SomeMember(todo);
      var id :| id in todo;
      todo := todo - {id};
      var b := ComputeBoosts(fold, q, t, id);
      var score := t.tally.scores[id];
      BoostedStep(fold, q, t.fts, t.vec, final, boosts, done, id, score, b);
      done := done + {id};
      boosts := boosts[id := b];
      final := final[id := score * Product(b)];
    }
    BoostedAll(fold, q, t.fts, t.vec, final, boosts, done);
  }

  lemma NoneBoosted(fold: Fold, q: string, fts: seq<Hit>, vec: seq<Hit>)
    ensures Boosted(fold, q, fts, vec, map[], map[], {})
  {
    hide BoostsOf, FinalOf;
  }

  /** The ids of `done` have their boosts and their final scores. */
  ghost predicate Boosted(fold: Fold, q: string, fts: seq<Hit>, vec: seq<Hit>, final: map<string, real>, boosts: map<string, Boosts>, done: set<string>) {
    && final.Keys == done && boosts.Keys == done
    && (forall id :: id in done ==> final[id] == FinalOf(fold, q, fts, vec, id))
    && forall id :: id in done ==> boosts[id] == BoostsOf(fold, q, fts + vec, id)
  }

  lemma BoostedStep(fold: Fold, q: string, fts: seq<Hit>, vec: seq<Hit>, final: map<string, real>, boosts: map<string, Boosts>, done: set<string>,
      id: string, score: real, b: Boosts)
    requires Boosted(fold, q, fts, vec, final, boosts, done)
    requires score == ScoreOf(HybridNotes(fts, vec), id) && b == BoostsOf(fold, q, fts + vec, id)
    ensures Boosted(fold, q, fts, vec, final[id := score * Product(b)], boosts[id := b], done + {id})
  {
    hide FinalOf, BoostsOf, ScoreOf, HybridNotes, Product;
    FinalIs(fold, q, fts, vec, id);
    var f, bs := final[id := score * Product(b)], boosts[id := b];
    assert f.Keys == done + {id} && bs.Keys == done + {id};
  }

  lemma FinalIs(fold: Fold, q: string, fts: seq<Hit>, vec: seq<Hit>, id: string)
    ensures FinalOf(fold, q, fts, vec, id) == ScoreOf(HybridNotes(fts, vec), id) * Product(BoostsOf(fold, q, fts + vec, id))
  {
    hide BoostsOf, ScoreOf, HybridNotes, Product;
  }

  lemma BoostedAll(fold: Fold, q: string, fts: seq<Hit>, vec: seq<Hit>, final: map<string, real>, boosts: map<string, Boosts>, done: set<string>)
    requires Boosted(fold, q, fts, vec, final, boosts, done)
    requires forall id :: id in done <==> id in Order(HybridNotes(fts, vec))
    ensures final == FinalMap(fold, q, fts, vec)
    ensures forall id :: id in final ==> id in boosts && boosts[id] == BoostsOf(fold, q, fts + vec, id)
  {
    hide FinalOf, BoostsOf, ScoreOf, HybridNotes, Order;
  }

  lemma Totals(t: Tables)
    requires t.Valid()
    ensures forall id :: id in t.tally.scores <==> id in Order(HybridNotes(t.fts, t.vec))
    ensures forall id :: id in t.tally.scores ==> t.tally.scores[id] == ScoreOf(HybridNotes(t.fts, t.vec), id)
  {
    hide Order, ScoreOf, HybridNotes, NotedOk, ArmOk, VecScoresOk;
  }

  method ComputeBoosts(fold: Fold, q: string, t: Tables, id: string) returns (b: Boosts)
    requires t.Valid() && id in t.tally.scores
    ensures b == BoostsOf(fold, q, t.fts + t.vec, id)
  {
    Noted(t, id);
    hide Tables.Valid, TitleBoost, TypeWeight, OfficialOf, KindOf, TitleOf;
    var tw := TypeWeight(GetKind(t.kinds, id));
    var tb := ComputeTitleBoost(fold, q, t.titles[id]);
    var ob := 1.0;
    if id in t.official {
      ob := OFFICIAL_BOOST;
    }
    b := Boosts(tw, tb, ob);
  }

  /** What the maps hold of an id that was seen. */
  lemma Noted(t: Tables, id: string)
    requires t.Valid() && id in t.tally.scores
    ensures id in t.titles && t.titles[id] == TitleOf(t.fts + t.vec, id)
    ensures GetKind(t.kinds, id) == KindOf(t.fts + t.vec, id)
    ensures id in t.official <==> OfficialOf(t.fts + t.vec, id)
    ensures GetRank(t.ftsRank, id) == ArmRank(t.fts, id) && GetRank(t.vecRank, id) == ArmRank(t.vec, id)
    ensures (id in t.fromFts <==> ArmRank(t.fts, id) > 0) && (id in t.fromVec <==> ArmRank(t.vec, id) > 0)
    ensures GetScore(t.vecScore, id) == VecScore(t.vec, id)
  {
    SeenIsHeld(t.fts, t.vec, id);
    hide Order, ScoreOf, HybridNotes, OfficialOf, KindOf, TitleOf, Has, ArmRank, VecScore;
  }

  lemma SeenIsHeld(fts: seq<Hit>, vec: seq<Hit>, id: string)
    ensures id in Order(HybridNotes(fts, vec)) <==> Has(fts + vec, id)
  {
    var notes, hits := HybridNotes(fts, vec), fts + vec;
    OrderIsByFirst(notes);
    assert forall i :: 0 <= i < |hits| ==> notes[i].id == hits[i].id;
    hide Order, Gain;
    assert |notes| == |hits|;
  }

  /** The positions the tally gave are those of the order of first sight. */
  lemma SeenIs(t: Tables)
    requires t.Valid()
    ensures t.tally.firstSeen == SeenMap(HybridNotes(t.fts, t.vec))
    ensures Injective(t.tally.firstSeen) && t.tally.firstSeen.Keys == t.tally.scores.Keys
  {
    t.tally.Distinguishes();
    var o := Order(HybridNotes(t.fts, t.vec));
    hide Order, ScoreOf, HybridNotes, NotedOk, ArmOk, VecScoresOk, Injective;
    forall id | id in o ensures t.tally.firstSeen[id] == Place(o, id) {
      assert o[Place(o, id)] == id;
    }
  }

  /** Both arms seen, the vector arm without the hits below the floor. */
  method Gather(ftsHits: seq<Hit>, vecHits: array<Hit>) returns (t: Tables)
    modifies vecHits
    ensures fresh(t) && fresh(t.tally) && t.Valid()
    ensures t.fts == ftsHits && t.vec == Kept(old(vecHits[..]))
  {
    hide Tables.Valid, Kept;
    var n := FilterFloor(vecHits);
    t := new Tables();
    for i := 0 to |ftsHits|
      invariant fresh(t) && fresh(t.tally) && t.Valid() && t.fts == ftsHits[..i] && t.vec == []
      invariant vecHits[..n] == Kept(old(vecHits[..]))
    {
      t.SeeFts(ftsHits[i], i);
    }
    assert ftsHits[..|ftsHits|] == ftsHits;
    for i := 0 to n
      invariant fresh(t) && fresh(t.tally) && t.Valid() && t.fts == ftsHits && t.vec == vecHits[..i]
      invariant vecHits[..n] == Kept(old(vecHits[..]))
    {
      t.SeeVec(vecHits[i], i);
    }
  }

  /** The fused hits and their explanations, side by side. */
  method HybridCore(fold: Fold, q: string, ftsHits: seq<Hit>, vecHits: array<Hit>, limit: int) returns (out: seq<Hit>, explains: seq<Explain>)
    modifies vecHits
    ensures IsHybrid(fold, q, ftsHits, Kept(old(vecHits[..])), limit, out, explains)
  {
    ghost var vec := Kept(vecHits[..]);
    hide Tables.Valid, Tally.Valid, Kept, FinalMap, SeenMap, HybridNotes, IsRanking, Injective, HitFor, ExplainFor, BoostsOf;
    var t := Gather(ftsHits, vecHits);
    var final, boosts := ApplyBoosts(fold, q, t);
    SeenIs(t);
    FinalKeys(fold, q, t);
    var r := Rank(final, t.tally.firstSeen);
    out, explains := Present(fold, q, t, final, boosts, r, limit);
    assert Lists_(fold, q, ftsHits, vec, limit, r, out, explains);
  }

  lemma FinalKeys(fold: Fold, q: string, t: Tables)
    requires t.Valid()
    ensures FinalMap(fold, q, t.fts, t.vec).Keys == t.tally.scores.Keys
  {
    Totals(t);
    hide Tables.Valid, Order, ScoreOf, HybridNotes, FinalOf;
  }

  /** The ranked ids as hits and explanations, up to the limit. */
  method Present(fold: Fold, q: string, t: Tables, final: map<string, real>, boosts: map<string, Boosts>, r: seq<string>, limit: int)
    returns (out: seq<Hit>, explains: seq<Explain>)
    requires t.Valid() && final == FinalMap(fold, q, t.fts, t.vec) && final.Keys == t.tally.scores.Keys
    requires forall id :: id in final ==> id in boosts && boosts[id] == BoostsOf(fold, q, t.fts + t.vec, id)
    requires forall id :: id in r <==> id in final
    ensures Lists_(fold, q, t.fts, t.vec, limit, r, out, explains)
  {
    hide Tables.Valid, FinalMap, BoostsOf, HitFor, ExplainFor;
    out, explains := [], [];
    var cap := limit;
    if cap <= 0 {
      cap := DEFAULT_LIMIT;
    }
    for i := 0 to |r|
      invariant |out| == |explains| == i <= cap
      invariant forall j :: 0 <= j < i ==> out[j] == HitFor(fold, q, t.fts, t.vec, r[j], j)
      invariant forall j :: 0 <= j < i ==> explains[j] == ExplainFor(fold, q, t.fts, t.vec, r[j])
    {
      if i >= cap {
        break;
      }
      assert r[i] in r;
      var hit, explain := PresentOne(fold, q, t, final, boosts, r[i], i);
      out := out + [hit];
      explains := explains + [explain];
    }
  }

  method PresentOne(fold: Fold, q: string, t: Tables, final: map<string, real>, boosts: map<string, Boosts>, id: string, i: nat)
    returns (hit: Hit, explain: Explain)
    requires t.Valid() && final == FinalMap(fold, q, t.fts, t.vec) && id in final && id in t.tally.scores
    requires id in boosts && boosts[id] == BoostsOf(fold, q, t.fts + t.vec, id)
    ensures hit == HitFor(fold, q, t.fts, t.vec, id, i) && explain == ExplainFor(fold, q, t.fts, t.vec, id)
  {
    Noted(t, id);
    hide Tables.Valid, TitleBoost, TypeWeight, OfficialOf, KindOf, TitleOf, ArmRank, FinalOf, Order, ScoreOf, HybridNotes;
    var arm := ArmLabel(id in t.fromFts, id in t.fromVec);
    hit := Hit(id, t.titles[id], GetKind(t.kinds, id), i + 1, final[id], arm, id in t.official);
    explain := Explain(GetRank(t.ftsRank, id), GetRank(t.vecRank, id), GetScore(t.vecScore, id),
      boosts[id].typeWeight, boosts[id].titleBoost, boosts[id].officialBoost, final[id], arm);
  }
}
