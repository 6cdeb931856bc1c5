/** fuse: the similarity signals merged, with the reasons each id was found for
    (internal/similar/dispatch.go). */
module FusionSimilar {
  import opened Strings
  import opened Fusion
  import opened FusionHybrid
  import opened FusionLists

  datatype SimilarHit = SimilarHit(hit: Hit, why: seq<string>)

  const FUSION_RRF_K := 60

  function HitsIn(list: seq<SimilarHit>): (hits: seq<Hit>)
    ensures |hits| == |list|
  {
    seq(|list|, i requires 0 <= i < |list| => list[i].hit)
  }

  function ListsOf(lists: seq<seq<SimilarHit>>): (r: seq<seq<Hit>>)
    ensures |r| == |lists|
  {
    seq(|lists|, i requires 0 <= i < |lists| => HitsIn(lists[i]))
  }

  /** A reason some list gives for the id. */
  ghost predicate Reason(lists: seq<seq<SimilarHit>>, id: string, w: string) {
    exists i, j :: 0 <= i < |lists| && 0 <= j < |lists[i]| && lists[i][j].hit.id == id && w in lists[i][j].why
  }

  // ---- the reasons

  function GetReasons(why: map<string, set<string>>, id: string): set<string> {
    if id in why then why[id] else {}
  }

  /** The reasons of the lists before `i` and of the first `j` hits of list `i`. */
  ghost predicate ReasonUpTo(lists: seq<seq<SimilarHit>>, i: nat, j: nat, id: string, w: string) {
    exists l, m :: 0 <= l < |lists| && 0 <= m < |lists[l]| && (l < i || (l == i && m < j)) &&
      lists[l][m].hit.id == id && w in lists[l][m].why
  }

  ghost predicate ReasonsOk(why: map<string, set<string>>, lists: seq<seq<SimilarHit>>, i: nat, j: nat) {
    forall id, w :: w in GetReasons(why, id) <==> ReasonUpTo(lists, i, j, id, w)
  }

  lemma ReasonNext(lists: seq<seq<SimilarHit>>, i: nat, j: nat, id: string, w: string)
    requires i < |lists| && j < |lists[i]|
    ensures ReasonUpTo(lists, i, j + 1, id, w) <==>
      ReasonUpTo(lists, i, j, id, w) || (lists[i][j].hit.id == id && w in lists[i][j].why)
  {
  }

  lemma ReasonNextList(lists: seq<seq<SimilarHit>>, i: nat, id: string, w: string)
    requires i < |lists|
    ensures ReasonUpTo(lists, i + 1, 0, id, w) <==> ReasonUpTo(lists, i, |lists[i]|, id, w)
  {
  }

  function AllOf(words: seq<string>): set<string> {
    set i | 0 <= i < |words| :: words[i]
  }

  lemma ReasonsStep(why: map<string, set<string>>, lists: seq<seq<SimilarHit>>, i: nat, j: nat)
    requires i < |lists| && j < |lists[i]| && ReasonsOk(why, lists, i, j)
    ensures
      var h := lists[i][j];
      ReasonsOk(why[h.hit.id := GetReasons(why, h.hit.id) + AllOf(h.why)], lists, i, j + 1)
  {
    var h := lists[i][j];
    var after := why[h.hit.id := GetReasons(why, h.hit.id) + AllOf(h.why)];
    hide ReasonUpTo;
    forall id, w ensures w in GetReasons(after, id) <==> ReasonUpTo(lists, i, j + 1, id, w) {
      ReasonNext(lists, i, j, id, w);
      assert w in GetReasons(why, id) <==> ReasonUpTo(lists, i, j, id, w);
      assert w in AllOf(h.why) <==> w in h.why;
    }
  }

  lemma ReasonsNextList(why: map<string, set<string>>, lists: seq<seq<SimilarHit>>, i: nat)
    requires i < |lists| && ReasonsOk(why, lists, i, |lists[i]|)
    ensures ReasonsOk(why, lists, i + 1, 0)
  {
    hide ReasonUpTo;
    forall id, w ensures w in GetReasons(why, id) <==> ReasonUpTo(lists, i + 1, 0, id, w) {
      ReasonNextList(lists, i, id, w);
      assert w in GetReasons(why, id) <==> ReasonUpTo(lists, i, |lists[i]|, id, w);
    }
  }

  lemma AllReasons(why: map<string, set<string>>, lists: seq<seq<SimilarHit>>)
    requires ReasonsOk(why, lists, |lists|, 0)
    ensures forall id, w :: w in GetReasons(why, id) <==> Reason(lists, id, w)
  {
    forall id, w ensures w in GetReasons(why, id) <==> Reason(lists, id, w) {
      assert w in GetReasons(why, id) <==> ReasonUpTo(lists, |lists|, 0, id, w);
      SameReason(lists, id, w);
      hide ReasonUpTo, Reason, GetReasons;
    }
  }

  lemma SameReason(lists: seq<seq<SimilarHit>>, id: string, w: string)
    ensures ReasonUpTo(lists, |lists|, 0, id, w) <==> Reason(lists, id, w)
  {
    if Reason(lists, id, w) {
      var i, j :| 0 <= i < |lists| && 0 <= j < |lists[i]| && lists[i][j].hit.id == id && w in lists[i][j].why;
      assert i < |lists|;
    }
  }

  // ---- the fusion

  ghost predicate SortedReasons(words: seq<string>, lists: seq<seq<SimilarHit>>, id: string) {
    StrictlySorted(words) && forall w :: w in words <==> Reason(lists, id, w)
  }

  function PlainHits(out: seq<SimilarHit>): (hits: seq<Hit>)
    ensures |hits| == |out|
  {
    HitsIn(out)
  }

  ghost predicate IsFused(lists: seq<seq<SimilarHit>>, r: seq<string>, out: seq<SimilarHit>) {
    && RanksTotals(FUSION_RRF_K, Concat(ListsOf(lists)), r)
    && FusesAs(FUSION_RRF_K, Concat(ListsOf(lists)), |r|, r, PlainHits(out))
    && forall i :: 0 <= i < |out| && i < |r| ==> SortedReasons(out[i].why, lists, r[i])
  }

  method SeeSignals(lists: seq<seq<SimilarHit>>) returns (t: ListTables, why: map<string, set<string>>)
    ensures t.Valid() && t.k == FUSION_RRF_K && t.hits == Concat(ListsOf(lists))
    ensures forall id, w :: w in GetReasons(why, id) <==> Reason(lists, id, w)
  {
    hide ListTables.Valid, ReasonsOk, GetReasons, Reason, HitsIn;
    t := new ListTables(FUSION_RRF_K);
    why := map[];
    NoReasons(lists);
    assert ListsOf(lists)[..0] == [];
    for i := 0 to |lists|
      invariant t.Valid() && t.k == FUSION_RRF_K && t.hits == Concat(ListsOf(lists)[..i]) && fresh(t) && fresh(t.tally)
      invariant ReasonsOk(why, lists, i, 0)
    {
      why := SeeSignal(lists, i, t, why);
      ReasonsNextList(why, lists, i);
      ConcatNext(ListsOf(lists), i);
    }
    assert ListsOf(lists)[..|lists|] == ListsOf(lists);
    AllReasons(why, lists);
  }

  lemma NoReasons(lists: seq<seq<SimilarHit>>)
    ensures ReasonsOk(map[], lists, 0, 0)
  {
  }

  method SeeSignal(lists: seq<seq<SimilarHit>>, i: nat, t: ListTables, was: map<string, set<string>>) returns (why: map<string, set<string>>)
    requires i < |lists| && t.Valid() && ReasonsOk(was, lists, i, 0)
    modifies t, t.tally
    ensures t.Valid() && t.hits == old(t.hits) + HitsIn(lists[i])
    ensures ReasonsOk(why, lists, i, |lists[i]|)
  {
    hide ListTables.Valid, ReasonsOk;
    why := was;
    for j := 0 to |lists[i]|
      invariant t.Valid() && t.hits == old(t.hits) + HitsIn(lists[i])[..j]
      invariant ReasonsOk(why, lists, i, j)
    {
      var h := lists[i][j];
      t.See(h.hit);
      ReasonsStep(why, lists, i, j);
      why := why[h.hit.id := GetReasons(why, h.hit.id) + AllOf(h.why)];
    }
  }

  /** The fused hits follow some ranking of the totals. */
  ghost predicate FusesTo(lists: seq<seq<SimilarHit>>, out: seq<SimilarHit>) {
    exists r :: IsFused(lists, r, out)
  }

  method Fuse(lists: seq<seq<SimilarHit>>) returns (out: seq<SimilarHit>)
    ensures FusesTo(lists, out)
  {
    hide ListTables.Valid, Injective, IsRanking, TotalMap, SeenMap, ListNotes, FusedHit, Concat, Reason, HitsIn, ListsOf, SortedReasons;
    var t, why := SeeSignals(lists);
    TablesRank(t);
    var ids := Rank(t.tally.scores, t.tally.firstSeen);
    assert RanksTotals(FUSION_RRF_K, Concat(ListsOf(lists)), ids);
    RankedIds(t, ids);
    out := ShowSignals(lists, t, why, ids);
    assert IsFused(lists, ids, out);
  }

  method ShowSignals(lists: seq<seq<SimilarHit>>, t: ListTables, why: map<string, set<string>>, ids: seq<string>) returns (out: seq<SimilarHit>)
    requires t.Valid() && t.k == FUSION_RRF_K && t.hits == Concat(ListsOf(lists))
    requires forall id, w :: w in GetReasons(why, id) <==> Reason(lists, id, w)
    requires forall i :: 0 <= i < |ids| ==> ids[i] in t.tally.scores
    ensures |out| == |ids| && FusesAs(FUSION_RRF_K, Concat(ListsOf(lists)), |ids|, ids, PlainHits(out))
    ensures forall i :: 0 <= i < |out| ==> SortedReasons(out[i].why, lists, ids[i])
  {
    hide ListTables.Valid, FusedHit, Concat, GetReasons, ListsOf, Reason, StrictlySorted, SortedReasons;
    out := [];
    for i := 0 to |ids|
      invariant |out| == i
      invariant forall j :: 0 <= j < i ==> out[j].hit == FusedHit(FUSION_RRF_K, t.hits, ids[j], j)
      invariant forall j :: 0 <= j < i ==> SortedReasons(out[j].why, lists, ids[j])
    {
      var h := PresentHit(t, ids[i], i);
      var words := SortStrings(GetReasons(why, ids[i]));
      ReasonsSorted(words, lists, ids[i]);
      out := out + [SimilarHit(h, words)];
    }
  }

  lemma ReasonsSorted(words: seq<string>, lists: seq<seq<SimilarHit>>, id: string)
    requires StrictlySorted(words) && forall w :: w in words <==> Reason(lists, id, w)
    ensures SortedReasons(words, lists, id)
  {
    hide StrictlySorted, Reason;
  }

  /** Nothing of a map's iteration order shows, in the hits or in the reasons. */
  lemma FusedUnique(lists: seq<seq<SimilarHit>>, out: seq<SimilarHit>, out': seq<SimilarHit>)
    requires FusesTo(lists, out) && FusesTo(lists, out')
    ensures out == out'
  {
    var r :| IsFused(lists, r, out);
    var r' :| IsFused(lists, r', out');
    hide RanksTotals, Concat, ListsOf, SortedReasons, FusedHit;
    SameRanking(lists, r, r');
    assert |PlainHits(out)| == |r| && |PlainHits(out')| == |r|;
    forall i | 0 <= i < |out| ensures out[i] == out'[i] {
      assert PlainHits(out)[i] == PlainHits(out')[i];
      SameReasons(out[i].why, out'[i].why, lists, r[i]);
    }
  }

  lemma SameRanking(lists: seq<seq<SimilarHit>>, r: seq<string>, r': seq<string>)
    requires RanksTotals(FUSION_RRF_K, Concat(ListsOf(lists)), r) && RanksTotals(FUSION_RRF_K, Concat(ListsOf(lists)), r')
    ensures r == r'
  {
    var hits := Concat(ListsOf(lists));
    SeenKeys(FUSION_RRF_K, hits);
    hide TotalMap, SeenMap, IsRanking, Injective, Concat;
    RankingUnique(r, r', TotalMap(FUSION_RRF_K, hits), SeenMap(ListNotes(FUSION_RRF_K, hits)));
  }

  lemma SameReasons(a: seq<string>, b: seq<string>, lists: seq<seq<SimilarHit>>, id: string)
    requires SortedReasons(a, lists, id) && SortedReasons(b, lists, id)
    ensures a == b
  {
    hide StrictlySorted, Reason;
    SortedUnique(a, b);
  }

  ghost predicate Shaped(hits: seq<Hit>) {
    && (forall i :: 0 <= i < |hits| ==> hits[i].rank == i + 1)
    && forall i, j :: 0 <= i < j < |hits| ==> hits[i].score >= hits[j].score && hits[i].id != hits[j].id
  }

  lemma PlainShaped(lists: seq<seq<SimilarHit>>, r: seq<string>, out: seq<SimilarHit>)
    requires IsFused(lists, r, out)
    ensures Shaped(PlainHits(out))
  {
    hide RanksTotals, Concat, ListsOf, SortedReasons, FusesAs, PlainHits;
    FusionShape(FUSION_RRF_K, Concat(ListsOf(lists)), |r|, r, PlainHits(out));
  }

  lemma ShapedOut(out: seq<SimilarHit>)
    requires Shaped(PlainHits(out))
    ensures forall i :: 0 <= i < |out| ==> out[i].hit.rank == i + 1
    ensures forall i, j :: 0 <= i < j < |out| ==> out[i].hit.score >= out[j].hit.score && out[i].hit.id != out[j].hit.id
  {
    var hits := PlainHits(out);
    assert forall i :: 0 <= i < |out| ==> hits[i] == out[i].hit;
    hide PlainHits, HitsIn;
  }

  /** Contiguous ranks, scores that never rise, no id twice. */
  lemma FusedShape(lists: seq<seq<SimilarHit>>, out: seq<SimilarHit>)
    requires FusesTo(lists, out)
    ensures forall i :: 0 <= i < |out| ==> out[i].hit.rank == i + 1
    ensures forall i, j :: 0 <= i < j < |out| ==> out[i].hit.score >= out[j].hit.score && out[i].hit.id != out[j].hit.id
  {
    var r :| IsFused(lists, r, out);
    hide IsFused, Shaped, PlainHits;
    PlainShaped(lists, r, out);
    ShapedOut(out);
  }

  lemma FusedRespectsLists(lists: seq<seq<SimilarHit>>, out: seq<SimilarHit>, a: string, j: nat) returns (i: nat)
    requires FusesTo(lists, out) && j < |out|
    requires forall l :: 0 <= l < |lists| ==> RankedList(HitsIn(lists[l])) && AheadInList(HitsIn(lists[l]), a, out[j].hit.id)
    ensures i < j && out[i].hit.id == a
  {
    var r :| IsFused(lists, r, out);
    assert forall l :: 0 <= l < |lists| ==> ListsOf(lists)[l] == HitsIn(lists[l]);
    assert HitsIn(out)[j] == out[j].hit;
    hide RanksTotals, FusesAs, Concat, RankedList, AheadInList, ListsOf, SortedReasons;
    i := AheadComesFirst(FUSION_RRF_K, ListsOf(lists), |r|, r, PlainHits(out), a, j);
    assert PlainHits(out)[i] == out[i].hit;
  }
}
