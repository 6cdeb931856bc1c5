/** What each hit fused from ranked lists says, read off the lists: MultiHybrid and the
    similarity signals. */
module FusionTotals {
  import opened Wrappers
  import opened Strings
  import opened Fusion
  import opened FusionHybrid
  import opened FusionLists
  import opened FusionMulti
  import opened FusionSimilar

  /** What a list adds to an id: one over `k` and the rank of its hit, nothing when it has
      none. */
  ghost predicate Adds(k: nat, list: seq<Hit>, id: string, share: real)
    requires k > 0
  {
    if Has(list, id) then exists h :: h in list && h.id == id && share == 1.0 / (k + h.rank) as real
    else share == 0.0
  }

  function Sum(shares: seq<real>): real {
    if shares == [] then 0.0 else Sum(shares[..|shares| - 1]) + shares[|shares| - 1]
  }

  /** The hit is the first of its id in all the lists, but for the rank and the score, which
      is the sum of what the lists add. */
  ghost predicate Fused(k: nat, lists: seq<seq<Hit>>, h: Hit)
    requires k > 0
  {
    && (exists shares :: SharesOf(k, lists, h.id, shares) && h.score == Sum(shares))
    && exists l: nat, m: nat :: FirstAt(lists, h.id, l, m) && h == lists[l][m].(rank := h.rank, score := h.score)
  }

  ghost predicate SharesOf(k: nat, lists: seq<seq<Hit>>, id: string, shares: seq<real>)
    requires k > 0
  {
    |shares| == |lists| && forall l :: 0 <= l < |lists| ==> Adds(k, lists[l], id, shares[l])
  }

  /** The id is first seen as hit `m` of list `l`. */
  ghost predicate FirstAt(lists: seq<seq<Hit>>, id: string, l: nat, m: nat) {
    && l < |lists| && m < |lists[l]| && lists[l][m].id == id
    && (forall j :: 0 <= j < m ==> lists[l][j].id != id)
    && forall i :: 0 <= i < l ==> !Has(lists[i], id)
  }

  // ---- scores

  lemma OneShare(k: nat, list: seq<Hit>, id: string)
    requires k > 0 && RankedList(list)
    ensures Adds(k, list, id, ScoreOf(ListNotes(k, list), id))
  {
    var notes := ListNotes(k, list);
    ListFalls(k, list);
    ScoreInList(notes, id);
    assert forall i :: 0 <= i < |notes| ==> notes[i].id == list[i].id && notes[i].gain == 1.0 / (k + list[i].rank) as real;
    hide ScoreOf, ListNotes, RankedList, Falling;
    if Has(list, id) {
      var i :| 0 <= i < |list| && list[i].id == id;
      assert notes[i].id == id;
      assert Lists(notes, id);
      assert list[First(notes, id)] in list;
    } else {
      FirstIsNone(notes, id);
    }
  }

  lemma {:induction false} AllShares(k: nat, lists: seq<seq<Hit>>, id: string) returns (shares: seq<real>)
    requires k > 0 && forall l :: 0 <= l < |lists| ==> RankedList(lists[l])
    ensures SharesOf(k, lists, id, shares) && ScoreOf(ListNotes(k, Concat(lists)), id) == Sum(shares)
    decreases |lists|
  {
    hide ScoreOf, ListNotes, RankedList, Adds;
    if lists == [] {
      shares := [];
      assert ListNotes(k, Concat(lists)) == [];
      NothingScored(id);
    } else {
      var init, last := lists[..|lists| - 1], lists[|lists| - 1];
      var before := AllShares(k, init, id);
      var share := ScoreOf(ListNotes(k, last), id);
      OneShare(k, last, id);
      NotesConcat(k, Concat(init), last);
      ScoreConcat(ListNotes(k, Concat(init)), ListNotes(k, last), id);
      shares := before + [share];
      assert shares[..|before|] == before;
    }
  }

  // ---- first hits

  lemma {:induction false} FirstHitInLists(lists: seq<seq<Hit>>, id: string) returns (l: nat, m: nat)
    requires Has(Concat(lists), id)
    ensures FirstAt(lists, id, l, m) && FirstHit(Concat(lists), id) == Some(lists[l][m])
    decreases |lists|
  {
    hide Concat;
    HasInConcat(lists, id);
    var init, last := lists[..|lists| - 1], lists[|lists| - 1];
    ConcatLast(lists);
    FirstHitConcat(Concat(init), last, id);
    FirstHitIs(Concat(init), id);
    HasInConcat(init, id);
    if Has(Concat(init), id) {
      l, m := FirstHitInLists(init, id);
    } else {
      l := |init|;
      assert Has(last, id) by {
        var i :| 0 <= i < |lists| && Has(lists[i], id);
        assert i < |init| ==> Has(init[i], id);
      }
      m := FirstHitInList(last, id);
      assert forall i :: 0 <= i < l ==> lists[i] == init[i];
    }
  }

  lemma ConcatLast(lists: seq<seq<Hit>>)
    ensures lists == [] ==> Concat(lists) == []
    ensures lists != [] ==> Concat(lists) == Concat(lists[..|lists| - 1]) + lists[|lists| - 1]
  {
  }

  lemma {:induction false} FirstHitConcat(a: seq<Hit>, b: seq<Hit>, id: string)
    ensures FirstHit(a + b, id) == if FirstHit(a, id).Some? then FirstHit(a, id) else FirstHit(b, id)
  {
    if a == [] {
      assert a + b == b;
    } else {
      assert (a + b)[1..] == a[1..] + b;
      FirstHitConcat(a[1..], b, id);
    }
  }

  lemma {:induction false} FirstHitInList(list: seq<Hit>, id: string) returns (m: nat)
    requires Has(list, id)
    ensures m < |list| && list[m].id == id && FirstHit(list, id) == Some(list[m])
    ensures forall j :: 0 <= j < m ==> list[j].id != id
  {
    if list[0].id == id {
      m := 0;
    } else {
      var i :| 0 <= i < |list| && list[i].id == id;
      assert list[1..][i - 1].id == id;
      var k := FirstHitInList(list[1..], id);
      m := k + 1;
      assert forall j :: 1 <= j < m ==> list[j] == list[1..][j - 1];
    }
  }

  // ---- the two fusions

  lemma FusedExactly(k: nat, lists: seq<seq<Hit>>, cap: nat, r: seq<string>, out: seq<Hit>)
    requires k > 0 && RanksTotals(k, Concat(lists), r) && FusesAs(k, Concat(lists), cap, r, out)
    requires forall l :: 0 <= l < |lists| ==> RankedList(lists[l])
    ensures forall i :: 0 <= i < |out| ==> Fused(k, lists, out[i])
  {
    hide TotalMap, SeenMap, ScoreOf, ListNotes, Sorted, RankedList, FirstAt, SharesOf, Concat, Has;
    forall i | 0 <= i < |out| ensures Fused(k, lists, out[i]) {
      assert r[i] in r;
      RankedIsListed(k, Concat(lists), r[i]);
      FusedFields(k, Concat(lists), r[i], i);
      var shares := AllShares(k, lists, r[i]);
      var l, m := FirstHitInLists(lists, r[i]);
      assert FirstAt(lists, out[i].id, l, m);
    }
  }

  /** A fused hit is the first hit of its id over the subqueries, with the sum of one over
      5 and its rank in each subquery that found it. */
  lemma MultiExact(queries: seq<string>, lists: seq<seq<Hit>>, limit: int, out: seq<MultiHit>)
    requires |queries| == |lists| && MultiFusesTo(queries, lists, limit, out)
    requires forall l :: 0 <= l < |lists| ==> RankedList(lists[l])
    ensures forall i :: 0 <= i < |out| ==> Fused(5, lists, out[i].hit)
  {
    hide RanksTotals, FusesAs, MatchesIn, Concat, RankedList, Fused;
    var r :| IsMulti(queries, lists, limit, r, out);
    FusedExactly(5, lists, LimitOf(limit), r, HitsOf(out));
    assert forall i :: 0 <= i < |out| ==> HitsOf(out)[i] == out[i].hit;
  }

  /** The same of the similarity signals, with 60 for 5. */
  lemma SimilarExact(lists: seq<seq<SimilarHit>>, out: seq<SimilarHit>)
    requires FusesTo(lists, out) && forall l :: 0 <= l < |lists| ==> RankedList(HitsIn(lists[l]))
    ensures forall i :: 0 <= i < |out| ==> Fused(60, ListsOf(lists), out[i].hit)
    ensures forall i, w :: 0 <= i < |out| ==> (w in out[i].why <==> Reason(lists, out[i].hit.id, w))
  {
    hide RanksTotals, FusesAs, Concat, RankedList, Fused, Reason, StrictlySorted;
    var r :| IsFused(lists, r, out);
    assert forall l :: 0 <= l < |lists| ==> ListsOf(lists)[l] == HitsIn(lists[l]);
    FusedExactly(60, ListsOf(lists), |r|, r, PlainHits(out));
    FusionShape(60, Concat(ListsOf(lists)), |r|, r, PlainHits(out));
    FusedLength(60, Concat(ListsOf(lists)), |r|, r, PlainHits(out));
    assert forall i :: 0 <= i < |out| ==> PlainHits(out)[i] == out[i].hit;
  }

  lemma FusedLength(k: nat, hits: seq<Hit>, cap: nat, r: seq<string>, out: seq<Hit>)
    requires k > 0 && FusesAs(k, hits, cap, r, out)
    ensures |out| == Least(|r|, cap)
  {
    hide FusedHit;
  }

  // ---- provenance

  /** `m` is what hit `j` of list `i` says of where it was found. */
  predicate FoundAt(queries: seq<string>, lists: seq<seq<Hit>>, id: string, m: Match, i: nat, j: nat)
    requires |queries| == |lists|
  {
    i < |lists| && j < |lists[i]| && lists[i][j].id == id && m == Match(queries[i], lists[i][j].arm, lists[i][j].rank)
  }

  predicate Earlier(a: (nat, nat), b: (nat, nat)) {
    a.0 < b.0 || (a.0 == b.0 && a.1 < b.1)
  }

  ghost predicate Ascending(places: seq<(nat, nat)>) {
    forall i, j :: 0 <= i < j < |places| ==> Earlier(places[i], places[j])
  }

  /** Match by match, where in the lists it was found. */
  ghost predicate Matched(queries: seq<string>, lists: seq<seq<Hit>>, id: string, matches: seq<Match>, places: seq<(nat, nat)>)
    requires |queries| == |lists|
  {
    && |matches| == |places| && Ascending(places)
    && forall i :: 0 <= i < |matches| ==> FoundAt(queries, lists, id, matches[i], places[i].0, places[i].1)
  }

  predicate ListedAt(lists: seq<seq<Hit>>, id: string, p: (nat, nat)) {
    p.0 < |lists| && p.1 < |lists[p.0]| && lists[p.0][p.1].id == id
  }

  /** The matches of an id are all its appearances in the lists, each once, in the order of
      the subqueries and of the ranks in each. */
  ghost predicate Records(queries: seq<string>, lists: seq<seq<Hit>>, id: string, matches: seq<Match>, places: seq<(nat, nat)>)
    requires |queries| == |lists|
  {
    Matched(queries, lists, id, matches, places) && forall p :: p in places <==> ListedAt(lists, id, p)
  }

  lemma MatchedJoin(queries: seq<string>, lists: seq<seq<Hit>>, id: string, a: seq<Match>, p: seq<(nat, nat)>, b: seq<Match>, q: seq<(nat, nat)>)
    requires |queries| == |lists| && Matched(queries, lists, id, a, p) && Matched(queries, lists, id, b, q)
    requires forall x, y :: x in p && y in q ==> Earlier(x, y)
    ensures Matched(queries, lists, id, a + b, p + q)
  {
    hide FoundAt, Earlier;
    forall i, j | 0 <= i < j < |p + q| ensures Earlier((p + q)[i], (p + q)[j]) {
      if i < |p| && j >= |p| {
        assert p[i] in p && q[j - |p|] in q;
      }
    }
  }

  lemma MatchedOne(queries: seq<string>, lists: seq<seq<Hit>>, id: string, m: Match, i: nat, j: nat)
    requires |queries| == |lists| && FoundAt(queries, lists, id, m, i, j)
    ensures Matched(queries, lists, id, [m], [(i, j)])
  {
    hide FoundAt;
  }

  /** The appearances in the first `j` hits of list `i`. */
  lemma {:induction false} ListPlaces(queries: seq<string>, lists: seq<seq<Hit>>, id: string, i: nat, j: nat) returns (places: seq<(nat, nat)>)
    requires |queries| == |lists| && i < |lists| && j <= |lists[i]|
    ensures Matched(queries, lists, id, ListMatches(queries[i], lists[i][..j], id), places)
    ensures forall p :: p in places <==> p.0 == i && p.1 < j && ListedAt(lists, id, p)
    decreases j
  {
    hide ListMatches, Matched;
    if j == 0 {
      NoMatches(queries[i], id);
      assert lists[i][..0] == [];
      places := [];
      NothingMatched(queries, lists, id);
    } else {
      var before := ListPlaces(queries, lists, id, i, j - 1);
      var h := lists[i][j - 1];
      var m := Match(queries[i], h.arm, h.rank);
      ListMatchesNext(queries[i], lists[i], j - 1, id);
      if h.id == id {
        MatchedOne(queries, lists, id, m, i, j - 1);
        MatchedJoin(queries, lists, id, ListMatches(queries[i], lists[i][..j - 1], id), before, [m], [(i, j - 1)]);
        places := before + [(i, j - 1)];
      } else {
        assert ListMatches(queries[i], lists[i][..j - 1], id) + [] == ListMatches(queries[i], lists[i][..j - 1], id);
        places := before;
      }
    }
  }

  lemma NoMatches(query: string, id: string)
    ensures ListMatches(query, [], id) == []
  {
  }

  lemma NothingMatched(queries: seq<string>, lists: seq<seq<Hit>>, id: string)
    requires |queries| == |lists|
    ensures Matched(queries, lists, id, [], [])
  {
  }

  /** What is matched in the first lists is matched in all of them. */
  lemma MatchedInAll(queries: seq<string>, lists: seq<seq<Hit>>, n: nat, id: string, matches: seq<Match>, places: seq<(nat, nat)>)
    requires |queries| == |lists| && n <= |lists| && Matched(queries[..n], lists[..n], id, matches, places)
    ensures Matched(queries, lists, id, matches, places)
  {
    forall i | 0 <= i < |matches| ensures FoundAt(queries, lists, id, matches[i], places[i].0, places[i].1) {
      assert FoundAt(queries[..n], lists[..n], id, matches[i], places[i].0, places[i].1);
    }
  }

  /** The provenance of an id records its appearances one by one, in order. */
  lemma {:induction false} ProvenanceInOrder(queries: seq<string>, lists: seq<seq<Hit>>, id: string) returns (places: seq<(nat, nat)>)
    requires |queries| == |lists|
    ensures Records(queries, lists, id, MatchesIn(queries, lists, id), places)
    decreases |lists|
  {
    hide ListMatches, Matched;
    if lists == [] {
      places := [];
      NothingMatched(queries, lists, id);
    } else {
      var n := |lists| - 1;
      var before := ProvenanceInOrder(queries[..n], lists[..n], id);
      var last := ListPlaces(queries, lists, id, n, |lists[n]|);
      assert lists[n][..|lists[n]|] == lists[n];
      var a, b := MatchesIn(queries[..n], lists[..n], id), ListMatches(queries[n], lists[n], id);
      MatchedInAll(queries, lists, n, id, a, before);
      MatchedJoin(queries, lists, id, a, before, b, last);
      places := before + last;
      forall p ensures p in places <==> ListedAt(lists, id, p) {
        assert p in before <==> ListedAt(lists[..n], id, p);
      }
    }
  }

  // ---- what is missing

  lemma RankedIffHit(k: nat, hits: seq<Hit>, r: seq<string>, id: string)
    requires k > 0 && RanksTotals(k, hits, r)
    ensures id in r <==> Has(hits, id)
  {
    var notes := ListNotes(k, hits);
    OrderIsByFirst(notes);
    assert forall i :: 0 <= i < |hits| ==> notes[i].id == hits[i].id;
    hide Order, ScoreOf, ListNotes, First, Sorted, SeenMap;
    assert id in r <==> id in Order(notes);
  }

  lemma FusedHas(k: nat, hits: seq<Hit>, cap: nat, r: seq<string>, out: seq<Hit>, id: string)
    requires k > 0 && RanksTotals(k, hits, r) && FusesAs(k, hits, cap, r, out)
    ensures |out| <= cap && (|r| <= cap || |out| < cap ==> (Has(out, id) <==> Has(hits, id)))
  {
    RankedIffHit(k, hits, r, id);
    FusionShape(k, hits, cap, r, out);
    hide RanksTotals, FusedHit;
    if |out| == |r| && id in r {
      var i :| 0 <= i < |r| && r[i] == id;
      assert out[i].id == id;
    }
  }

  /** A result shorter than the limit has exactly the ids that the subqueries found. */
  lemma MultiNoneMissing(queries: seq<string>, lists: seq<seq<Hit>>, limit: int, out: seq<MultiHit>, id: string)
    requires |queries| == |lists| && MultiFusesTo(queries, lists, limit, out)
    ensures |out| <= if limit <= 0 then 20 else limit
    ensures |out| < (if limit <= 0 then 20 else limit) ==>
      (Has(HitsOf(out), id) <==> exists l :: 0 <= l < |lists| && Has(lists[l], id))
  {
    hide RanksTotals, FusesAs, MatchesIn, Concat, Has;
    var r :| IsMulti(queries, lists, limit, r, out);
    FusedHas(MULTI_RRF_K, Concat(lists), LimitOf(limit), r, HitsOf(out), id);
    HasInConcat(lists, id);
  }

  /** The neighbours are exactly the ids that the signals found. */
  lemma SimilarNoneMissing(lists: seq<seq<SimilarHit>>, out: seq<SimilarHit>, id: string)
    requires FusesTo(lists, out)
    ensures Has(PlainHits(out), id) <==> exists l :: 0 <= l < |lists| && Has(ListsOf(lists)[l], id)
  {
    hide RanksTotals, FusesAs, SortedReasons, Concat, Has, PlainHits, ListsOf;
    var r :| IsFused(lists, r, out);
    FusedHas(FUSION_RRF_K, Concat(ListsOf(lists)), |r|, r, PlainHits(out), id);
    HasInConcat(ListsOf(lists), id);
  }
}
