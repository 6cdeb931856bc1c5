/** MultiHybrid: a pool of workers fills one slot for each subquery, then the slots are
    fused in subquery order (internal/query/multi.go). */
module FusionMulti {
  import opened Wrappers
  import opened Fusion
  import opened FusionHybrid
  import opened FusionLists
  import opened FusionOrder

  /** One subquery found the hit, in which arm and at which rank. */
  datatype Match = Match(query: string, arm: string, rank: nat)

  datatype MultiHit = MultiHit(hit: Hit, subqueries: seq<Match>)

  const MULTI_RRF_K := 5
  const MULTI_FANOUT := 4

  function ListMatches(query: string, list: seq<Hit>, id: string): seq<Match> {
    if list == [] then []
    else
      var last := list[|list| - 1];
      ListMatches(query, list[..|list| - 1], id) + if last.id == id then [Match(query, last.arm, last.rank)] else []
  }

  /** Where an id was found, in the order of the subqueries. */
  function MatchesIn(queries: seq<string>, lists: seq<seq<Hit>>, id: string): seq<Match>
    requires |queries| == |lists|
  {
    if lists == [] then []
    else
      var n := |lists| - 1;
      MatchesIn(queries[..n], lists[..n], id) + ListMatches(queries[n], lists[n], id)
  }

  function HitsOf(out: seq<MultiHit>): (hits: seq<Hit>)
    ensures |hits| == |out|
  {
    seq(|out|, i requires 0 <= i < |out| => out[i].hit)
  }

  ghost predicate IsMulti(queries: seq<string>, lists: seq<seq<Hit>>, limit: int, r: seq<string>, out: seq<MultiHit>)
    requires |queries| == |lists|
  {
    && RanksTotals(MULTI_RRF_K, Concat(lists), r)
    && FusesAs(MULTI_RRF_K, Concat(lists), LimitOf(limit), r, HitsOf(out))
    && |out| <= |r|
    && forall i :: 0 <= i < |out| ==> out[i].subqueries == MatchesIn(queries, lists, r[i])
  }

  // ---- the workers

  /** What the searches of the subqueries return; None is a failure. */
  type Answers = seq<Option<seq<Hit>>>

  ghost predicate NoneFails(answers: Answers) {
    forall i :: 0 <= i < |answers| ==> answers[i].Some?
  }

  function Values(answers: Answers): (lists: seq<seq<Hit>>)
    ensures |lists| == |answers|
  {
    seq(|answers|, i requires 0 <= i < |answers| => match answers[i] case Some(list) => list case None => [])
  }

  /** Starts the searches in order, never more than the fan-out at a time, and lets any of
      the running ones finish next. Each fills its own slot. */
  method RunSearches(answers: Answers, results: array<seq<Hit>>) returns (ok: bool)
    requires results.Length == |answers|
    modifies results
    ensures ok <==> NoneFails(answers)
    ensures ok ==> results[..] == Values(answers)
  {
    var started := 0;
    var running: set<nat> := {};
    ok := true;
    while started < |answers| || running != {}
      invariant started <= |answers| && (forall i :: i in running ==> i < started)
      invariant |running| <= MULTI_FANOUT
      invariant ok <==> forall i :: 0 <= i < started && i !in running ==> answers[i].Some?
      invariant forall i :: 0 <= i < started && i !in running && answers[i].Some? ==> results[i] == answers[i].value
      decreases 2 * (|answers| - started) + |running|
    {
      var start: bool := *;
      if started < |answers| && (running == {} || (start && |running| < MULTI_FANOUT)) {
        running := running + {started};
        started := started + 1;
      } else {
        SomeMember(running);
        var i :| i in running;
        running := running - {i};
        if answers[i].Some? {
          results[i] := answers[i].value;
        } else {
          ok := false;
        }
      }
    }
    if ok {
      assert forall i :: 0 <= i < |answers| ==> results[i] == Values(answers)[i];
    }
  }

  // ---- provenance

  function GetMatches(found: map<string, seq<Match>>, id: string): seq<Match> {
    if id in found then found[id] else []
  }

  /** The matches of the lists before `i`, and of the first `j` hits of list `i`. */
  ghost predicate FoundOk(found: map<string, seq<Match>>, queries: seq<string>, lists: seq<seq<Hit>>, i: nat, j: nat)
    requires |queries| == |lists| && i <= |lists| && (i < |lists| ==> j <= |lists[i]|)
  {
    forall id :: GetMatches(found, id) ==
      MatchesIn(queries[..i], lists[..i], id) + if i < |lists| then ListMatches(queries[i], lists[i][..j], id) else []
  }

  lemma ListMatchesNext(query: string, list: seq<Hit>, j: nat, id: string)
    requires j < |list|
    ensures ListMatches(query, list[..j + 1], id) ==
      ListMatches(query, list[..j], id) + if list[j].id == id then [Match(query, list[j].arm, list[j].rank)] else []
  {
    assert list[..j + 1][..j] == list[..j];
  }

  lemma FoundStep(found: map<string, seq<Match>>, queries: seq<string>, lists: seq<seq<Hit>>, i: nat, j: nat)
    requires |queries| == |lists| && i < |lists| && j < |lists[i]| && FoundOk(found, queries, lists, i, j)
    ensures
      var h := lists[i][j];
      FoundOk(found[h.id := GetMatches(found, h.id) + [Match(queries[i], h.arm, h.rank)]], queries, lists, i, j + 1)
  {
    var h := lists[i][j];
    var m := Match(queries[i], h.arm, h.rank);
    var after := found[h.id := GetMatches(found, h.id) + [m]];
    forall id
      ensures GetMatches(after, id) == MatchesIn(queries[..i], lists[..i], id) + ListMatches(queries[i], lists[i][..j + 1], id)
    {
      ListMatchesNext(queries[i], lists[i], j, id);
      assert GetMatches(found, id) == MatchesIn(queries[..i], lists[..i], id) + ListMatches(queries[i], lists[i][..j], id);
      hide MatchesIn, ListMatches;
    }
  }

  lemma FoundNextList(found: map<string, seq<Match>>, queries: seq<string>, lists: seq<seq<Hit>>, i: nat)
    requires |queries| == |lists| && i < |lists| && FoundOk(found, queries, lists, i, |lists[i]|)
    ensures FoundOk(found, queries, lists, i + 1, 0)
  {
    forall id
      ensures GetMatches(found, id) == MatchesIn(queries[..i + 1], lists[..i + 1], id)
      ensures i + 1 < |lists| ==> ListMatches(queries[i + 1], lists[i + 1][..0], id) == []
    {
      assert queries[..i + 1][..i] == queries[..i] && lists[..i + 1][..i] == lists[..i];
      assert lists[i][..|lists[i]|] == lists[i];
      assert GetMatches(found, id) == MatchesIn(queries[..i], lists[..i], id) + ListMatches(queries[i], lists[i][..|lists[i]|], id);
    }
    hide MatchesIn, ListMatches;
  }

  /** The list, found for this query, has the id at this rank in this arm. */
  ghost predicate InList(query: string, list: seq<Hit>, id: string, m: Match) {
    exists j :: 0 <= j < |list| && list[j].id == id && m == Match(query, list[j].arm, list[j].rank)
  }

  ghost predicate InSome(queries: seq<string>, lists: seq<seq<Hit>>, id: string, m: Match)
    requires |queries| == |lists|
  {
    exists i :: 0 <= i < |lists| && InList(queries[i], lists[i], id, m)
  }

  /** The provenance of an id is exactly the appearances of the id in the lists. */
  lemma {:induction false} ProvenanceExact(queries: seq<string>, lists: seq<seq<Hit>>, id: string, m: Match)
    requires |queries| == |lists|
    ensures m in MatchesIn(queries, lists, id) <==> InSome(queries, lists, id, m)
    decreases |lists|
  {
    hide ListMatches, InList;
    if lists != [] {
      var n := |lists| - 1;
      ProvenanceExact(queries[..n], lists[..n], id, m);
      ListProvenance(queries[n], lists[n], id, m);
      InSomeSplit(queries, lists, id, m);
      hide InSome;
    }
  }

  lemma InSomeSplit(queries: seq<string>, lists: seq<seq<Hit>>, id: string, m: Match)
    requires |queries| == |lists| && lists != []
    ensures
      var n := |lists| - 1;
      InSome(queries, lists, id, m) <==> InSome(queries[..n], lists[..n], id, m) || InList(queries[n], lists[n], id, m)
  {
    hide InList;
    var n := |lists| - 1;
    if InSome(queries[..n], lists[..n], id, m) {
      var i :| 0 <= i < n && InList(queries[..n][i], lists[..n][i], id, m);
      assert InList(queries[i], lists[i], id, m);
    }
    if InSome(queries, lists, id, m) {
      var i :| 0 <= i < |lists| && InList(queries[i], lists[i], id, m);
      assert i < n ==> InList(queries[..n][i], lists[..n][i], id, m);
    }
  }

  lemma {:induction false} ListProvenance(query: string, list: seq<Hit>, id: string, m: Match)
    ensures m in ListMatches(query, list, id) <==> InList(query, list, id, m)
    decreases |list|
  {
    if list != [] {
      var init, last := list[..|list| - 1], list[|list| - 1];
      assert list == init + [last];
      ListProvenance(query, init, id, m);
      if InList(query, list, id, m) {
        var j :| 0 <= j < |list| && list[j].id == id && m == Match(query, list[j].arm, list[j].rank);
        assert j < |init| ==> init[j].id == id;
      }
      if InList(query, init, id, m) {
        var j :| 0 <= j < |init| && init[j].id == id && m == Match(query, init[j].arm, init[j].rank);
        assert list[j].id == id;
      }
    }
  }

  // ---- the fusion

  /** One list after the other, in order. */
  method SeeAll(queries: seq<string>, lists: seq<seq<Hit>>) returns (t: ListTables, found: map<string, seq<Match>>)
    requires |queries| == |lists|
    ensures t.Valid() && t.k == MULTI_RRF_K && t.hits == Concat(lists)
    ensures forall id :: GetMatches(found, id) == MatchesIn(queries, lists, id)
  {
    hide ListTables.Valid, FoundOk, GetMatches, MatchesIn;
    t := new ListTables(MULTI_RRF_K);
    found := map[];
    NothingFound(queries, lists);
    assert lists[..0] == [] && Concat(lists[..0]) == [];
    for i := 0 to |lists|
      invariant t.Valid() && t.k == MULTI_RRF_K && t.hits == Concat(lists[..i]) && fresh(t) && fresh(t.tally)
      invariant FoundOk(found, queries, lists, i, 0)
    {
      found := SeeList(queries, lists, i, t, found);
      FoundNextList(found, queries, lists, i);
      ConcatNext(lists, i);
    }
    assert lists[..|lists|] == lists && queries[..|lists|] == queries;
    AllFound(found, queries, lists);
  }

  lemma NothingFound(queries: seq<string>, lists: seq<seq<Hit>>)
    requires |queries| == |lists|
    ensures FoundOk(map[], queries, lists, 0, 0)
  {
  }

  lemma AllFound(found: map<string, seq<Match>>, queries: seq<string>, lists: seq<seq<Hit>>)
    requires |queries| == |lists| && FoundOk(found, queries, lists, |lists|, 0)
    ensures forall id :: GetMatches(found, id) == MatchesIn(queries, lists, id)
  {
    hide MatchesIn, GetMatches, ListMatches;
    var n := |lists|;
    assert lists[..n] == lists && queries[..n] == queries;
    forall id ensures GetMatches(found, id) == MatchesIn(queries, lists, id) {
      assert GetMatches(found, id) == MatchesIn(queries[..n], lists[..n], id) + [];
    }
  }

  method SeeList(queries: seq<string>, lists: seq<seq<Hit>>, i: nat, t: ListTables, was: map<string, seq<Match>>) returns (found: map<string, seq<Match>>)
    requires |queries| == |lists| && i < |lists| && t.Valid() && FoundOk(was, queries, lists, i, 0)
    modifies t, t.tally
    ensures t.Valid() && t.hits == old(t.hits) + lists[i]
    ensures FoundOk(found, queries, lists, i, |lists[i]|)
  {
    hide ListTables.Valid, FoundOk;
    found := was;
    for j := 0 to |lists[i]|
      invariant t.Valid() && t.hits == old(t.hits) + lists[i][..j]
      invariant FoundOk(found, queries, lists, i, j)
    {
      var h := lists[i][j];
      t.See(h);
      FoundStep(found, queries, lists, i, j);
      found := found[h.id := GetMatches(found, h.id) + [Match(queries[i], h.arm, h.rank)]];
    }
    assert lists[i][..|lists[i]|] == lists[i];
  }

  /** The fused hits follow some ranking of the totals. */
  ghost predicate MultiFusesTo(queries: seq<string>, lists: seq<seq<Hit>>, limit: int, out: seq<MultiHit>)
    requires |queries| == |lists|
  {
    exists r :: IsMulti(queries, lists, limit, r, out)
  }

  /** Searches every subquery and fuses what they find; a failing search fails the call. */
  method MultiHybrid(queries: seq<string>, answers: Answers, limit: int) returns (out: Option<seq<MultiHit>>)
    requires |queries| == |answers|
    ensures out.Some? <==> NoneFails(answers)
    ensures out.Some? ==> MultiFusesTo(queries, Values(answers), limit, out.value)
  {
    var results := new seq<Hit>[|answers|];
    var ok := RunSearches(answers, results);
    if !ok {
      return None;
    }
    var lists := results[..];
    hide ListTables.Valid, Injective, IsRanking, TotalMap, SeenMap, ListNotes, MatchesIn, FusedHit, Concat, Values, NoneFails;
    var t, found := SeeAll(queries, lists);
    TablesRank(t);
    var ids := Rank(t.tally.scores, t.tally.firstSeen);
    assert RanksTotals(MULTI_RRF_K, Concat(lists), ids);
    RankedIds(t, ids);
    var shown := Show(queries, lists, t, found, ids, limit);
    assert IsMulti(queries, lists, limit, ids, shown);
    out := Some(shown);
  }

  method Show(queries: seq<string>, lists: seq<seq<Hit>>, t: ListTables, found: map<string, seq<Match>>, ids: seq<string>, limit: int)
    returns (out: seq<MultiHit>)
    requires |queries| == |lists| && t.Valid() && t.k == MULTI_RRF_K && t.hits == Concat(lists)
    requires forall id :: GetMatches(found, id) == MatchesIn(queries, lists, id)
    requires forall i :: 0 <= i < |ids| ==> ids[i] in t.tally.scores
    ensures |out| <= |ids| && FusesAs(MULTI_RRF_K, Concat(lists), LimitOf(limit), ids, HitsOf(out))
    ensures forall i :: 0 <= i < |out| ==> out[i].subqueries == MatchesIn(queries, lists, ids[i])
  {
    hide ListTables.Valid, MatchesIn, FusedHit, Concat, GetMatches;
    out := [];
    var cap := limit;
    if cap <= 0 {
      cap := DEFAULT_LIMIT;
    }
    for i := 0 to |ids|
      invariant |out| == i <= cap
      invariant forall j :: 0 <= j < i ==> out[j].hit == FusedHit(MULTI_RRF_K, t.hits, ids[j], j)
      invariant forall j :: 0 <= j < i ==> out[j].subqueries == MatchesIn(queries, lists, ids[j])
    {
      if i >= cap {
        break;
      }
      var h := PresentHit(t, ids[i], i);
      out := out + [MultiHit(h, GetMatches(found, ids[i]))];
    }
  }

  /** What comes out does not depend on the order in which the searches finished, nor on
      that of the maps. */
  lemma MultiUnique(queries: seq<string>, lists: seq<seq<Hit>>, limit: int, out: seq<MultiHit>, out': seq<MultiHit>)
    requires |queries| == |lists| && MultiFusesTo(queries, lists, limit, out) && MultiFusesTo(queries, lists, limit, out')
    ensures out == out'
  {
    var r :| IsMulti(queries, lists, limit, r, out);
    var r' :| IsMulti(queries, lists, limit, r', out');
    hide RanksTotals, FusesAs, MatchesIn, Concat;
    FusionUnique(MULTI_RRF_K, Concat(lists), LimitOf(limit), r, HitsOf(out), r', HitsOf(out'));
    SameHits(out, out');
    forall i | 0 <= i < |out| ensures out[i] == out'[i] {
      assert HitsOf(out)[i] == HitsOf(out')[i];
    }
  }

  lemma SameHits(out: seq<MultiHit>, out': seq<MultiHit>)
    requires HitsOf(out) == HitsOf(out')
    ensures |out| == |out'|
  {
    assert |HitsOf(out)| == |HitsOf(out')|;
  }

  /** Ranks 1, 2, 3 and so on, scores that never rise, no id twice, and each hit with its
      own provenance. */
  lemma MultiShape(queries: seq<string>, lists: seq<seq<Hit>>, limit: int, out: seq<MultiHit>)
    requires |queries| == |lists| && MultiFusesTo(queries, lists, limit, out)
    ensures forall i :: 0 <= i < |out| ==> out[i].hit.rank == i + 1
    ensures forall i :: 0 <= i < |out| ==> out[i].subqueries == MatchesIn(queries, lists, out[i].hit.id)
    ensures forall i, j :: 0 <= i < j < |out| ==> out[i].hit.score >= out[j].hit.score && out[i].hit.id != out[j].hit.id
  {
    var r :| IsMulti(queries, lists, limit, r, out);
    hide RanksTotals, FusesAs, MatchesIn, Concat;
    FusionShape(MULTI_RRF_K, Concat(lists), LimitOf(limit), r, HitsOf(out));
    assert forall i :: 0 <= i < |out| ==> HitsOf(out)[i] == out[i].hit;
  }

  /** The lists that Hybrid returns are ranked lists, so its order carries over. */
  lemma HybridListsAreRanked(fold: Fold, q: string, fts: seq<Hit>, vec: seq<Hit>, limit: int, out: seq<Hit>, explains: seq<Explain>)
    requires IsHybrid(fold, q, fts, vec, limit, out, explains)
    ensures RankedList(out)
  {
    hide IsHybrid, Has;
    HybridShape(fold, q, fts, vec, limit, out, explains);
  }

  lemma MultiRespectsLists(queries: seq<string>, lists: seq<seq<Hit>>, limit: int, out: seq<MultiHit>, a: string, j: nat) returns (i: nat)
    requires |queries| == |lists| && MultiFusesTo(queries, lists, limit, out) && j < |out|
    requires forall l :: 0 <= l < |lists| ==> RankedList(lists[l]) && AheadInList(lists[l], a, out[j].hit.id)
    ensures i < j && out[i].hit.id == a
  {
    var r :| IsMulti(queries, lists, limit, r, out);
    hide RanksTotals, FusesAs, MatchesIn, Concat, RankedList, AheadInList;
    assert HitsOf(out)[j] == out[j].hit;
    i := AheadComesFirst(MULTI_RRF_K, lists, LimitOf(limit), r, HitsOf(out), a, j);
    assert HitsOf(out)[i] == out[i].hit;
  }
}
