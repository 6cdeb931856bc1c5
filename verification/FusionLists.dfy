/** The second fusion, over ranked lists: MultiHybrid over its subqueries
    (internal/query/multi.go) and the similarity signals (internal/similar/dispatch.go). */
module FusionLists {
  import opened Wrappers
  import opened Fusion
  import opened FusionHybrid

  function RankGain(k: nat, rank: nat): real
    requires k > 0
  {
    1.0 / (k + rank) as real
  }

  function ListNotes(k: nat, list: seq<Hit>): (notes: seq<Note>)
    requires k > 0
    ensures |notes| == |list|
  {
    seq(|list|, i requires 0 <= i < |list| => Note(list[i].id, RankGain(k, list[i].rank)))
  }

  function AllNotes(k: nat, lists: seq<seq<Hit>>): (notes: seq<seq<Note>>)
    requires k > 0
    ensures |notes| == |lists|
  {
    seq(|lists|, i requires 0 <= i < |lists| => ListNotes(k, lists[i]))
  }

  function Concat<T>(lists: seq<seq<T>>): seq<T> {
    if lists == [] then [] else Concat(lists[..|lists| - 1]) + lists[|lists| - 1]
  }

  /** The first hit of an id. */
  function FirstHit(hits: seq<Hit>, id: string): Option<Hit> {
    if hits == [] then None else if hits[0].id == id then Some(hits[0]) else FirstHit(hits[1..], id)
  }

  lemma {:induction false} FirstHitSnoc(hits: seq<Hit>, h: Hit, id: string)
    ensures FirstHit(hits + [h], id) ==
      if FirstHit(hits, id).Some? then FirstHit(hits, id) else if h.id == id then Some(h) else None
  {
    if hits == [] {
      assert hits + [h] == [h] && [h][1..] == [];
    } else {
      var all := hits + [h];
      assert all[0] == hits[0] && all[1..] == hits[1..] + [h];
      FirstHitSnoc(hits[1..], h, id);
    }
  }

  ghost predicate HitsOk(byId: map<string, Hit>, hits: seq<Hit>) {
    forall id :: if id in byId then FirstHit(hits, id) == Some(byId[id]) else FirstHit(hits, id) == None
  }

  lemma HitsStep(byId: map<string, Hit>, hits: seq<Hit>, h: Hit)
    requires HitsOk(byId, hits)
    ensures HitsOk(if h.id in byId then byId else byId[h.id := h], hits + [h])
  {
    var after := if h.id in byId then byId else byId[h.id := h];
    forall id ensures if id in after then FirstHit(hits + [h], id) == Some(after[id]) else FirstHit(hits + [h], id) == None {
      FirstHitSnoc(hits, h, id);
      assert if id in byId then FirstHit(hits, id) == Some(byId[id]) else FirstHit(hits, id) == None;
      hide FirstHit;
    }
  }

  /** The scores, the order and the first hits of the lists seen so far. */
  class ListTables {
    const k: nat
    const tally: Tally
    var byId: map<string, Hit>
    ghost var hits: seq<Hit>

    ghost predicate Valid()
      reads this, tally
    {
      k > 0 && tally.Valid() && tally.notes == ListNotes(k, hits) && HitsOk(byId, hits)
    }

    constructor (k: nat)
      requires k > 0
      ensures Valid() && hits == [] && fresh(tally) && this.k == k
    {
      this.k := k;
      tally := new Tally();
      byId, hits := map[], [];
    }

    method See(h: Hit)
      requires Valid()
      modifies this, tally
      ensures Valid() && hits == old(hits) + [h]
    {
      hide HitsOk, ListNotes, RankGain, Tally.Valid;
      HitsStep(byId, hits, h);
      NotesStep(k, hits, h);
      tally.Add(h.id, RankGain(k, h.rank));
      if h.id !in byId {
        byId := byId[h.id := h];
      }
      hits := hits + [h];
    }
  }

  lemma NotesStep(k: nat, hits: seq<Hit>, h: Hit)
    requires k > 0
    ensures ListNotes(k, hits + [h]) == ListNotes(k, hits) + [Note(h.id, RankGain(k, h.rank))]
  {
    hide RankGain;
  }

  // ---- what comes out

  function TotalMap(k: nat, hits: seq<Hit>): map<string, real>
    requires k > 0
  {
    map id | id in Order(ListNotes(k, hits)) :: ScoreOf(ListNotes(k, hits), id)
  }

  /** The hit of the `i`th ranked id: its first hit with the fused rank and score. */
  function FusedHit(k: nat, hits: seq<Hit>, id: string, i: nat): Hit
    requires k > 0
  {
    match FirstHit(hits, id)
    case Some(h) => h.(rank := i + 1, score := ScoreOf(ListNotes(k, hits), id))
    case None => Hit(id, "", "", i + 1, ScoreOf(ListNotes(k, hits), id), "", false)
  }

  ghost predicate FusesAs(k: nat, hits: seq<Hit>, cap: nat, r: seq<string>, out: seq<Hit>)
    requires k > 0
  {
    && |out| == Least(|r|, cap)
    && forall i :: 0 <= i < |out| ==> out[i] == FusedHit(k, hits, r[i], i)
  }

  ghost predicate RanksTotals(k: nat, hits: seq<Hit>, r: seq<string>)
    requires k > 0
  {
    IsRanking(r, TotalMap(k, hits), SeenMap(ListNotes(k, hits)))
  }

  lemma TablesRank(t: ListTables)
    requires t.Valid()
    ensures t.tally.scores == TotalMap(t.k, t.hits)
    ensures t.tally.firstSeen == SeenMap(ListNotes(t.k, t.hits))
    ensures Injective(t.tally.firstSeen) && t.tally.scores.Keys == t.tally.firstSeen.Keys
  {
    t.tally.Distinguishes();
    var o := Order(ListNotes(t.k, t.hits));
    hide Order, ScoreOf, ListNotes, HitsOk, Injective;
    forall id | id in o ensures t.tally.firstSeen[id] == Place(o, id) {
      assert o[Place(o, id)] == id;
    }
  }

  lemma ListedHasHit(k: nat, hits: seq<Hit>, id: string)
    requires k > 0
    ensures id in Order(ListNotes(k, hits)) <==> FirstHit(hits, id).Some?
  {
    var notes := ListNotes(k, hits);
    OrderIsByFirst(notes);
    FirstHitIs(hits, id);
    assert forall i :: 0 <= i < |hits| ==> notes[i].id == hits[i].id;
    hide Order, RankGain, FirstHit, ListNotes;
    assert |notes| == |hits|;
  }

  lemma {:induction false} FirstHitIs(hits: seq<Hit>, id: string)
    ensures FirstHit(hits, id).Some? <==> exists i :: 0 <= i < |hits| && hits[i].id == id
    ensures FirstHit(hits, id).Some? ==> FirstHit(hits, id).value.id == id
  {
    if hits != [] {
      FirstHitIs(hits[1..], id);
      if exists i :: 0 <= i < |hits[1..]| && hits[1..][i].id == id {
        var i :| 0 <= i < |hits[1..]| && hits[1..][i].id == id;
        assert hits[i + 1].id == id;
      }
      if hits[0].id != id && exists i :: 0 <= i < |hits| && hits[i].id == id {
        var i :| 0 <= i < |hits| && hits[i].id == id;
        assert hits[1..][i - 1].id == id;
      }
    }
  }

  lemma RankedIds(t: ListTables, r: seq<string>)
    requires t.Valid() && RanksTotals(t.k, t.hits, r)
    ensures forall i :: 0 <= i < |r| ==> r[i] in t.tally.scores
  {
    TablesRank(t);
    hide ListTables.Valid, TotalMap, SeenMap, ListNotes, Sorted, Injective;
    forall i | 0 <= i < |r| ensures r[i] in t.tally.scores {
      assert r[i] in r;
    }
  }

  lemma ConcatNext(lists: seq<seq<Hit>>, i: nat)
    requires i < |lists|
    ensures Concat(lists[..i + 1]) == Concat(lists[..i]) + lists[i]
  {
    assert lists[..i + 1][..i] == lists[..i];
  }

  method PresentHit(t: ListTables, id: string, i: nat) returns (h: Hit)
    requires t.Valid() && id in t.tally.scores
    ensures h == FusedHit(t.k, t.hits, id, i)
  {
    TablesRank(t);
    ListedHasHit(t.k, t.hits, id);
    hide Order, ScoreOf, ListNotes, FirstHit, Injective, SeenMap, Tally.Valid;
    h := t.byId[id];
    h := h.(rank := i + 1, score := t.tally.scores[id]);
  }

  // ---- what it is guaranteed to be

  lemma FusionUnique(k: nat, hits: seq<Hit>, cap: nat, r: seq<string>, out: seq<Hit>, r': seq<string>, out': seq<Hit>)
    requires k > 0 && RanksTotals(k, hits, r) && RanksTotals(k, hits, r')
    requires FusesAs(k, hits, cap, r, out) && FusesAs(k, hits, cap, r', out')
    ensures r == r' && out == out'
  {
    SeenKeys(k, hits);
    hide TotalMap, SeenMap, IsRanking, Injective, FusedHit;
    RankingUnique(r, r', TotalMap(k, hits), SeenMap(ListNotes(k, hits)));
  }

  lemma SeenKeys(k: nat, hits: seq<Hit>)
    requires k > 0
    ensures Injective(SeenMap(ListNotes(k, hits))) && TotalMap(k, hits).Keys <= SeenMap(ListNotes(k, hits)).Keys
  {
    var o, m := Order(ListNotes(k, hits)), SeenMap(ListNotes(k, hits));
    hide Order, ScoreOf, ListNotes;
    forall a, b | a in m && b in m && a != b ensures m[a] != m[b] {
      assert o[Place(o, a)] == a && o[Place(o, b)] == b;
    }
  }

  lemma FusedFields(k: nat, hits: seq<Hit>, id: string, i: nat)
    requires k > 0
    ensures FusedHit(k, hits, id, i).id == id && FusedHit(k, hits, id, i).rank == i + 1
    ensures FusedHit(k, hits, id, i).score == ScoreOf(ListNotes(k, hits), id)
  {
    FirstHitIs(hits, id);
    hide FirstHit, ScoreOf, ListNotes;
  }

  lemma TotalAt(k: nat, hits: seq<Hit>, id: string)
    requires k > 0 && id in TotalMap(k, hits)
    ensures TotalMap(k, hits)[id] == ScoreOf(ListNotes(k, hits), id)
  {
    hide Order, ScoreOf, ListNotes;
  }

  lemma FusionShape(k: nat, hits: seq<Hit>, cap: nat, r: seq<string>, out: seq<Hit>)
    requires k > 0 && RanksTotals(k, hits, r) && FusesAs(k, hits, cap, r, out)
    ensures forall i :: 0 <= i < |out| ==> out[i].rank == i + 1 && out[i].id == r[i]
    ensures forall i, j :: 0 <= i < j < |out| ==> out[i].score >= out[j].score && out[i].id != out[j].id
  {
    hide TotalMap, SeenMap, ScoreOf, ListNotes, FusedHit, Before;
    var final, seen := TotalMap(k, hits), SeenMap(ListNotes(k, hits));
    SortedDistinct(r, final, seen);
    forall i | 0 <= i < |out|
      ensures out[i].rank == i + 1 && out[i].id == r[i] && out[i].score == final[r[i]]
    {
      assert r[i] in r;
      FusedFields(k, hits, r[i], i);
      TotalAt(k, hits, r[i]);
    }
    forall i, j | 0 <= i < j < |out| ensures out[i].score >= out[j].score {
      NeverRising(r, final, seen, i, j);
    }
  }

  /** A ranked list: each id once, the ranks rising. */
  ghost predicate RankedList(list: seq<Hit>) {
    forall i, j :: 0 <= i < j < |list| ==> list[i].id != list[j].id && list[i].rank < list[j].rank
  }

  ghost predicate AheadInList(list: seq<Hit>, a: string, b: string) {
    forall j :: 0 <= j < |list| && list[j].id == b ==> exists i :: 0 <= i < j && list[i].id == a
  }

  lemma ListFalls(k: nat, list: seq<Hit>)
    requires k > 0 && RankedList(list)
    ensures Falling(ListNotes(k, list))
  {
    var notes := ListNotes(k, list);
    forall i | 0 <= i < |notes| ensures notes[i].gain > 0.0 {
      Reciprocals((k + list[i].rank) as real, (k + list[i].rank + 1) as real);
    }
    forall i, j | 0 <= i < j < |notes| ensures notes[i].id != notes[j].id && notes[i].gain > notes[j].gain {
      Reciprocals((k + list[i].rank) as real, (k + list[j].rank) as real);
    }
  }

  lemma ListAhead(k: nat, list: seq<Hit>, a: string, b: string)
    requires k > 0 && AheadInList(list, a, b)
    ensures AheadIn(ListNotes(k, list), a, b)
    ensures Lists(ListNotes(k, list), b) <==> Has(list, b)
  {
    var notes := ListNotes(k, list);
    assert forall i :: 0 <= i < |notes| ==> notes[i].id == list[i].id;
    hide ListNotes, First;
    if Lists(notes, b) {
      assert list[First(notes, b)].id == b;
      var i :| 0 <= i < First(notes, b) && list[i].id == a;
      assert First(notes, a) <= i;
    }
    if Has(list, b) {
      var j :| 0 <= j < |list| && list[j].id == b;
      assert notes[j].id == b;
    }
  }

  lemma {:induction false} ConcatNotes(k: nat, lists: seq<seq<Hit>>)
    requires k > 0
    ensures Flatten(AllNotes(k, lists)) == ListNotes(k, Concat(lists))
    decreases |lists|
  {
    if lists == [] {
      assert AllNotes(k, lists) == [];
    } else {
      var init, last := lists[..|lists| - 1], lists[|lists| - 1];
      ConcatNotes(k, init);
      assert AllNotes(k, lists)[..|lists| - 1] == AllNotes(k, init);
      NotesConcat(k, Concat(init), last);
    }
  }

  lemma NotesConcat(k: nat, a: seq<Hit>, b: seq<Hit>)
    requires k > 0
    ensures ListNotes(k, a + b) == ListNotes(k, a) + ListNotes(k, b)
  {
    hide RankGain;
  }

  lemma {:induction false} HasInConcat(lists: seq<seq<Hit>>, id: string)
    ensures Has(Concat(lists), id) <==> exists i :: 0 <= i < |lists| && Has(lists[i], id)
    decreases |lists|
  {
    if lists == [] {
      assert Concat(lists) == [];
    } else {
      var init, last := lists[..|lists| - 1], lists[|lists| - 1];
      HasInConcat(init, id);
      HasConcat(Concat(init), last, id);
      hide Has, Concat;
      if exists i :: 0 <= i < |lists| && Has(lists[i], id) {
        var i :| 0 <= i < |lists| && Has(lists[i], id);
        assert i < |init| ==> Has(init[i], id);
      }
      if exists i :: 0 <= i < |init| && Has(init[i], id) {
        var i :| 0 <= i < |init| && Has(init[i], id);
        assert Has(lists[i], id);
      }
    }
  }

  lemma HasConcat(a: seq<Hit>, b: seq<Hit>, id: string)
    ensures Has(a + b, id) <==> Has(a, id) || Has(b, id)
  {
    var all := a + b;
    if Has(a, id) {
      var i :| 0 <= i < |a| && a[i].id == id;
      assert all[i].id == id;
    }
    if Has(b, id) {
      var i :| 0 <= i < |b| && b[i].id == id;
      assert all[|a| + i].id == id;
    }
    if Has(all, id) {
      var i :| 0 <= i < |all| && all[i].id == id;
      assert i < |a| ==> a[i].id == id;
      assert i >= |a| ==> b[i - |a|].id == id;
    }
  }

  lemma AheadScores(k: nat, lists: seq<seq<Hit>>, a: string, b: string)
    requires k > 0 && Has(Concat(lists), b)
    requires forall i :: 0 <= i < |lists| ==> RankedList(lists[i]) && AheadInList(lists[i], a, b)
    ensures ScoreOf(ListNotes(k, Concat(lists)), a) > ScoreOf(ListNotes(k, Concat(lists)), b)
  {
    var notes := AllNotes(k, lists);
    hide RankedList, AheadInList, Has, Concat, ScoreOf, Falling, AheadIn, Lists, ListNotes, Flatten;
    forall i | 0 <= i < |notes|
      ensures Falling(notes[i]) && AheadIn(notes[i], a, b) && (Lists(notes[i], b) <==> Has(lists[i], b))
    {
      ListFalls(k, lists[i]);
      ListAhead(k, lists[i], a, b);
    }
    HasInConcat(lists, b);
    var i :| 0 <= i < |lists| && Has(lists[i], b);
    assert Lists(notes[i], b);
    ConcatNotes(k, lists);
    AheadScoresMore(notes, a, b);
  }

  /** A hit strictly ahead of another in every list that lists the other comes first. */
  lemma AheadComesFirst(k: nat, lists: seq<seq<Hit>>, cap: nat, r: seq<string>, out: seq<Hit>, a: string, j: nat) returns (i: nat)
    requires k > 0 && RanksTotals(k, Concat(lists), r) && FusesAs(k, Concat(lists), cap, r, out) && j < |out|
    requires forall l :: 0 <= l < |lists| ==> RankedList(lists[l]) && AheadInList(lists[l], a, out[j].id)
    ensures i < j && out[i].id == a
  {
    hide RankedList, AheadInList, TotalMap, SeenMap, ScoreOf, ListNotes, FusedHit, Before, Concat, Has;
    var hits := Concat(lists);
    var final, seen := TotalMap(k, hits), SeenMap(ListNotes(k, hits));
    FusionShape(k, hits, cap, r, out);
    var b := r[j];
    assert b in r;
    RankedIsListed(k, hits, b);
    AheadScores(k, lists, a, b);
    AheadListed(lists, a, b);
    RankedIsListed(k, hits, a);
    assert a in r;
    i :| 0 <= i < |r| && r[i] == a;
    TotalAt(k, hits, a);
    TotalAt(k, hits, b);
    GreaterFirst(r, final, seen, i, j);
  }

  lemma RankedIsListed(k: nat, hits: seq<Hit>, id: string)
    requires k > 0
    ensures id in TotalMap(k, hits) <==> Has(hits, id)
  {
    ListedHasHit(k, hits, id);
    FirstHitIs(hits, id);
    hide Order, ScoreOf, ListNotes, FirstHit;
  }

  lemma AheadListed(lists: seq<seq<Hit>>, a: string, b: string)
    requires Has(Concat(lists), b) && forall i :: 0 <= i < |lists| ==> AheadInList(lists[i], a, b)
    ensures Has(Concat(lists), a)
  {
    HasInConcat(lists, a);
    HasInConcat(lists, b);
    hide Concat;
    var l :| 0 <= l < |lists| && Has(lists[l], b);
    var j :| 0 <= j < |lists[l]| && lists[l][j].id == b;
    assert AheadInList(lists[l], a, b);
    var i :| 0 <= i < j && lists[l][i].id == a;
    assert Has(lists[l], a);
  }
}
