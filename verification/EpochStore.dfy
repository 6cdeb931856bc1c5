/** The objects the runner works on: the tables, the bundle directory and the git
    repository. Every call to one of them may fail and then changes nothing. */
module EpochStore {
  import opened Wrappers
  import opened EpochModel
  import opened EpochInvariants
  import opened EpochHistory

  /** How many more calls to the outside succeed. */
  class Fate {
    var left: nat

    constructor (left: nat)
      ensures this.left == left
    {
      this.left := left;
    }

    method Next() returns (ok: bool)
      modifies this
      ensures ok <==> old(left) > 0
    {
      ok := left > 0;
      if ok {
        left := left - 1;
      }
    }
  }

  /** internal/store/postgres: each method is one statement or one transaction. */
  class Store {
    const fate: Fate
    var concept: map<Id, ConceptRow>
    var embedding: map<(Id, int), Embedding>
    var edges: map<Id, seq<Id>>
    var epochs: map<int, EpochRow>
    var facts: seq<Fact>
    var clock: int

    ghost function Tables(): Db
      reads this
    {
      Db(concept, embedding, edges, epochs, facts, clock)
    }

    constructor (fate: Fate)
      ensures this.fate == fate
      ensures Tables() == Db(map[], map[], map[], map[], [], 0)
    {
      this.fate := fate;
      concept, embedding, edges, epochs, facts, clock := map[], map[], map[], map[], [], 0;
    }

    method CurrentSHAs() returns (ok: bool, shas: map<Id, string>)
      modifies fate
      ensures ok ==> shas == CurrentShas(Tables())
    {
      ok := fate.Next();
      shas := map id | id in concept :: concept[id].content.sha;
    }

    /** max(n), or -1 when there is no epoch. */
    method MaxEpoch() returns (top: int)
      ensures |epochs| == 0 ==> top == -1
      ensures |epochs| > 0 ==> top in epochs && forall e :: e in epochs ==> e <= top
    {
      var todo := epochs.Keys;
      top := -1;
      while todo != {}
        invariant todo <= epochs.Keys
        invariant todo == epochs.Keys ==> top == -1
        invariant todo != epochs.Keys ==> top in epochs && forall e :: e in epochs && e !in todo ==> e <= top
        decreases |todo|
      {
        SomeEpoch(todo);
        var e :| e in todo;
        if todo == epochs.Keys || e > top {
          top := e;
        }
        todo := todo - {e};
      }
    }

    method NextEpoch(source: string, added: nat, changed: nat, removed: nat) returns (ok: bool, n: int, at: int)
      modifies fate, this`epochs, this`clock
      ensures !ok ==> Tables() == old(Tables())
      ensures ok ==> n == NextNumber(old(epochs)) && at == old(clock) + 1
      ensures ok ==> Tables() == old(Tables()).(
        epochs := old(epochs)[n := EpochRow(at, source, None, added, changed, removed)], clock := at)
    {
      ok := fate.Next();
      n, at := 0, 0;
      if ok {
        var top := MaxEpoch();
        n := if |epochs| == 0 then 0 else top + 1;
        NextIs(epochs, top, n);
        at := clock + 1;
        epochs := epochs[n := EpochRow(at, source, None, added, changed, removed)];
        clock := at;
      }
    }

    method UpsertConcept(c: Concept) returns (ok: bool)
      modifies fate, this`concept
      ensures Tables() == if ok then old(Tables()).(concept := Upsert(old(concept), c)) else old(Tables())
    {
      ok := fate.Next();
      if ok {
        concept := Upsert(concept, c);
      }
    }

    method UpsertEmbedding(id: Id, epoch: int, e: Embedding) returns (ok: bool)
      modifies fate, this`embedding
      ensures Tables() == if ok then old(Tables()).(embedding := old(embedding)[(id, epoch) := e]) else old(Tables())
    {
      ok := fate.Next();
      if ok {
        embedding := embedding[(id, epoch) := e];
      }
    }

    /** Deletes what was there and inserts the links one by one, in one transaction. */
    method ReplaceEdges(id: Id, links: seq<Id>) returns (ok: bool)
      modifies fate, this`edges
      ensures Tables() == if ok then old(Tables()).(edges := old(edges)[id := links]) else old(Tables())
    {
      ok := fate.Next();
      if ok {
        var inserted := [];
        for i := 0 to |links|
          invariant inserted == links[..i]
        {
          inserted := inserted + [links[i]];
        }
        assert links[..|links|] == links;
        edges := edges[id := inserted];
      }
    }

    /** Closes the open version in place, then appends the new one. */
    method RecordVersion(c: Concept, validFrom: int) returns (ok: bool)
      modifies fate, this`facts, this`clock
      ensures Tables() == if ok then RecordFact(old(Tables()), c, validFrom) else old(Tables())
    {
      ok := fate.Next();
      if ok {
        var now := clock + 1;
        var rows := facts;
        for i := 0 to |facts|
          invariant |rows| == |facts|
          invariant forall j :: 0 <= j < i ==> rows[j] == CloseOpen(facts, c.id, validFrom, now)[j]
          invariant forall j :: i <= j < |facts| ==> rows[j] == facts[j]
        {
          if rows[i].id == c.id && IsOpen(rows[i]) {
            rows := rows[i := rows[i].(validTo := Some(validFrom), txTo := Some(now))];
          }
        }
        assert rows == CloseOpen(facts, c.id, validFrom, now);
        clock := now + 1;
        facts := rows + [Fact(c.id, c.content.kind, c.content.title, c.content.sha, c.epoch, validFrom, None, clock, None)];
      }
    }

    method SetEpochCommit(n: int, commit: nat) returns (ok: bool)
      modifies fate, this`epochs
      ensures Tables() ==
        if ok && n in old(epochs) then old(Tables()).(epochs := old(epochs)[n := old(epochs)[n].(commit := Some(commit))])
        else old(Tables())
    {
      ok := fate.Next();
      if ok && n in epochs {
        epochs := epochs[n := epochs[n].(commit := Some(commit))];
      }
    }

    method PruneEmbeddings() returns (ok: bool)
      modifies fate, this`embedding
      ensures Tables() == if ok then old(Tables()).(embedding := Prune(old(embedding))) else old(Tables())
    {
      ok := fate.Next();
      if ok {
        embedding := Prune(embedding);
      }
    }

    method Truncate() returns (ok: bool)
      modifies fate, this
      ensures Tables() == if ok then Db(map[], map[], map[], map[], [], old(clock)) else old(Tables())
    {
      ok := fate.Next();
      if ok {
        concept, embedding, edges, epochs, facts := map[], map[], map[], map[], [];
      }
    }

    /** One version for each concept that has one up to the epoch: keep the first seen
        unless a later one is of a greater epoch. */
    method AsOf(n: int) returns (ok: bool, m: map<Id, Fact>)
      modifies fate
      ensures ok ==> IsAsOf(Tables(), n, m)
    {
      ok := fate.Next();
      m := map[];
      for i := 0 to |facts|
        invariant AsOfPart(facts[..i], concept, n, m)
      {
        var f := facts[i];
        ghost var before := m;
        if f.id in concept && f.epoch <= n && (f.id !in m || m[f.id].epoch < f.epoch) {
          m := m[f.id := f];
        }
        assert facts[..i + 1] == facts[..i] + [f];
        AsOfStep(facts[..i], concept, f, n, before, m);
      }
      assert facts[..|facts|] == facts;
    }
  }

  lemma NextIs(epochs: map<int, EpochRow>, top: int, n: int)
    requires |epochs| > 0 ==> top in epochs && forall e :: e in epochs ==> e <= top
    requires n == if |epochs| == 0 then 0 else top + 1
    ensures n == NextNumber(epochs)
  {
    if |epochs| > 0 {
      NextNumberIs(epochs, n);
    }
  }

  ghost predicate AsOfPart(facts: seq<Fact>, concept: map<Id, ConceptRow>, n: int, m: map<Id, Fact>) {
    && (forall id :: id in m <==> id in concept && Visible(facts, id, n))
    && forall id :: id in m ==> LatestAt(facts, id, n, m[id])
  }

  lemma VisibleSnoc(facts: seq<Fact>, f: Fact, id: Id, n: int)
    ensures Visible(facts + [f], id, n) <==> Visible(facts, id, n) || Eligible(f, id, n)
  {
    var all := facts + [f];
    if Visible(facts, id, n) {
      var i :| 0 <= i < |facts| && Eligible(facts[i], id, n);
      assert Eligible(all[i], id, n);
    }
    if Eligible(f, id, n) {
      assert Eligible(all[|facts|], id, n);
    }
  }

  lemma LatestKept(facts: seq<Fact>, f: Fact, id: Id, n: int, g: Fact)
    requires LatestAt(facts, id, n, g) && (Eligible(f, id, n) ==> f.epoch <= g.epoch)
    ensures LatestAt(facts + [f], id, n, g)
  {
    var i :| 0 <= i < |facts| && facts[i] == g;
    assert (facts + [f])[i] == g;
  }

  lemma LatestReplaced(facts: seq<Fact>, f: Fact, n: int, g: Fact)
    requires f.epoch <= n && LatestAt(facts, f.id, n, g) && g.epoch < f.epoch
    ensures LatestAt(facts + [f], f.id, n, f)
  {
    assert (facts + [f])[|facts|] == f;
  }

  lemma LatestFirst(facts: seq<Fact>, f: Fact, n: int)
    requires f.epoch <= n && !Visible(facts, f.id, n)
    ensures LatestAt(facts + [f], f.id, n, f)
  {
    assert (facts + [f])[|facts|] == f;
  }

  lemma AsOfStep(facts: seq<Fact>, concept: map<Id, ConceptRow>, f: Fact, n: int, m: map<Id, Fact>, after: map<Id, Fact>)
    requires AsOfPart(facts, concept, n, m)
    requires after ==
      if f.id in concept && f.epoch <= n && (f.id !in m || m[f.id].epoch < f.epoch) then m[f.id := f] else m
    ensures AsOfPart(facts + [f], concept, n, after)
  {
    hide LatestAt, Visible;
    forall id ensures Visible(facts + [f], id, n) <==> Visible(facts, id, n) || Eligible(f, id, n) {
      VisibleSnoc(facts, f, id, n);
    }
    forall id | id in after ensures LatestAt(facts + [f], id, n, after[id]) {
      if id in m && after[id] == m[id] {
        assert LatestAt(facts, id, n, m[id]);
        LatestKept(facts, f, id, n, m[id]);
      } else if id in m {
        LatestReplaced(facts, f, n, m[id]);
      } else {
        LatestFirst(facts, f, n);
      }
    }
  }

  lemma SomeEpoch(s: set<int>)
    ensures s == {} || exists e :: e in s
  {
    if !exists e :: e in s {
      assert s == {};
    }
  }
}
