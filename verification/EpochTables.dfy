/** The tables after a completed Run or UpsertBatch, entry by entry, from the tables
    before. Nothing here says which writes were made. */
module EpochTables {
  import opened Wrappers
  import opened EpochModel
  import opened EpochRecovery
  import opened EpochInvariants
  import opened EpochBundle
  import opened EpochHistory
  import opened EpochSchedule

  // ---- what a batch leaves, table by table

  /** The batch has new rows, first seen when it was; no other row changes. */
  ghost predicate RowsWritten(before: map<Id, ConceptRow>, after: map<Id, ConceptRow>, cs: seq<Concept>, n: int) {
    && (forall i :: 0 <= i < |cs| ==>
      && cs[i].id in after
      && after[cs[i].id] == ConceptRow(cs[i].content, if cs[i].id in before then before[cs[i].id].firstEpoch else n, n))
    && forall id :: id !in Ids(cs) ==> SameEntry(before, after, id)
  }

  ghost predicate SameEntry<K, V>(before: map<K, V>, after: map<K, V>, k: K) {
    (k in after <==> k in before) && (k in before ==> k in after && after[k] == before[k])
  }

  function EmbeddingFor(env: Env, c: Content, at: int): Embedding {
    Embedding(env.embed(c.title + " " + c.intent + " " + c.body), env.model, at)
  }

  /** The embedding of its greatest epoch is the one embedding that an id keeps. */
  ghost predicate Newest(rows: map<(Id, int), Embedding>, id: Id, e: int) {
    (id, e) in rows && forall d :: (id, d) in rows ==> d <= e
  }

  /** Each id of the batch has one embedding, of its new text at the new epoch; any other
      id keeps the one of its greatest epoch. */
  ghost predicate EmbeddingsWritten(env: Env, before: map<(Id, int), Embedding>, after: map<(Id, int), Embedding>, cs: seq<Concept>, n: int, at: int) {
    && (forall i, e :: 0 <= i < |cs| ==> ((cs[i].id, e) in after <==> e == n))
    && (forall i :: 0 <= i < |cs| ==> (cs[i].id, n) in after && after[(cs[i].id, n)] == EmbeddingFor(env, cs[i].content, at))
    && (forall id, e :: id !in Ids(cs) ==> ((id, e) in after <==> Newest(before, id, e)))
    && forall k :: k in after && k.0 !in Ids(cs) ==> k in before && after[k] == before[k]
  }

  ghost predicate EdgesWritten(before: map<Id, seq<Id>>, after: map<Id, seq<Id>>, cs: seq<Concept>) {
    && (forall i :: 0 <= i < |cs| ==> cs[i].id in after && after[cs[i].id] == cs[i].links)
    && forall id :: id !in Ids(cs) ==> SameEntry(before, after, id)
  }

  predicate Superseding(f: Fact, c: Concept) {
    f.txTo.None? && f.id == c.id
  }

  /** Each concept of the batch closes its open version and adds one, two readings of the
      clock apart; no other version changes. */
  ghost predicate VersionsWritten(before: seq<Fact>, after: seq<Fact>, cs: seq<Concept>, n: int, at: int) {
    && |after| == |before| + |cs|
    && (forall i, j :: 0 <= i < |before| && 0 <= j < |cs| && Superseding(before[i], cs[j]) ==>
      after[i] == before[i].(validTo := Some(at), txTo := Some(at + 2 * j + 1)))
    && (forall i :: 0 <= i < |before| && (before[i].txTo.Some? || before[i].id !in Ids(cs)) ==> after[i] == before[i])
    && forall j :: 0 <= j < |cs| ==> after[|before| + j] == VersionFor(cs[j], n, at, at + 2 * j + 2)
  }

  function VersionFor(c: Concept, n: int, at: int, now: int): Fact {
    Fact(c.id, c.content.kind, c.content.title, c.content.sha, n, at, None, now, None)
  }

  /** The epoch has its row, dated, counted and stamped with its commit. */
  ghost predicate EpochWritten(before: map<int, EpochRow>, after: map<int, EpochRow>, n: int, row: EpochRow) {
    n !in before && n in after && after[n] == row && forall e :: e != n ==> SameEntry(before, after, e)
  }

  /** Every epoch number in the tables lies below the next one. */
  ghost predicate Dated(db: Db) {
    && (forall k :: k in db.embedding ==> k.1 < NextNumber(db.epochs))
    && forall id :: id in db.concept ==> db.concept[id].firstEpoch <= db.concept[id].lastEpoch < NextNumber(db.epochs)
  }

  /** Tables, log and commits after a batch with these counts. */
  ghost predicate BatchWritten(env: Env, cs: seq<Concept>, source: string, added: nat, changed: nat, removed: nat, w: World, w': World) {
    var n, at := NextNumber(w.db.epochs), w.db.clock + 1;
    && RowsWritten(w.db.concept, w'.db.concept, cs, n)
    && EmbeddingsWritten(env, w.db.embedding, w'.db.embedding, cs, n, at)
    && EdgesWritten(w.db.edges, w'.db.edges, cs)
    && VersionsWritten(w.db.facts, w'.db.facts, cs, n, at)
    && EpochWritten(w.db.epochs, w'.db.epochs, n, EpochRow(at, source, Some(w.commits + 1), added, changed, removed))
    && w'.log == w.log + [LogLine(at, n, source, added, changed, removed)]
    && w'.commits == w.commits + 1
  }

  // ---- concept by concept, before the old embeddings go

  ghost predicate EmbeddingsAdded(env: Env, before: map<(Id, int), Embedding>, after: map<(Id, int), Embedding>, cs: seq<Concept>, n: int, at: int) {
    && (forall i :: 0 <= i < |cs| ==> (cs[i].id, n) in after && after[(cs[i].id, n)] == EmbeddingFor(env, cs[i].content, at))
    && forall k: (Id, int) :: (k.1 == n ==> k.0 !in Ids(cs)) ==> SameEntry(before, after, k)
  }

  ghost predicate Filled(env: Env, before: Db, after: Db, cs: seq<Concept>, n: int, at: int) {
    && RowsWritten(before.concept, after.concept, cs, n)
    && EmbeddingsAdded(env, before.embedding, after.embedding, cs, n, at)
    && EdgesWritten(before.edges, after.edges, cs)
    && VersionsWritten(before.facts, after.facts, cs, n, at)
    && after.epochs == before.epochs && after.clock == at + 2 * |cs|
  }

  lemma RowsStep(before: map<Id, ConceptRow>, after: map<Id, ConceptRow>, cs: seq<Concept>, c: Concept, n: int)
    requires RowsWritten(before, after, cs, n) && c.epoch == n && c.id !in Ids(cs)
    requires c.id in before ==> before[c.id].firstEpoch <= before[c.id].lastEpoch < n
    ensures RowsWritten(before, Upsert(after, c), cs + [c], n)
  {
    IdsSnoc(cs, c);
    assert forall i :: 0 <= i < |cs| ==> cs[i].id in Ids(cs);
    assert SameEntry(before, after, c.id);
    hide Ids;
  }

  lemma EmbeddingsStep(env: Env, before: map<(Id, int), Embedding>, after: map<(Id, int), Embedding>, cs: seq<Concept>, c: Concept, n: int, at: int)
    requires EmbeddingsAdded(env, before, after, cs, n, at) && c.epoch == n && c.id !in Ids(cs)
    ensures EmbeddingsAdded(env, before, after[(c.id, n) := EmbeddingFor(env, c.content, at)], cs + [c], n, at)
  {
    IdsSnoc(cs, c);
    assert forall i :: 0 <= i < |cs| ==> cs[i].id in Ids(cs);
    hide Ids, EmbeddingFor;
  }

  lemma EdgesStep(before: map<Id, seq<Id>>, after: map<Id, seq<Id>>, cs: seq<Concept>, c: Concept)
    requires EdgesWritten(before, after, cs) && c.id !in Ids(cs)
    ensures EdgesWritten(before, after[c.id := c.links], cs + [c])
  {
    IdsSnoc(cs, c);
    assert forall i :: 0 <= i < |cs| ==> cs[i].id in Ids(cs);
    hide Ids;
  }

  lemma VersionsStep(before: seq<Fact>, db: Db, cs: seq<Concept>, c: Concept, n: int, at: int)
    requires VersionsWritten(before, db.facts, cs, n, at) && db.clock == at + 2 * |cs| && c.epoch == n && c.id !in Ids(cs)
    ensures VersionsWritten(before, RecordFact(db, c, at).facts, cs + [c], n, at)
  {
    IdsSnoc(cs, c);
    assert forall i :: 0 <= i < |cs| ==> cs[i].id in Ids(cs);
    hide Ids;
    var after := RecordFact(db, c, at).facts;
    var closed := CloseOpen(db.facts, c.id, at, db.clock + 1);
    CloseOpenIs(db.facts, c.id, at, db.clock + 1);
    assert after == closed + [VersionFor(c, n, at, db.clock + 2)];
    hide CloseOpen, RecordFact, VersionsWritten, VersionFor, SameVersions;
    OldVersions(before, db.facts, closed, cs, c, n, at);
    NewVersions(before, db.facts, closed, cs, c, n, at);
    VersionsJoin(before, closed, cs, c, n, at);
  }

  /** The versions that were there, after those of `c` are closed too. */
  ghost predicate OldOnes(before: seq<Fact>, after: seq<Fact>, cs: seq<Concept>, at: int) {
    && |before| <= |after|
    && (forall i, j :: 0 <= i < |before| && 0 <= j < |cs| && Superseding(before[i], cs[j]) ==>
      after[i] == before[i].(validTo := Some(at), txTo := Some(at + 2 * j + 1)))
    && (forall i :: 0 <= i < |before| && (before[i].txTo.Some? || before[i].id !in Ids(cs)) ==> after[i] == before[i])
  }

  ghost predicate NewOnes(first: nat, after: seq<Fact>, cs: seq<Concept>, n: int, at: int) {
    |after| >= first + |cs| && forall j :: 0 <= j < |cs| ==> after[first + j] == VersionFor(cs[j], n, at, at + 2 * j + 2)
  }

  lemma OldVersions(before: seq<Fact>, facts: seq<Fact>, closed: seq<Fact>, cs: seq<Concept>, c: Concept, n: int, at: int)
    requires VersionsWritten(before, facts, cs, n, at) && c.id !in Ids(cs) && Ids(cs + [c]) == Ids(cs) + {c.id}
    requires |closed| == |facts| && forall i :: 0 <= i < |facts| ==> closed[i] == Closed(facts[i], c.id, at, at + 2 * |cs| + 1)
    ensures OldOnes(before, closed, cs + [c], at)
  {
    hide VersionFor, Ids;
    var all := cs + [c];
    forall i, j | 0 <= i < |before| && 0 <= j < |all| && Superseding(before[i], all[j])
      ensures closed[i] == before[i].(validTo := Some(at), txTo := Some(at + 2 * j + 1))
    {
      if j < |cs| {
        assert Superseding(before[i], cs[j]);
      } else {
        assert before[i].id !in Ids(cs);
      }
    }
  }

  lemma NewVersions(before: seq<Fact>, facts: seq<Fact>, closed: seq<Fact>, cs: seq<Concept>, c: Concept, n: int, at: int)
    requires VersionsWritten(before, facts, cs, n, at) && forall j :: 0 <= j < |cs| ==> cs[j].id != c.id
    requires |closed| == |facts| && forall i :: 0 <= i < |facts| ==> closed[i] == Closed(facts[i], c.id, at, at + 2 * |cs| + 1)
    ensures NewOnes(|before|, closed, cs, n, at)
  {
    forall j | 0 <= j < |cs| ensures closed[|before| + j] == VersionFor(cs[j], n, at, at + 2 * j + 2) {
      assert facts[|before| + j] == VersionFor(cs[j], n, at, at + 2 * j + 2);
    }
  }

  lemma VersionsJoin(before: seq<Fact>, closed: seq<Fact>, cs: seq<Concept>, c: Concept, n: int, at: int)
    requires |closed| == |before| + |cs| && OldOnes(before, closed, cs + [c], at) && NewOnes(|before|, closed, cs, n, at)
    ensures VersionsWritten(before, closed + [VersionFor(c, n, at, at + 2 * |cs| + 2)], cs + [c], n, at)
  {
    hide VersionFor, Ids, Superseding;
    var after, all := closed + [VersionFor(c, n, at, at + 2 * |cs| + 2)], cs + [c];
    forall j | 0 <= j < |all| ensures after[|before| + j] == VersionFor(all[j], n, at, at + 2 * j + 2) {
      assert j < |cs| ==> after[|before| + j] == closed[|before| + j];
    }
  }

  lemma FilledStep(env: Env, before: Db, w: World, cs: seq<Concept>, c: Concept, n: int, at: int)
    requires Filled(env, before, w.db, cs, n, at) && c.epoch == n && c.id !in Ids(cs)
    requires c.id in before.concept ==> before.concept[c.id].firstEpoch <= before.concept[c.id].lastEpoch < n
    ensures Filled(env, before, ApplyConcept(env, c, at, w).db, cs + [c], n, at)
  {
    TablesOnly(env, c, at, w);
    TextIs(env, c.content, at);
    RowsStep(before.concept, w.db.concept, cs, c, n);
    EmbeddingsStep(env, before.embedding, w.db.embedding, cs, c, n, at);
    EdgesStep(before.edges, w.db.edges, cs, c);
    VersionsStep(before.facts, w.db, cs, c, n, at);
    hide RowsWritten, EmbeddingsAdded, EdgesWritten, VersionsWritten, Ids, ApplyConcept, RecordFact, Upsert;
  }

  lemma TextIs(env: Env, c: Content, at: int)
    ensures EmbeddingFor(env, c, at) == Embedding(env.embed(TextOf(c)), env.model, at)
  {
  }

  lemma NothingFilled(env: Env, db: Db, n: int)
    ensures Filled(env, db, db, [], n, db.clock)
  {
    assert Ids([]) == {};
  }

  /** Rows were first and last written in epochs before `n`. */
  ghost predicate RowsBefore(rows: map<Id, ConceptRow>, n: int) {
    forall id :: id in rows ==> rows[id].firstEpoch <= rows[id].lastEpoch < n
  }

  lemma {:induction false} BatchFills(env: Env, cs: seq<Concept>, n: int, w: World)
    requires DistinctIds(cs) && RowsBefore(w.db.concept, n) && forall i :: 0 <= i < |cs| ==> cs[i].epoch == n
    ensures Filled(env, w.db, ApplyBatch(env, cs, w.db.clock, w).db, cs, n, w.db.clock)
    decreases |cs|
  {
    if cs == [] {
      NothingFilled(env, w.db, n);
    } else {
      var at := w.db.clock;
      var init, c := cs[..|cs| - 1], cs[|cs| - 1];
      assert cs == init + [c];
      assert forall i :: 0 <= i < |init| ==> init[i] == cs[i];
      BatchFills(env, init, n, w);
      assert c.id !in Ids(init);
      ApplyBatchSnoc(env, init, c, at, w);
      hide Filled, ApplyConcept, ApplyBatch, Ids;
      FilledStep(env, w.db, ApplyBatch(env, init, at, w), init, c, n, at);
    }
  }

  // ---- the writes after the batch

  lemma {:induction false} DeletesApply(ids: seq<Id>, w: World)
    ensures ApplyAll(DeleteOps(ids), w) == w.(bundle := w.bundle - Members(ids))
    decreases |ids|
  {
    if ids == [] {
      assert w.bundle - Members(ids) == w.bundle;
    } else {
      var ops := DeleteOps(ids);
      assert ops[1..] == DeleteOps(ids[1..]);
      assert ops[0] == DeleteFile(ids[0]);
      DeletesApply(ids[1..], w.(bundle := w.bundle - {ids[0]}));
      MembersCons(ids);
      hide DeleteOps, Members;
      assert w.bundle - {ids[0]} - Members(ids[1..]) == w.bundle - ({ids[0]} + Members(ids[1..]));
    }
  }

  lemma FinishApplies(n: int, line: LogLine, commit: nat, w: World)
    requires n in w.db.epochs
    ensures ApplyAll(FinishOps(n, line, commit), w) ==
      World(w.bundle, w.log + [line], w.commits + 1,
        w.db.(epochs := w.db.epochs[n := w.db.epochs[n].(commit := Some(commit))], embedding := Prune(w.db.embedding)))
  {
    hide Prune;
    var ops := FinishOps(n, line, commit);
    var w1 := Apply(ops[0], w);
    var w2 := Apply(ops[1], w1);
    var w3 := Apply(ops[2], w2);
    var w4 := Apply(ops[3], w3);
    FinishStates(n, line, commit, w);
    hide Apply, FinishOps;
    assert ApplyAll(ops[3..], w3) == w4 by { assert ops[3..][1..] == []; }
    assert ApplyAll(ops[2..], w2) == w4 by { assert ops[2..][1..] == ops[3..]; }
    assert ApplyAll(ops[1..], w1) == w4 by { assert ops[1..][1..] == ops[2..]; }
    assert ApplyAll(ops, w) == w4;
  }

  lemma FinishStates(n: int, line: LogLine, commit: nat, w: World)
    requires n in w.db.epochs
    ensures
      var ops := FinishOps(n, line, commit);
      && |ops| == 4
      && Apply(ops[3], Apply(ops[2], Apply(ops[1], Apply(ops[0], w)))) ==
        World(w.bundle, w.log + [line], w.commits + 1,
          w.db.(epochs := w.db.epochs[n := w.db.epochs[n].(commit := Some(commit))], embedding := Prune(w.db.embedding)))
  {
    hide Prune;
  }

  /** What is left once the superseded embeddings are gone. */
  lemma PruneLeaves(env: Env, before: map<(Id, int), Embedding>, added: map<(Id, int), Embedding>, cs: seq<Concept>, n: int, at: int)
    requires EmbeddingsAdded(env, before, added, cs, n, at) && forall k :: k in before ==> k.1 < n
    ensures EmbeddingsWritten(env, before, Prune(added), cs, n, at)
  {
    hide EmbeddingFor;
    var after := Prune(added);
    forall i, e | 0 <= i < |cs| ensures (cs[i].id, e) in after <==> e == n {
      var id := cs[i].id;
      assert id in Ids(cs);
      assert (id, n) in added;
      assert e != n ==> SameEntry(before, added, (id, e));
      if e == n {
        forall m | m in added && m.0 == id ensures m.1 <= n {
          assert m.1 != n ==> SameEntry(before, added, m);
        }
      }
    }
    forall id, e | id !in Ids(cs) ensures (id, e) in after <==> Newest(before, id, e) {
      PruneOther(before, added, id, e, cs, n, env, at);
    }
    forall k | k in after && k.0 !in Ids(cs) ensures k in before && after[k] == before[k] {
      assert SameEntry(before, added, k);
    }
  }

  lemma PruneOther(before: map<(Id, int), Embedding>, added: map<(Id, int), Embedding>, id: Id, e: int, cs: seq<Concept>, n: int, env: Env, at: int)
    requires EmbeddingsAdded(env, before, added, cs, n, at) && id !in Ids(cs)
    ensures (id, e) in Prune(added) <==> Newest(before, id, e)
  {
    hide Ids, EmbeddingFor;
    forall d ensures SameEntry(before, added, (id, d)) {
    }
    if Newest(before, id, e) {
      forall m | m in added && m.0 == id ensures m.1 <= e {
        assert m == (id, m.1) && SameEntry(before, added, (id, m.1));
      }
    }
    if (id, e) in Prune(added) {
      forall d | (id, d) in before ensures d <= e {
        assert SameEntry(before, added, (id, d));
        assert (id, d) in added.Keys;
      }
    }
  }

  // ---- whole calls

  /** The concepts as given and as stamped say the same. */
  ghost predicate SaySame(cs: seq<Concept>, rs: seq<Concept>) {
    |cs| == |rs| && forall i :: 0 <= i < |cs| ==> rs[i].id == cs[i].id && rs[i].content == cs[i].content && rs[i].links == cs[i].links
  }

  lemma StampedSaySame(env: Env, cs: seq<Concept>, n: int, at: int)
    ensures SaySame(cs, StampedAll(env, cs, n, at))
    ensures forall i :: 0 <= i < |cs| ==> StampedAll(env, cs, n, at)[i].epoch == n
  {
  }

  lemma AsGiven(env: Env, before: Db, rows: map<Id, ConceptRow>, embeddings: map<(Id, int), Embedding>, edges: map<Id, seq<Id>>, facts: seq<Fact>,
      cs: seq<Concept>, rs: seq<Concept>, n: int, at: int)
    requires SaySame(cs, rs)
    requires RowsWritten(before.concept, rows, rs, n) && EmbeddingsWritten(env, before.embedding, embeddings, rs, n, at)
    requires EdgesWritten(before.edges, edges, rs) && VersionsWritten(before.facts, facts, rs, n, at)
    ensures RowsWritten(before.concept, rows, cs, n) && EmbeddingsWritten(env, before.embedding, embeddings, cs, n, at)
    ensures EdgesWritten(before.edges, edges, cs) && VersionsWritten(before.facts, facts, cs, n, at)
  {
    SameIds(cs, rs);
    hide Ids, EmbeddingFor;
    RowsAsGiven(before.concept, rows, cs, rs, n);
    EmbeddingsAsGiven(env, before.embedding, embeddings, cs, rs, n, at);
    EdgesAsGiven(before.edges, edges, cs, rs);
    VersionsAsGiven(before.facts, facts, cs, rs, n, at);
  }

  lemma RowsAsGiven(before: map<Id, ConceptRow>, after: map<Id, ConceptRow>, cs: seq<Concept>, rs: seq<Concept>, n: int)
    requires SaySame(cs, rs) && Ids(cs) == Ids(rs) && RowsWritten(before, after, rs, n)
    ensures RowsWritten(before, after, cs, n)
  {
    hide Ids;
  }

  lemma EmbeddingsAsGiven(env: Env, before: map<(Id, int), Embedding>, after: map<(Id, int), Embedding>, cs: seq<Concept>, rs: seq<Concept>, n: int, at: int)
    requires SaySame(cs, rs) && Ids(cs) == Ids(rs) && EmbeddingsWritten(env, before, after, rs, n, at)
    ensures EmbeddingsWritten(env, before, after, cs, n, at)
  {
    hide Ids, EmbeddingFor, Newest;
    forall i, e | 0 <= i < |cs| ensures (cs[i].id, e) in after <==> e == n {
      assert rs[i].id == cs[i].id;
      assert (rs[i].id, e) in after <==> e == n;
    }
  }

  lemma EdgesAsGiven(before: map<Id, seq<Id>>, after: map<Id, seq<Id>>, cs: seq<Concept>, rs: seq<Concept>)
    requires SaySame(cs, rs) && Ids(cs) == Ids(rs) && EdgesWritten(before, after, rs)
    ensures EdgesWritten(before, after, cs)
  {
    hide Ids;
  }

  lemma VersionsAsGiven(before: seq<Fact>, after: seq<Fact>, cs: seq<Concept>, rs: seq<Concept>, n: int, at: int)
    requires SaySame(cs, rs) && Ids(cs) == Ids(rs) && VersionsWritten(before, after, rs, n, at)
    ensures VersionsWritten(before, after, cs, n, at)
  {
    hide Ids;
    forall i, j | 0 <= i < |before| && 0 <= j < |cs| && Superseding(before[i], cs[j])
      ensures after[i] == before[i].(validTo := Some(at), txTo := Some(at + 2 * j + 1))
    {
      assert Superseding(before[i], rs[j]);
    }
    forall j | 0 <= j < |cs| ensures after[|before| + j] == VersionFor(cs[j], n, at, at + 2 * j + 2) {
      assert VersionFor(cs[j], n, at, at + 2 * j + 2) == VersionFor(rs[j], n, at, at + 2 * j + 2);
    }
  }

  /** The writes of a call with these counts that deletes these files. */
  ghost function Writes(env: Env, cs: seq<Concept>, source: string, added: nat, changed: nat, removed: nat, sweep: seq<Id>, w: World): seq<Op> {
    var n, at := NextNumber(w.db.epochs), w.db.clock + 1;
    [CutEpoch(source, added, changed, removed)]
      + BatchOps(env, StampedAll(env, cs, n, at), at)
      + DeleteOps(sweep)
      + FinishOps(n, LogLine(at, n, source, added, changed, removed), w.commits + 1)
  }

  /** The world once the batch is written. */
  ghost function Middle(env: Env, cs: seq<Concept>, cut: Op, w: World): World {
    var n, at := NextNumber(w.db.epochs), w.db.clock + 1;
    ApplyBatch(env, StampedAll(env, cs, n, at), at, Apply(cut, w))
  }

  function Without(w: World, sweep: seq<Id>): World {
    w.(bundle := w.bundle - Members(sweep))
  }

  lemma FourParts(a: seq<Op>, b: seq<Op>, c: seq<Op>, d: seq<Op>, w: World)
    ensures ApplyAll(a + b + c + d, w) == ApplyAll(d, ApplyAll(c, ApplyAll(b, ApplyAll(a, w))))
  {
    hide *;
    ApplyConcat(a + b + c, d, w);
    ApplyConcat(a + b, c, w);
    ApplyConcat(a, b, w);
  }

  lemma MiddleIs(env: Env, cs: seq<Concept>, cut: Op, w: World)
    ensures
      var n, at := NextNumber(w.db.epochs), w.db.clock + 1;
      ApplyAll(BatchOps(env, StampedAll(env, cs, n, at), at), ApplyAll([cut], w)) == Middle(env, cs, cut, w)
  {
    var n, at := NextNumber(w.db.epochs), w.db.clock + 1;
    ApplyOne(cut, w);
    BatchOpsApply(env, StampedAll(env, cs, n, at), at, Apply(cut, w));
    hide StampedAll, NextNumber, BatchOps, Apply, ApplyAll, ApplyBatch;
  }

  lemma SweptIs(sweep: seq<Id>, w: World)
    ensures ApplyAll(DeleteOps(sweep), w) == Without(w, sweep)
  {
    hide DeleteOps, ApplyAll, Members;
    DeletesApply(sweep, w);
  }

  lemma WritesAre(env: Env, cs: seq<Concept>, source: string, added: nat, changed: nat, removed: nat, sweep: seq<Id>, w: World)
    returns (batch: seq<Op>, finish: seq<Op>)
    ensures
      var n, at := NextNumber(w.db.epochs), w.db.clock + 1;
      && batch == BatchOps(env, StampedAll(env, cs, n, at), at)
      && finish == FinishOps(n, LogLine(at, n, source, added, changed, removed), w.commits + 1)
      && Writes(env, cs, source, added, changed, removed, sweep, w) ==
        [CutEpoch(source, added, changed, removed)] + batch + DeleteOps(sweep) + finish
  {
    hide StampedAll, NextNumber, BatchOps, DeleteOps, FinishOps;
    var n, at := NextNumber(w.db.epochs), w.db.clock + 1;
    batch := BatchOps(env, StampedAll(env, cs, n, at), at);
    finish := FinishOps(n, LogLine(at, n, source, added, changed, removed), w.commits + 1);
  }

  lemma WritesApply(env: Env, cs: seq<Concept>, source: string, added: nat, changed: nat, removed: nat, sweep: seq<Id>, w: World)
    ensures
      var n, at := NextNumber(w.db.epochs), w.db.clock + 1;
      ApplyAll(Writes(env, cs, source, added, changed, removed, sweep, w), w) ==
        ApplyAll(FinishOps(n, LogLine(at, n, source, added, changed, removed), w.commits + 1),
          Without(Middle(env, cs, CutEpoch(source, added, changed, removed), w), sweep))
  {
    hide *;
    var cut := CutEpoch(source, added, changed, removed);
    var batch, finish := WritesAre(env, cs, source, added, changed, removed, sweep, w);
    MiddleIs(env, cs, cut, w);
    SweptIs(sweep, Middle(env, cs, cut, w));
    FourParts([cut], batch, DeleteOps(sweep), finish, w);
  }

  lemma MiddleFilled(env: Env, cs: seq<Concept>, cut: Op, w: World)
    requires DistinctIds(cs) && Dated(w.db) && cut.CutEpoch?
    ensures
      var n, at, w2 := NextNumber(w.db.epochs), w.db.clock + 1, Middle(env, cs, cut, w);
      && Filled(env, w.db.(epochs := w2.db.epochs), w2.db, StampedAll(env, cs, n, at), n, at)
      && w2.db.epochs == w.db.epochs[n := EpochRow(at, cut.source, None, cut.added, cut.changed, cut.removed)]
      && w2.log == w.log && w2.commits == w.commits
  {
    var n, at := NextNumber(w.db.epochs), w.db.clock + 1;
    var rs := StampedAll(env, cs, n, at);
    var w1 := Apply(cut, w);
    AfterTheCut(cut, w);
    BatchFilled(env, cs, n, at, w1);
    hide StampedAll, NextNumber, Apply, Filled, DistinctIds, Dated, ApplyBatch, RowsBefore;
    FilledElsewhere(env, w1.db, w.db.(epochs := w1.db.epochs), Middle(env, cs, cut, w).db, rs, n, at);
  }

  lemma BatchFilled(env: Env, cs: seq<Concept>, n: int, at: int, w1: World)
    requires DistinctIds(cs) && RowsBefore(w1.db.concept, n) && w1.db.clock == at
    ensures
      var w2 := ApplyBatch(env, StampedAll(env, cs, n, at), at, w1);
      && Filled(env, w1.db, w2.db, StampedAll(env, cs, n, at), n, at)
      && w2.db.epochs == w1.db.epochs && w2.log == w1.log && w2.commits == w1.commits
  {
    StampedSaySame(env, cs, n, at);
    StampedDistinct(env, cs, n, at);
    hide StampedAll, Filled, DistinctIds, ApplyBatch, RowsBefore, Ids;
    BatchFills(env, StampedAll(env, cs, n, at), n, w1);
    BatchFrame(env, StampedAll(env, cs, n, at), at, w1);
  }

  lemma AfterTheCut(cut: Op, w: World)
    requires cut.CutEpoch? && Dated(w.db)
    ensures
      var n, at, w1 := NextNumber(w.db.epochs), w.db.clock + 1, Apply(cut, w);
      && w1.db == w.db.(epochs := w.db.epochs[n := EpochRow(at, cut.source, None, cut.added, cut.changed, cut.removed)], clock := at)
      && w1.log == w.log && w1.commits == w.commits && RowsBefore(w1.db.concept, n)
  {
  }

  lemma FilledElsewhere(env: Env, a: Db, b: Db, after: Db, cs: seq<Concept>, n: int, at: int)
    requires Filled(env, a, after, cs, n, at)
    requires a.concept == b.concept && a.embedding == b.embedding && a.edges == b.edges && a.facts == b.facts && a.epochs == b.epochs
    ensures Filled(env, b, after, cs, n, at)
  {
    hide RowsWritten, EmbeddingsAdded, EdgesWritten, VersionsWritten;
  }

  /** The whole of it. */
  lemma WritesBatch(env: Env, cs: seq<Concept>, source: string, added: nat, changed: nat, removed: nat, sweep: seq<Id>, w: World)
    requires DistinctIds(cs) && Dated(w.db)
    ensures BatchWritten(env, cs, source, added, changed, removed, w, ApplyAll(Writes(env, cs, source, added, changed, removed, sweep, w), w))
  {
    hide *;
    var cut := CutEpoch(source, added, changed, removed);
    MiddleFilled(env, cs, cut, w);
    WritesApply(env, cs, source, added, changed, removed, sweep, w);
    FinishedIs(env, cs, cut, sweep, w, Middle(env, cs, cut, w));
  }

  lemma FilledWritten(env: Env, before: Db, epochs: map<int, EpochRow>, after: Db, cs: seq<Concept>, n: int, at: int)
    requires Dated(before) && n == NextNumber(before.epochs)
    requires Filled(env, before.(epochs := epochs), after, StampedAll(env, cs, n, at), n, at)
    ensures RowsWritten(before.concept, after.concept, cs, n)
    ensures EmbeddingsWritten(env, before.embedding, Prune(after.embedding), cs, n, at)
    ensures EdgesWritten(before.edges, after.edges, cs) && VersionsWritten(before.facts, after.facts, cs, n, at)
  {
    var rs := StampedAll(env, cs, n, at);
    StampedSaySame(env, cs, n, at);
    DatedEmbeddings(before);
    hide StampedAll, NextNumber, Dated, RowsWritten, EdgesWritten, VersionsWritten, EmbeddingsWritten, EmbeddingsAdded, Prune, SaySame,
      SameEntry;
    PruneLeaves(env, before.embedding, after.embedding, rs, n, at);
    AsGiven(env, before, after.concept, Prune(after.embedding), after.edges, after.facts, cs, rs, n, at);
  }

  lemma FinishedIs(env: Env, cs: seq<Concept>, cut: Op, sweep: seq<Id>, w: World, w2: World)
    requires cut.CutEpoch? && DistinctIds(cs) && Dated(w.db)
    requires
      var n, at := NextNumber(w.db.epochs), w.db.clock + 1;
      && Filled(env, w.db.(epochs := w2.db.epochs), w2.db, StampedAll(env, cs, n, at), n, at)
      && w2.db.epochs == w.db.epochs[n := EpochRow(at, cut.source, None, cut.added, cut.changed, cut.removed)]
      && w2.log == w.log && w2.commits == w.commits
    ensures
      var n, at := NextNumber(w.db.epochs), w.db.clock + 1;
      BatchWritten(env, cs, cut.source, cut.added, cut.changed, cut.removed, w,
        ApplyAll(FinishOps(n, LogLine(at, n, cut.source, cut.added, cut.changed, cut.removed), w.commits + 1), Without(w2, sweep)))
  {
    hide StampedAll, NextNumber, Dated, DistinctIds, FinishOps, ApplyAll, RowsWritten, EdgesWritten, VersionsWritten, EmbeddingsWritten,
      Filled, EpochWritten, Prune, Members;
    var n, at := NextNumber(w.db.epochs), w.db.clock + 1;
    NewNumber(w.db.epochs);
    FilledWritten(env, w.db, w2.db.epochs, w2.db, cs, n, at);
    FinishApplies(n, LogLine(at, n, cut.source, cut.added, cut.changed, cut.removed), w.commits + 1, Without(w2, sweep));
    RowAdded(w.db.epochs, w2.db.epochs, n, w.commits + 1);
  }

  lemma RowAdded(before: map<int, EpochRow>, added: map<int, EpochRow>, n: int, commit: nat)
    requires n !in before && n in added && added == before[n := added[n]]
    ensures
      var row := added[n].(commit := Some(commit));
      EpochWritten(before, added[n := row], n, row)
  {
  }

  lemma NewNumber(epochs: map<int, EpochRow>)
    ensures NextNumber(epochs) !in epochs
  {
  }

  lemma DatedEmbeddings(db: Db)
    requires Dated(db)
    ensures forall k :: k in db.embedding ==> k.1 < NextNumber(db.epochs)
  {
    hide NextNumber;
  }

  // ---- the counts of a Run

  function NewIds(cs: seq<Concept>, rows: map<Id, ConceptRow>): set<Id> {
    set i | 0 <= i < |cs| && cs[i].id !in rows :: cs[i].id
  }

  function ChangedIds(cs: seq<Concept>, rows: map<Id, ConceptRow>): set<Id> {
    set i | 0 <= i < |cs| && cs[i].id in rows && rows[cs[i].id].content.sha != cs[i].content.sha :: cs[i].id
  }

  lemma CountsAre(cs: seq<Concept>, db: Db)
    requires DistinctIds(cs)
    ensures DiffSets(CurrentShas(db), BatchShas(cs)) == Diff(NewIds(cs, db.concept), ChangedIds(cs, db.concept), db.concept.Keys - Ids(cs))
  {
    ShasKeys(cs);
    forall i | 0 <= i < |cs| ensures cs[i].id in BatchShas(cs) && BatchShas(cs)[cs[i].id] == cs[i].content.sha {
      ShaOf(cs, i);
    }
    hide BatchShas;
  }

  /** A completed Run, from tables in order: rows, embeddings, edges, versions, the epoch,
      the log and the commits are those of its batch; it counts the ids that had no row,
      those with another SHA, and the rows it leaves out. */
  lemma RunTables(env: Env, cs: seq<Concept>, source: string, sweep: seq<Id>, w: World)
    requires DistinctIds(cs) && Dated(w.db)
    ensures Plan(env, Run(cs, source), sweep, w).Some?
    ensures BatchWritten(env, cs, source,
      |NewIds(cs, w.db.concept)|, |ChangedIds(cs, w.db.concept)|, |w.db.concept.Keys - Ids(cs)|, w, After(env, Run(cs, source), sweep, w))
  {
    CountsAre(cs, w.db);
    var d := DiffSets(CurrentShas(w.db), BatchShas(cs));
    RunIsWrites(env, cs, source, sweep, w);
    hide DiffSets, CurrentShas, BatchShas, DistinctIds, Dated, BatchWritten, Plan, NewIds, ChangedIds, Ids, Writes, After;
    AfterIs(env, Run(cs, source), sweep, w);
    WritesBatch(env, cs, source, |d.added|, |d.changed|, |d.removed|, sweep, w);
  }

  lemma RunIsWrites(env: Env, cs: seq<Concept>, source: string, sweep: seq<Id>, w: World)
    ensures
      var d := DiffSets(CurrentShas(w.db), BatchShas(cs));
      Plan(env, Run(cs, source), sweep, w) == Some(Writes(env, cs, source, |d.added|, |d.changed|, |d.removed|, sweep, w))
  {
    hide DiffSets, CurrentShas, BatchShas, BatchOps, StampedAll, DeleteOps, FinishOps, NextNumber;
  }

  /** A completed UpsertBatch the same; it counts all its concepts as changed. */
  lemma UpsertTables(env: Env, cs: seq<Concept>, source: string, sweep: seq<Id>, w: World)
    requires DistinctIds(cs) && Dated(w.db) && cs != []
    ensures Plan(env, UpsertBatch(cs, source), sweep, w).Some?
    ensures BatchWritten(env, cs, source, 0, |cs|, 0, w, After(env, UpsertBatch(cs, source), sweep, w))
  {
    UpsertIsWrites(env, cs, source, sweep, w);
    hide DistinctIds, Dated, BatchWritten, Plan, Writes, After;
    AfterIs(env, UpsertBatch(cs, source), sweep, w);
    WritesBatch(env, cs, source, 0, |cs|, 0, [], w);
  }

  lemma UpsertIsWrites(env: Env, cs: seq<Concept>, source: string, sweep: seq<Id>, w: World)
    requires cs != []
    ensures Plan(env, UpsertBatch(cs, source), sweep, w) == Some(Writes(env, cs, source, 0, |cs|, 0, [], w))
  {
    var n, at := NextNumber(w.db.epochs), w.db.clock + 1;
    assert DeleteOps([]) == [];
    hide BatchOps, StampedAll, DeleteOps, FinishOps, NextNumber;
    var head := [CutEpoch(source, 0, |cs|, 0)] + BatchOps(env, StampedAll(env, cs, n, at), at);
    assert head + [] == head;
  }

  /** What a completed UpsertBatch does to the bundle: the files of its concepts are
      theirs, no other file changes. */
  lemma UpsertFiles(env: Env, cs: seq<Concept>, source: string, sweep: seq<Id>, w: World)
    requires DistinctIds(cs) && cs != []
    ensures Plan(env, UpsertBatch(cs, source), sweep, w).Some?
    ensures
      var after := After(env, UpsertBatch(cs, source), sweep, w).bundle;
      && (forall i :: 0 <= i < |cs| ==>
        && cs[i].id in after
        && after[cs[i].id] == Doc(cs[i].content, NextNumber(w.db.epochs), Stamp(w.db.clock + 1, env.model)))
      && forall id :: id !in Ids(cs) ==> SameEntry(w.bundle, after, id)
  {
    var n, at := NextNumber(w.db.epochs), w.db.clock + 1;
    var rs := StampedAll(env, cs, n, at);
    UpsertIsWrites(env, cs, source, sweep, w);
    hide StampedAll, NextNumber, BatchOps, DeleteOps, FinishOps, Apply, Members, ApplyAll, Plan, Writes, DistinctIds, After, Wrote, SameEntry, Overwrite;
    AfterIs(env, UpsertBatch(cs, source), sweep, w);
    WritesFiles(env, cs, source, w);
    StampedSaySame(env, cs, n, at);
    StampedDistinct(env, cs, n, at);
    SameIds(cs, rs);
    OverwriteOthers(w.bundle, rs);
    forall i | 0 <= i < |cs|
      ensures cs[i].id in Overwrite(w.bundle, rs) && Overwrite(w.bundle, rs)[cs[i].id] == Doc(cs[i].content, n, Stamp(at, env.model))
    {
      OverwriteAt(w.bundle, rs, i);
      StampOf(env, cs, n, at, i);
    }
  }

  lemma StampOf(env: Env, cs: seq<Concept>, n: int, at: int, i: nat)
    requires i < |cs|
    ensures FileOf(StampedAll(env, cs, n, at)[i]) == Doc(cs[i].content, n, Stamp(at, env.model))
  {
  }

  lemma OverwriteAt(bundle: map<Id, File>, rs: seq<Concept>, i: nat)
    requires DistinctIds(rs) && i < |rs|
    ensures rs[i].id in Overwrite(bundle, rs) && Overwrite(bundle, rs)[rs[i].id] == FileOf(rs[i])
  {
    OverwriteHolds(bundle, rs);
    assert rs[i].id in Ids(rs);
    var j :| 0 <= j < |rs| && rs[j].id == rs[i].id && Overwrite(bundle, rs)[rs[i].id] == FileOf(rs[j]);
    hide Overwrite, FileOf, Ids;
  }

  lemma {:induction false} OverwriteOthers(bundle: map<Id, File>, rs: seq<Concept>)
    ensures forall id :: id !in Ids(rs) ==> SameEntry(bundle, Overwrite(bundle, rs), id)
    decreases |rs|
  {
    if rs != [] {
      IdsCons(rs);
      var first := bundle[rs[0].id := FileOf(rs[0])];
      OverwriteOthers(first, rs[1..]);
      hide Overwrite, FileOf, Ids;
      OverwriteFirst(bundle, rs);
      forall id | id !in Ids(rs) ensures SameEntry(bundle, Overwrite(bundle, rs), id) {
        assert SameEntry(first, Overwrite(first, rs[1..]), id);
      }
    }
  }

  lemma OverwriteFirst(bundle: map<Id, File>, rs: seq<Concept>)
    requires rs != []
    ensures Overwrite(bundle, rs) == Overwrite(bundle[rs[0].id := FileOf(rs[0])], rs[1..])
  {
    hide FileOf;
  }

  lemma WritesFiles(env: Env, cs: seq<Concept>, source: string, w: World)
    ensures ApplyAll(Writes(env, cs, source, 0, |cs|, 0, [], w), w).bundle ==
      Overwrite(w.bundle, StampedAll(env, cs, NextNumber(w.db.epochs), w.db.clock + 1))
  {
    hide *;
    var rs := StampedAll(env, cs, NextNumber(w.db.epochs), w.db.clock + 1);
    var cut := [CutEpoch(source, 0, |cs|, 0)];
    var batch, finish := WritesAre(env, cs, source, 0, |cs|, 0, [], w);
    NoFilesIn(cut, [], finish, w, source, cs);
    BundleIsFilesAfter(cut + batch + DeleteOps([]) + finish, w);
    FilesAfterConcat(cut + batch + DeleteOps([]), finish, w.bundle);
    FilesAfterConcat(cut + batch, DeleteOps([]), w.bundle);
    FilesAfterConcat(cut, batch, w.bundle);
    Untouched(cut, w.bundle);
    BatchFiles(env, rs, w.db.clock + 1, w.bundle);
    Untouched(DeleteOps([]), Overwrite(w.bundle, rs));
    Untouched(finish, Overwrite(w.bundle, rs));
  }

  lemma NoFilesIn(cut: seq<Op>, none: seq<Id>, finish: seq<Op>, w: World, source: string, cs: seq<Concept>)
    requires cut == [CutEpoch(source, 0, |cs|, 0)] && none == []
    requires exists n, line, commit: nat :: finish == FinishOps(n, line, commit)
    ensures forall i :: 0 <= i < |cut| ==> !cut[i].WriteFile? && !cut[i].DeleteFile?
    ensures forall i :: 0 <= i < |DeleteOps(none)| ==> !DeleteOps(none)[i].WriteFile? && !DeleteOps(none)[i].DeleteFile?
    ensures forall i :: 0 <= i < |finish| ==> !finish[i].WriteFile? && !finish[i].DeleteFile?
  {
  }

  /** A completed Reindex leaves one epoch, 0, that counts the files; it logs and commits
      nothing. */
  lemma ReindexEpoch(env: Env, listing: seq<Id>, sweep: seq<Id>, w: World)
    requires ListingsOk(Reindex(listing), sweep, w) && Readable(w.bundle)
    ensures Plan(env, Reindex(listing), sweep, w).Some?
    ensures
      var after := After(env, Reindex(listing), sweep, w);
      && after.db.epochs == map[0 := EpochRow(w.db.clock + 1, "reindex", None, |w.bundle|, 0, 0)]
      && after.log == w.log && after.commits == w.commits
  {
    ReindexFailsIffUnreadable(env, listing, sweep, w);
    ReadConceptsCount(env, w, listing);
    AfterIs(env, Reindex(listing), sweep, w);
    ReindexWritesOneEpoch(env, listing, sweep, w);
    hide Plan, After, ApplyAll, ReadFiles, Readable, ListingsOk;
  }

  lemma ReadConceptsCount(env: Env, w: World, listing: seq<Id>)
    requires Listed(listing, w.bundle.Keys) && Readable(w.bundle)
    ensures ReadFiles(env, w.bundle, listing).Some? && |ReadFiles(env, w.bundle, listing).value| == |w.bundle|
  {
    hide Listed, ReadFiles, Readable;
    var cs := ReadConcepts(env, w.bundle, listing);
    ListedSize(listing, w.bundle.Keys);
  }

  lemma ReindexWritesOneEpoch(env: Env, listing: seq<Id>, sweep: seq<Id>, w: World)
    requires ReadFiles(env, w.bundle, listing).Some?
    ensures
      var n := |ReadFiles(env, w.bundle, listing).value|;
      var plan := Plan(env, Reindex(listing), sweep, w);
      && plan.Some?
      && var after := ApplyAll(plan.value, w);
      && after.db.epochs == map[0 := EpochRow(w.db.clock + 1, "reindex", None, n, 0, 0)]
      && after.log == w.log && after.commits == w.commits
  {
    var cs := ReadFiles(env, w.bundle, listing).value;
    var rs, at := Renumbered(cs, 0), w.db.clock + 1;
    var cut := CutEpoch("reindex", |cs|, 0, 0);
    ReindexIs(env, listing, sweep, w, cut, rs);
    hide *;
    var w1 := TruncateAndCut(cut, w);
    FourParts([Truncate, cut], BatchOps(env, rs, at), [PruneEmbeddings], [], w);
    BatchOpsApply(env, rs, at, w1);
    BatchFrame(env, rs, at, w1);
    ApplyOne(PruneEmbeddings, ApplyBatch(env, rs, at, w1));
    PruneOnly(ApplyBatch(env, rs, at, w1));
  }

  lemma ReindexIs(env: Env, listing: seq<Id>, sweep: seq<Id>, w: World, cut: Op, rs: seq<Concept>)
    requires ReadFiles(env, w.bundle, listing).Some?
    requires rs == Renumbered(ReadFiles(env, w.bundle, listing).value, 0)
    requires cut == CutEpoch("reindex", |ReadFiles(env, w.bundle, listing).value|, 0, 0)
    ensures Plan(env, Reindex(listing), sweep, w) ==
      Some([Truncate, cut] + BatchOps(env, rs, w.db.clock + 1) + [PruneEmbeddings] + [])
  {
    hide BatchOps, ReadFiles, Renumbered, NextNumber;
    var plan := [Truncate, cut] + BatchOps(env, rs, w.db.clock + 1) + [PruneEmbeddings];
    assert plan + [] == plan;
  }

  lemma TruncateAndCut(cut: Op, w: World) returns (w1: World)
    requires cut.CutEpoch?
    ensures ApplyAll([Truncate, cut], w) == w1
    ensures w1.db.epochs == map[0 := EpochRow(w.db.clock + 1, cut.source, None, cut.added, cut.changed, cut.removed)]
    ensures w1.log == w.log && w1.commits == w.commits
  {
    w1 := Apply(cut, Apply(Truncate, w));
    var ops := [Truncate, cut];
    assert ops[1..] == [cut];
    ApplyOne(cut, Apply(Truncate, w));
  }

  lemma PruneOnly(w: World)
    ensures var w' := Apply(PruneEmbeddings, w); w'.db.epochs == w.db.epochs && w'.log == w.log && w'.commits == w.commits
    ensures ApplyAll([], w) == w && forall v: World :: ApplyAll([], v) == v
  {
    hide Prune;
  }

  // ---- every call keeps the epoch numbers below the next one

  /** Writes of epoch `n` alone, after the epoch was cut. */
  ghost predicate OfEpoch(ops: seq<Op>, n: int) {
    forall i :: 0 <= i < |ops| ==>
      && !ops[i].Truncate? && !ops[i].CutEpoch?
      && (ops[i].UpsertRow? ==> ops[i].c.epoch == n) && (ops[i].StoreEmbedding? ==> ops[i].epoch == n)
  }

  lemma OfEpochStep(op: Op, w: World)
    requires OfEpoch([op], NextNumber(w.db.epochs) - 1) && Dated(w.db)
    ensures Dated(Apply(op, w).db) && Apply(op, w).db.epochs.Keys == w.db.epochs.Keys
    ensures NextNumber(Apply(op, w).db.epochs) == NextNumber(w.db.epochs)
  {
    assert [op][0] == op;
    var w' := Apply(op, w);
    assert w'.db.epochs.Keys == w.db.epochs.Keys by {
      hide RecordFact, Upsert, Prune, NextNumber;
    }
    NextNumberSame(w.db.epochs, w'.db.epochs);
    hide NextNumber, RecordFact;
  }

  lemma {:induction false} OfEpochKeeps(ops: seq<Op>, w: World, k: nat)
    requires OfEpoch(ops, NextNumber(w.db.epochs) - 1) && Dated(w.db) && k <= |ops|
    ensures Dated(ApplyAll(ops[..k], w).db)
    decreases k
  {
    if k > 0 {
      assert [ops[0]][0] == ops[0];
      OfEpochStep(ops[0], w);
      hide Apply, Dated, NextNumber;
      OfEpochKeeps(ops[1..], Apply(ops[0], w), k - 1);
      assert ops[..k][1..] == ops[1..][..k - 1];
    }
  }

  lemma {:induction false} BatchOfEpoch(env: Env, rs: seq<Concept>, n: int, at: int)
    requires forall i :: 0 <= i < |rs| ==> rs[i].epoch == n
    ensures OfEpoch(BatchOps(env, rs, at), n)
  {
    if rs != [] {
      BatchOfEpoch(env, rs[1..], n, at);
      hide TextOf;
      assert OfEpoch(ConceptOps(env, rs[0], at), n);
      hide ConceptOps;
    }
  }

  /** A call that cuts an epoch and writes concepts of it, stopped anywhere. */
  lemma CutAndBatchDated(env: Env, plan: seq<Op>, cut: Op, rs: seq<Concept>, rest: seq<Op>, w: World, k: nat)
    requires CutsAndWrites(env, plan, cut, rs, rest, w) && Dated(w.db) && Gapless(w.db.epochs) && k <= |plan|
    ensures Dated(ApplyAll(plan[..k], w).db)
  {
    var n, at := NextNumber(w.db.epochs), w.db.clock + 1;
    if k == 0 {
      assert plan[..k] == [];
    } else {
      var tail := BatchOps(env, rs, at) + rest;
      var row := EpochRow(at, cut.source, None, cut.added, cut.changed, cut.removed);
      BatchOfEpoch(env, rs, n, at);
      CutKeeps(w.db.epochs, row);
      assert plan[..k] == [cut] + tail[..k - 1];
      hide BatchOps, NextNumber, Gapless;
      assert OfEpoch(tail, n);
      ApplyOne(cut, w);
      ApplyConcat([cut], tail[..k - 1], w);
      OfEpochKeeps(tail, Apply(cut, w), k - 1);
    }
  }

  /** Wherever a call stops, the epoch numbers in the tables stay below the next one. */
  lemma CallKeepsDated(env: Env, call: Call, sweep: seq<Id>, w: World, k: nat)
    requires Dated(w.db) && Gapless(w.db.epochs) && Plan(env, call, sweep, w).Some? && k <= |Plan(env, call, sweep, w).value|
    ensures Dated(ApplyAll(Plan(env, call, sweep, w).value[..k], w).db)
  {
    match call {
      case Run(cs, source) =>
        var cut, rs, rest := RunComposed(env, cs, source, sweep, w);
        hide *;
        CutAndBatchDated(env, Plan(env, call, sweep, w).value, cut, rs, rest, w, k);
      case UpsertBatch(cs, source) =>
        if cs == [] {
          assert Plan(env, call, sweep, w).value[..k] == [];
        } else {
          var cut, rs, rest := UpsertComposed(env, cs, source, sweep, w);
          hide *;
          CutAndBatchDated(env, Plan(env, call, sweep, w).value, cut, rs, rest, w, k);
        }
      case Reindex(listing) =>
        if k == 0 {
          assert Plan(env, call, sweep, w).value[..k] == [];
        } else {
          ReindexDated(env, listing, sweep, w, k);
        }
    }
  }

  /** Reindex puts them there from any tables whatever with its first write. */
  lemma ReindexDated(env: Env, listing: seq<Id>, sweep: seq<Id>, w: World, k: nat)
    requires Plan(env, Reindex(listing), sweep, w).Some? && 1 <= k <= |Plan(env, Reindex(listing), sweep, w).value|
    ensures Dated(ApplyAll(Plan(env, Reindex(listing), sweep, w).value[..k], w).db)
  {
    var plan := Plan(env, Reindex(listing), sweep, w).value;
    var cut, rs, rest := ReindexComposed(env, listing, sweep, w);
    TruncatedDated(w);
    hide Plan, Dated, Gapless, Apply, CutsAndWrites;
    CutAndBatchDated(env, plan[1..], cut, rs, rest, Apply(Truncate, w), k - 1);
    assert plan[..k][0] == Truncate && plan[..k][1..] == plan[1..][..k - 1];
  }

  lemma TruncatedDated(w: World)
    ensures Dated(Apply(Truncate, w).db) && Gapless(Apply(Truncate, w).db.epochs)
  {
  }

  lemma {:induction false} SerialDated(env: Env, past: seq<Done>, w: World)
    requires DbInv(w.db) && Dated(w.db) && AllFit(env, past, w)
    ensures DbInv(Serial(env, past, w).db) && Dated(Serial(env, past, w).db)
    decreases |past|
  {
    SerialInv(env, past, w);
    hide DbInv, Fits, Effect, Dated;
    if past != [] {
      var init := past[..|past| - 1];
      InitFits(env, past, w);
      SerialDated(env, init, w);
      assert Fits(env, past[|past| - 1], Serial(env, past[..|past| - 1], w));
      EffectKeepsDated(env, past[|past| - 1], Serial(env, init, w));
    }
  }

  lemma EffectKeepsDated(env: Env, d: Done, w: World)
    requires DbInv(w.db) && Dated(w.db) && Fits(env, d, w)
    ensures Dated(Effect(env, d, w).db)
  {
    var plan := Plan(env, d.call, d.sweep, w);
    hide Dated, Gapless, ListingsOk, ResultOf, Plan, ApplyAll;
    if plan.Some? {
      CallKeepsDated(env, d.call, d.sweep, w, d.steps);
    }
  }

  /** In every reachable state, calls interleaved and failing anywhere, the tables are as
      the two theorems on completed calls ask of them. */
  lemma TablesAlwaysDated(env: Env, run: seq<State>, i: nat)
    requires Behaviour(env, run) && i < |run| && DbInv(run[0].world.db) && Dated(run[0].world.db)
    ensures Dated(run[i].world.db)
  {
    Serializable(env, run, i);
    var s, w := run[i], run[0].world;
    SerialDated(env, s.past, w);
    if s.mutex.Some? {
      var h := s.threads[s.mutex.value];
      hide Dated, Gapless, Plan, ApplyAll, ListingsOk, ResultOf, Next, Serial, AllFit, Init;
      CallKeepsDated(env, h.call, h.sweep, Serial(env, s.past, w), h.pc);
    }
  }
}
