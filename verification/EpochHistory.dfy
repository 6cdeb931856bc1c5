/** Between two Reindexes the versions are the history of the batches: the view as of an
    epoch is the batches up to it, one written over the other. */
module EpochHistory {
  import opened Wrappers
  import opened EpochModel
  import opened EpochRecovery
  import opened EpochInvariants
  import opened EpochCurrent

  /** The SHAs each epoch wrote. */
  type Batches = seq<map<Id, string>>

  /** The first `k` batches, each written over the ones before. */
  function Overwritten(hist: Batches, k: nat): map<Id, string>
    requires k <= |hist|
  {
    if k == 0 then map[] else Overwritten(hist, k - 1) + hist[k - 1]
  }

  /** How many batches have an epoch up to `n`. */
  function UpTo(hist: Batches, n: int): (k: nat)
    ensures k <= |hist|
  {
    if n < 0 then 0 else if n + 1 <= |hist| then n + 1 else |hist|
  }

  ghost predicate FromBatch(f: Fact, hist: Batches) {
    0 <= f.epoch < |hist| && f.id in hist[f.epoch] && hist[f.epoch][f.id] == f.sha
  }

  ghost predicate AllFromBatches(facts: seq<Fact>, hist: Batches) {
    forall i :: 0 <= i < |facts| ==> FromBatch(facts[i], hist)
  }

  ghost predicate HasVersion(facts: seq<Fact>, id: Id, epoch: int) {
    exists i :: 0 <= i < |facts| && facts[i].id == id && facts[i].epoch == epoch
  }

  ghost predicate AllVersioned(facts: seq<Fact>, hist: Batches) {
    forall e, id :: 0 <= e < |hist| && id in hist[e] ==> HasVersion(facts, id, e)
  }

  /** The versions are those the batches wrote. */
  ghost predicate Recorded(db: Db, hist: Batches) {
    && |hist| == NextNumber(db.epochs)
    && AllFromBatches(db.facts, hist)
    && AllVersioned(db.facts, hist)
  }

  // ---- the view as of an epoch

  ghost predicate Eligible(f: Fact, id: Id, n: int) {
    f.id == id && f.epoch <= n
  }

  /** `f` is a version of `id` with the greatest epoch up to `n`. */
  ghost predicate LatestAt(facts: seq<Fact>, id: Id, n: int, f: Fact) {
    && f in facts && Eligible(f, id, n)
    && forall i :: 0 <= i < |facts| && Eligible(facts[i], id, n) ==> facts[i].epoch <= f.epoch
  }

  ghost predicate Visible(facts: seq<Fact>, id: Id, n: int) {
    exists i :: 0 <= i < |facts| && Eligible(facts[i], id, n)
  }

  /** A result of AsOf for epoch `n`; when several versions share the greatest epoch the
      query may return any of them. */
  ghost predicate IsAsOf(db: Db, n: int, m: map<Id, Fact>) {
    && (forall id :: id in m <==> id in db.concept && Visible(db.facts, id, n))
    && forall id :: id in m ==> LatestAt(db.facts, id, n, m[id])
  }

  function Shas(m: map<Id, Fact>): map<Id, string> {
    map id | id in m :: m[id].sha
  }

  lemma {:induction false} OverwrittenLast(hist: Batches, k: nat, e: nat, id: Id)
    requires e < k <= |hist| && id in hist[e] && forall later :: e < later < k ==> id !in hist[later]
    ensures id in Overwritten(hist, k) && Overwritten(hist, k)[id] == hist[e][id]
  {
    if e < k - 1 {
      OverwrittenLast(hist, k - 1, e, id);
    }
  }

  lemma {:induction false} OverwrittenSource(hist: Batches, k: nat, id: Id) returns (e: nat)
    requires k <= |hist| && id in Overwritten(hist, k)
    ensures e < k && id in hist[e] && forall later :: e < later < k ==> id !in hist[later]
  {
    if id in hist[k - 1] {
      e := k - 1;
    } else {
      e := OverwrittenSource(hist, k - 1, id);
    }
  }

  lemma {:induction false} OverwrittenPrefix(a: Batches, b: Batches, k: nat)
    requires k <= |a|
    ensures Overwritten(a + b, k) == Overwritten(a, k)
  {
    if k > 0 {
      OverwrittenPrefix(a, b, k - 1);
    }
  }

  lemma NoLater(facts: seq<Fact>, hist: Batches, id: Id, n: int, f: Fact, later: nat)
    requires AllVersioned(facts, hist) && LatestAt(facts, id, n, f) && later < |hist| && later <= n
    ensures id in hist[later] ==> later <= f.epoch
  {
    if id in hist[later] {
      assert HasVersion(facts, id, later);
      var j :| 0 <= j < |facts| && facts[j].id == id && facts[j].epoch == later;
      assert Eligible(facts[j], id, n);
    }
  }

  lemma LatestIsOverwritten(facts: seq<Fact>, hist: Batches, id: Id, n: int, f: Fact)
    requires AllFromBatches(facts, hist) && AllVersioned(facts, hist) && LatestAt(facts, id, n, f)
    ensures id in Overwritten(hist, UpTo(hist, n)) && Overwritten(hist, UpTo(hist, n))[id] == f.sha
  {
    var k := UpTo(hist, n);
    var i :| 0 <= i < |facts| && facts[i] == f;
    assert FromBatch(facts[i], hist);
    forall later | f.epoch < later < k ensures id !in hist[later] {
      NoLater(facts, hist, id, n, f, later);
    }
    hide LatestAt, AllFromBatches, AllVersioned, Overwritten;
    OverwrittenLast(hist, k, f.epoch, id);
  }

  lemma OverwrittenIsVisible(facts: seq<Fact>, hist: Batches, id: Id, n: int)
    requires AllVersioned(facts, hist) && id in Overwritten(hist, UpTo(hist, n))
    ensures Visible(facts, id, n)
  {
    var e := OverwrittenSource(hist, UpTo(hist, n), id);
    assert HasVersion(facts, id, e);
    var i :| 0 <= i < |facts| && facts[i].id == id && facts[i].epoch == e;
    assert Eligible(facts[i], id, n);
  }

  /** AsOf an epoch is the left-to-right overwrite of the batches up to it. */
  lemma AsOfIsOverwrite(db: Db, hist: Batches, n: int, m: map<Id, Fact>)
    requires Recorded(db, hist) && Known(db.facts, db.concept) && IsAsOf(db, n, m)
    ensures Shas(m) == Overwritten(hist, UpTo(hist, n))
  {
    hide Overwritten, AllVersioned, AllFromBatches, LatestAt, Visible, UpTo, NextNumber;
    var o := Overwritten(hist, UpTo(hist, n));
    forall id | id in m ensures id in o && o[id] == m[id].sha {
      LatestIsOverwritten(db.facts, hist, id, n, m[id]);
    }
    forall id | id in o ensures id in m {
      OverwrittenIsVisible(db.facts, hist, id, n);
      VisibleIsKnown(db.facts, db.concept, id, n);
    }
  }

  lemma VisibleIsKnown(facts: seq<Fact>, concept: map<Id, ConceptRow>, id: Id, n: int)
    requires Visible(facts, id, n) && Known(facts, concept)
    ensures id in concept
  {
  }

  /** As of the latest epoch the view selects exactly the current concepts. */
  lemma AsOfLatestIsCurrent(db: Db, n: int, m: map<Id, Fact>)
    requires DbInv(db) && Synced(db) && n >= NextNumber(db.epochs) - 1 && IsAsOf(db, n, m)
    ensures m.Keys == db.concept.Keys
  {
    hide Gapless, WindowsOk, Chained, NextNumber, LatestAt, CurrentVersion;
    forall id | id in db.concept ensures Visible(db.facts, id, n) {
      assert Current(db, id);
      var i :| 0 <= i < |db.facts| && CurrentVersion(db.facts[i], id, db.concept[id].content);
      CurrentId(db.facts[i], id, db.concept[id].content);
      assert Eligible(db.facts[i], id, n);
    }
    hide Visible, Synced, Numbered, Known;
  }

  lemma CurrentId(f: Fact, id: Id, c: Content)
    requires CurrentVersion(f, id, c)
    ensures f.id == id && f.txTo.None? && f.sha == c.sha
  {
  }

  /** The open version of a concept has the greatest epoch of all its versions. */
  lemma OpenIsLatest(db: Db, id: Id, i: nat, n: int)
    requires DbInv(db) && n >= NextNumber(db.epochs) - 1
    requires i < |db.facts| && db.facts[i].id == id && db.facts[i].txTo.None?
    ensures LatestAt(db.facts, id, n, db.facts[i])
  {
    forall j | 0 <= j < |db.facts| && Eligible(db.facts[j], id, n) ensures db.facts[j].epoch <= db.facts[i].epoch {
      assert i < j ==> Precedes(db.facts[i], db.facts[j]);
      assert j < i ==> Precedes(db.facts[j], db.facts[i]);
    }
    hide Gapless, NextNumber, Known, WindowsOk;
  }

  /** The concept rows hold the overwrite of all batches. */
  lemma CurrentIsOverwrite(db: Db, hist: Batches)
    requires DbInv(db) && Synced(db) && Recorded(db, hist)
    ensures CurrentShas(db) == Overwritten(hist, |hist|)
  {
    hide Overwritten, Synced, DbInv, Recorded;
    var o := Overwritten(hist, |hist|);
    forall id | id in db.concept ensures id in o && o[id] == db.concept[id].content.sha {
      CurrentInHistory(db, hist, id);
    }
    forall id | id in o ensures id in db.concept {
      HistoryIsKnown(db, hist, id);
    }
  }

  lemma LastIsAll(hist: Batches)
    ensures UpTo(hist, |hist| - 1) == |hist|
  {
  }

  lemma CurrentInHistory(db: Db, hist: Batches, id: Id)
    requires DbInv(db) && Synced(db) && Recorded(db, hist) && id in db.concept
    ensures id in Overwritten(hist, |hist|) && Overwritten(hist, |hist|)[id] == db.concept[id].content.sha
  {
    hide Overwritten, AllVersioned, AllFromBatches, LatestAt, UpTo, NextNumber, CurrentVersion, DbInv;
    assert Current(db, id);
    var i :| 0 <= i < |db.facts| && CurrentVersion(db.facts[i], id, db.concept[id].content);
    CurrentId(db.facts[i], id, db.concept[id].content);
    OpenIsLatest(db, id, i, |hist| - 1);
    LatestIsOverwritten(db.facts, hist, id, |hist| - 1, db.facts[i]);
    LastIsAll(hist);
  }

  lemma HistoryIsKnown(db: Db, hist: Batches, id: Id)
    requires DbInv(db) && Recorded(db, hist) && id in Overwritten(hist, |hist|)
    ensures id in db.concept
  {
    hide Overwritten, AllVersioned, AllFromBatches, UpTo, NextNumber, Visible, Known, Gapless, WindowsOk, Chained, Numbered;
    LastIsAll(hist);
    OverwrittenIsVisible(db.facts, hist, id, |hist| - 1);
    VisibleIsKnown(db.facts, db.concept, id, |hist| - 1);
  }

  // ---- a batch adds one more

  lemma CutRecords(op: Op, w: World, hist: Batches)
    requires op.CutEpoch? && DbInv(w.db) && Recorded(w.db, hist)
    ensures Recorded(Apply(op, w).db, hist + [map[]])
  {
    CutKeeps(w.db.epochs, EpochRow(w.db.clock + 1, op.source, None, op.added, op.changed, op.removed));
    RecordedSnoc(w.db.facts, hist);
    hide DbInv, AllFromBatches, AllVersioned, Gapless, NextNumber;
  }

  lemma RecordedSnoc(facts: seq<Fact>, hist: Batches)
    requires AllFromBatches(facts, hist) && AllVersioned(facts, hist)
    ensures AllFromBatches(facts, hist + [map[]]) && AllVersioned(facts, hist + [map[]])
  {
    var more := hist + [map[]];
    forall i | 0 <= i < |facts| ensures FromBatch(facts[i], more) {
      assert FromBatch(facts[i], hist);
    }
    hide HasVersion;
  }

  /** Recording one concept adds its SHA to the batch of the newest epoch. */
  lemma ConceptRecords(env: Env, c: Concept, at: int, w: World, hist: Batches, batch: map<Id, string>)
    requires Recorded(w.db, hist + [batch]) && c.epoch == |hist| && c.id !in batch
    ensures Recorded(ApplyConcept(env, c, at, w).db, hist + [batch[c.id := c.content.sha]])
  {
    var db := w.db.(concept := Upsert(w.db.concept, c),
      embedding := w.db.embedding[(c.id, c.epoch) := Embedding(env.embed(TextOf(c.content)), env.model, at)],
      edges := w.db.edges[c.id := c.links]);
    var after := RecordFact(db, c, at);
    var closed := CloseOpen(w.db.facts, c.id, at, w.db.clock + 1);
    CloseOpenIs(w.db.facts, c.id, at, w.db.clock + 1);
    var f := Fact(c.id, c.content.kind, c.content.title, c.content.sha, c.epoch, at, None, w.db.clock + 2, None);
    assert after.facts == closed + [f] && after.epochs == w.db.epochs;
    assert ApplyConcept(env, c, at, w).db == after;
    hide CloseOpen, RecordFact, TextOf, Upsert, AllFromBatches, AllVersioned, NextNumber, SameVersions, ApplyConcept;
    FromBatchesStep(w.db.facts, closed, f, hist, batch);
    VersionedStep(w.db.facts, closed, f, hist, batch);
  }

  lemma FromBatchesStep(facts: seq<Fact>, closed: seq<Fact>, f: Fact, hist: Batches, batch: map<Id, string>)
    requires AllFromBatches(facts, hist + [batch]) && SameVersions(closed, facts) && f.epoch == |hist| && f.id !in batch
    ensures AllFromBatches(closed + [f], hist + [batch[f.id := f.sha]])
  {
    var all := closed + [f];
    forall i | 0 <= i < |all| ensures FromBatch(all[i], hist + [batch[f.id := f.sha]]) {
      if i < |closed| {
        assert SameVersion(closed[i], facts[i]);
        assert FromBatch(facts[i], hist + [batch]);
      }
    }
  }

  lemma VersionedStep(facts: seq<Fact>, closed: seq<Fact>, f: Fact, hist: Batches, batch: map<Id, string>)
    requires AllVersioned(facts, hist + [batch]) && SameVersions(closed, facts) && f.epoch == |hist|
    ensures AllVersioned(closed + [f], hist + [batch[f.id := f.sha]])
  {
    var all := closed + [f];
    var more := hist + [batch[f.id := f.sha]];
    forall e, id | 0 <= e < |more| && id in more[e] ensures HasVersion(all, id, e) {
      if e == |hist| && id == f.id {
        assert all[|closed|] == f;
      } else {
        assert id in (hist + [batch])[e];
        assert HasVersion(facts, id, e);
        var i :| 0 <= i < |facts| && facts[i].id == id && facts[i].epoch == e;
        assert SameVersion(closed[i], facts[i]) && all[i] == closed[i];
      }
    }
  }

  lemma ShasKeys(cs: seq<Concept>)
    ensures BatchShas(cs).Keys == Ids(cs)
  {
    if cs == [] {
      assert Ids(cs) == {};
    } else {
      var init, c := cs[..|cs| - 1], cs[|cs| - 1];
      assert cs == init + [c];
      ShasKeys(init);
      IdsSnoc(init, c);
      hide Ids;
    }
  }

  lemma ShasSnoc(done: seq<Concept>, c: Concept)
    ensures BatchShas(done + [c]) == BatchShas(done)[c.id := c.content.sha]
  {
    assert (done + [c])[..|done + [c]| - 1] == done;
  }

  lemma {:induction false} BatchRecords(env: Env, done: seq<Concept>, cs: seq<Concept>, at: int, w: World, hist: Batches)
    requires Recorded(w.db, hist + [BatchShas(done)]) && DistinctIds(done + cs)
    requires forall i :: 0 <= i < |cs| ==> cs[i].epoch == |hist|
    ensures Recorded(ApplyBatch(env, cs, at, w).db, hist + [BatchShas(done + cs)])
    decreases |cs|
  {
    hide Recorded, BatchShas, ApplyConcept, DistinctIds, Ids;
    if cs == [] {
      assert done + cs == done;
    } else {
      var c := cs[0];
      NotDone(done, cs);
      ShasKeys(done);
      ShasSnoc(done, c);
      assert cs[0].epoch == |hist| && forall i :: 0 <= i < |cs[1..]| ==> cs[1..][i] == cs[i + 1];
      assert done + [c] + cs[1..] == done + cs;
      ConceptRecords(env, c, at, w, hist, BatchShas(done));
      BatchRecords(env, done + [c], cs[1..], at, ApplyConcept(env, c, at, w), hist);
    }
  }

  lemma NotDone(done: seq<Concept>, cs: seq<Concept>)
    requires DistinctIds(done + cs) && cs != []
    ensures cs[0].id !in Ids(done)
  {
    forall i | 0 <= i < |done| ensures done[i].id != cs[0].id {
      assert (done + cs)[i].id != (done + cs)[|done|].id;
    }
  }

  lemma {:induction false} RestRecords(ops: seq<Op>, w: World, hist: Batches)
    requires Recorded(w.db, hist)
    requires forall i :: 0 <= i < |ops| ==> Aside(ops[i]) && !ops[i].CutEpoch?
    ensures Recorded(ApplyAll(ops, w).db, hist)
    decreases |ops|
  {
    if ops != [] {
      var w1 := Apply(ops[0], w);
      AsideKeeps(ops[0], w);
      KeysKept(ops[0], w);
      assert forall i :: 0 <= i < |ops[1..]| ==> ops[1..][i] == ops[i + 1];
      hide Apply, AllFromBatches, AllVersioned, NextNumber, Aside;
      NextNumberSame(w.db.epochs, w1.db.epochs);
      RestRecords(ops[1..], w1, hist);
    }
  }

  lemma KeysKept(op: Op, w: World)
    requires Aside(op) && !op.CutEpoch?
    ensures Apply(op, w).db.epochs.Keys == w.db.epochs.Keys
  {
    hide Prune, Upsert, RecordFact, NextNumber;
  }

  lemma CutAndBatchRecords(env: Env, plan: seq<Op>, cut: Op, rs: seq<Concept>, rest: seq<Op>, w: World, hist: Batches)
    requires DbInv(w.db) && Recorded(w.db, hist) && CutsAndWrites(env, plan, cut, rs, rest, w) && DistinctIds(rs)
    ensures Recorded(ApplyAll(plan, w).db, hist + [BatchShas(rs)])
  {
    PlanParts(env, plan, cut, rs, rest, w, hist);
    hide *;
    var at := w.db.clock + 1;
    var batch := BatchOps(env, rs, at);
    var w1 := Apply(cut, w);
    CutRecords(cut, w, hist);
    NoShas(rs);
    BatchRecords(env, [], rs, at, w1, hist);
    BatchOpsApply(env, rs, at, w1);
    RestRecords(rest, ApplyAll(batch, w1), hist + [BatchShas(rs)]);
    ApplyOne(cut, w);
    ApplyConcat(batch, rest, w1);
    ApplyConcat([cut], batch + rest, w);
  }

  lemma PlanParts(env: Env, plan: seq<Op>, cut: Op, rs: seq<Concept>, rest: seq<Op>, w: World, hist: Batches)
    requires CutsAndWrites(env, plan, cut, rs, rest, w) && Recorded(w.db, hist)
    ensures cut.CutEpoch? && plan == [cut] + (BatchOps(env, rs, w.db.clock + 1) + rest)
    ensures forall i :: 0 <= i < |rs| ==> rs[i].epoch == |hist|
    ensures forall i :: 0 <= i < |rest| ==> Aside(rest[i]) && !rest[i].CutEpoch?
  {
    hide BatchOps, NextNumber, AllFromBatches, AllVersioned;
  }

  lemma NoShas(rs: seq<Concept>)
    ensures BatchShas([]) == map[] && [] + rs == rs
  {
  }

  // ---- whole histories

  /** Tables in order, holding the history `hist`. */
  ghost predicate Holding(db: Db, hist: Batches) {
    DbInv(db) && Synced(db) && Recorded(db, hist)
  }

  lemma FreshHolds(db: Db)
    requires Blank(db) && db.epochs == map[]
    ensures Holding(db, [])
  {
  }

  /** The world after a completed call. */
  ghost function After(env: Env, call: Call, sweep: seq<Id>, w: World): World
    requires Plan(env, call, sweep, w).Some?
  {
    ApplyAll(Plan(env, call, sweep, w).value, w)
  }

  lemma RecordsKeepOrder(env: Env, call: Call, sweep: seq<Id>, w: World)
    requires DbInv(w.db) && Synced(w.db) && Plan(env, call, sweep, w).Some?
    ensures DbInv(After(env, call, sweep, w).db) && Synced(After(env, call, sweep, w).db)
  {
    hide *;
    var plan := Plan(env, call, sweep, w).value;
    CallKeepsInv(env, call, sweep, w, |plan|);
    CallKeepsSynced(env, call, sweep, w, |plan|);
    assert plan[..|plan|] == plan;
    assert After(env, call, sweep, w) == ApplyAll(plan, w) by { AfterIs(env, call, sweep, w); }
  }

  lemma AfterIs(env: Env, call: Call, sweep: seq<Id>, w: World)
    requires Plan(env, call, sweep, w).Some?
    ensures After(env, call, sweep, w) == ApplyAll(Plan(env, call, sweep, w).value, w)
  {
    hide Plan, ApplyAll;
  }

  function FileShas(bundle: map<Id, File>): map<Id, string> {
    map id | id in bundle && bundle[id].Doc? :: bundle[id].content.sha
  }

  /** A completed Reindex starts a history whose one batch is the bundle. */
  lemma ReindexBegins(env: Env, listing: seq<Id>, sweep: seq<Id>, w: World)
    requires ListingsOk(Reindex(listing), sweep, w) && Readable(w.bundle)
    ensures Plan(env, Reindex(listing), sweep, w).Some?
    ensures Holding(After(env, Reindex(listing), sweep, w).db, [FileShas(w.bundle)])
  {
    var call := Reindex(listing);
    ReindexFailsIffUnreadable(env, listing, sweep, w);
    AfterIs(env, call, sweep, w);
    var plan := Plan(env, call, sweep, w).value;
    var cut, rs, rest := ReindexComposed(env, listing, sweep, w);
    var cs := ReadConcepts(env, w.bundle, listing);
    FilesAtZero(env, w.bundle, rs);
    FileShasAre(env, w.bundle, rs);
    TruncatedInv(w);
    TruncatedRecords(w);
    hide *;
    ReindexEstablishesInv(env, listing, sweep, w, |plan|);
    ReindexEstablishesSynced(env, listing, sweep, w);
    assert plan[..|plan|] == plan;
    CutAndBatchRecords(env, plan[1..], cut, rs, rest, Apply(Truncate, w), []);
    FirstThenRest(plan, w);
    assert [] + [BatchShas(rs)] == [BatchShas(rs)];
    HoldingIs(After(env, call, sweep, w).db, [FileShas(w.bundle)]);
  }

  lemma HoldingIs(db: Db, hist: Batches)
    ensures Holding(db, hist) <==> DbInv(db) && Synced(db) && Recorded(db, hist)
  {
    hide DbInv, Synced, Recorded;
  }

  lemma FirstThenRest(ops: seq<Op>, w: World)
    requires ops != []
    ensures ApplyAll(ops, w) == ApplyAll(ops[1..], Apply(ops[0], w))
  {
    hide Apply;
  }

  lemma TruncatedRecords(w: World)
    ensures Recorded(Apply(Truncate, w).db, [])
  {
  }

  lemma {:induction false} ShaOf(cs: seq<Concept>, i: nat)
    requires DistinctIds(cs) && i < |cs|
    ensures cs[i].id in BatchShas(cs) && BatchShas(cs)[cs[i].id] == cs[i].content.sha
    decreases |cs|
  {
    var last := |cs| - 1;
    if i < last {
      assert forall j, k :: 0 <= j < k < last ==> cs[..last][j].id == cs[j].id && cs[..last][k].id == cs[k].id;
      assert DistinctIds(cs[..last]);
      ShaOf(cs[..last], i);
      assert cs[..last][i] == cs[i] && cs[i].id != cs[last].id;
    }
  }

  lemma FileShasAre(env: Env, bundle: map<Id, File>, rs: seq<Concept>)
    requires AreFiles(env, bundle, rs)
    ensures BatchShas(rs) == FileShas(bundle)
  {
    FilesAtZero(env, bundle, rs);
    ShasKeys(rs);
    assert FileShas(bundle).Keys == bundle.Keys;
    hide BatchShas, Ids, DistinctIds;
    forall id | id in bundle ensures BatchShas(rs)[id] == FileShas(bundle)[id] {
      var i := FileAt(env, bundle, rs, id);
      ShaOf(rs, i);
    }
  }

  /** What a call contributes to the history. */
  function BatchesOf(call: Call): Batches {
    match call
    case Run(cs, _) => [BatchShas(cs)]
    case UpsertBatch(cs, _) => if cs == [] then [] else [BatchShas(cs)]
    case Reindex(_) => []
  }

  /** A Run or an UpsertBatch whose ids are distinct, as the gathered concepts are. */
  ghost predicate Ordinary(call: Call) {
    !call.Reindex? && DistinctIds(call.concepts)
  }

  lemma {:induction false} StampedShas(env: Env, cs: seq<Concept>, n: int, at: int)
    ensures BatchShas(StampedAll(env, cs, n, at)) == BatchShas(cs)
    decreases |cs|
  {
    if cs != [] {
      var last := |cs| - 1;
      StampedShas(env, cs[..last], n, at);
      assert StampedAll(env, cs, n, at)[..last] == StampedAll(env, cs[..last], n, at);
    }
  }

  lemma StampedDistinct(env: Env, cs: seq<Concept>, n: int, at: int)
    requires DistinctIds(cs)
    ensures DistinctIds(StampedAll(env, cs, n, at))
  {
    var rs := StampedAll(env, cs, n, at);
    assert forall i :: 0 <= i < |cs| ==> rs[i].id == cs[i].id;
  }

  lemma CallExtends(env: Env, call: Call, sweep: seq<Id>, w: World, hist: Batches)
    requires Holding(w.db, hist) && Ordinary(call)
    ensures Plan(env, call, sweep, w).Some?
    ensures Holding(After(env, call, sweep, w).db, hist + BatchesOf(call))
  {
    HoldingIs(w.db, hist);
    assert Plan(env, call, sweep, w).Some?;
    RecordsKeepOrder(env, call, sweep, w);
    AfterIs(env, call, sweep, w);
    CallRecords(env, call, sweep, w, hist);
    hide DbInv, Synced, Recorded, After, Plan;
    HoldingIs(After(env, call, sweep, w).db, hist + BatchesOf(call));
  }

  lemma CallRecords(env: Env, call: Call, sweep: seq<Id>, w: World, hist: Batches)
    requires DbInv(w.db) && Recorded(w.db, hist) && Ordinary(call) && Plan(env, call, sweep, w).Some?
    ensures Recorded(ApplyAll(Plan(env, call, sweep, w).value, w).db, hist + BatchesOf(call))
  {
    var n, at := NextNumber(w.db.epochs), w.db.clock + 1;
    StampedShas(env, call.concepts, n, at);
    StampedDistinct(env, call.concepts, n, at);
    if call.UpsertBatch? && call.concepts == [] {
      assert Plan(env, call, sweep, w).value == [] && hist + [] == hist;
    } else if call.Run? {
      var cut, rs, rest := RunComposed(env, call.concepts, call.source, sweep, w);
      hide Recorded, DbInv, Plan, CutsAndWrites, BatchShas, DistinctIds, StampedAll, NextNumber;
      CutAndBatchRecords(env, Plan(env, call, sweep, w).value, cut, rs, rest, w, hist);
    } else {
      var cut, rs, rest := UpsertComposed(env, call.concepts, call.source, sweep, w);
      hide Recorded, DbInv, Plan, CutsAndWrites, BatchShas, DistinctIds, StampedAll, NextNumber;
      CutAndBatchRecords(env, Plan(env, call, sweep, w).value, cut, rs, rest, w, hist);
    }
  }

  /** Several calls, each completed before the next; with each the list of files that
      a Run deletes. */
  datatype Request = Request(call: Call, sweep: seq<Id>)

  ghost predicate AllOrdinary(requests: seq<Request>) {
    forall i :: 0 <= i < |requests| ==> Ordinary(requests[i].call)
  }

  ghost function AfterAll(env: Env, requests: seq<Request>, w: World): World
    requires AllOrdinary(requests)
    decreases |requests|
  {
    if requests == [] then w
    else
      assert Ordinary(requests[0].call);
      AfterAll(env, requests[1..], After(env, requests[0].call, requests[0].sweep, w))
  }

  function BatchesOfAll(requests: seq<Request>): Batches {
    if requests == [] then [] else BatchesOf(requests[0].call) + BatchesOfAll(requests[1..])
  }

  lemma {:induction false} HistoryGrows(env: Env, requests: seq<Request>, w: World, hist: Batches)
    requires Holding(w.db, hist) && AllOrdinary(requests)
    ensures Holding(AfterAll(env, requests, w).db, hist + BatchesOfAll(requests))
    decreases |requests|
  {
    if requests == [] {
      assert hist + [] == hist;
    } else {
      var first := requests[0];
      assert Ordinary(first.call);
      CallExtends(env, first.call, first.sweep, w, hist);
      RestOrdinary(requests);
      hide Holding, After, Plan, BatchesOf, Ordinary, AllOrdinary;
      HistoryGrows(env, requests[1..], After(env, first.call, first.sweep, w), hist + BatchesOf(first.call));
      Associate(hist, BatchesOf(first.call), BatchesOfAll(requests[1..]));
    }
  }

  lemma Associate(a: Batches, b: Batches, c: Batches)
    ensures a + b + c == a + (b + c)
  {
  }

  lemma RestOrdinary(requests: seq<Request>)
    requires AllOrdinary(requests) && requests != []
    ensures AllOrdinary(requests[1..])
  {
    hide Ordinary;
  }

  /** After any completed calls the view as of any epoch is the overwrite of the batches
      up to it. */
  lemma WholeHistory(env: Env, requests: seq<Request>, w: World, hist: Batches, n: int, m: map<Id, Fact>)
    requires Holding(w.db, hist) && AllOrdinary(requests)
    requires IsAsOf(AfterAll(env, requests, w).db, n, m)
    ensures
      var all := hist + BatchesOfAll(requests);
      Shas(m) == Overwritten(all, UpTo(all, n))
  {
    HistoryGrows(env, requests, w, hist);
    var all := hist + BatchesOfAll(requests);
    var db := AfterAll(env, requests, w).db;
    HoldingIs(db, all);
    assert DbInv(db) ==> Known(db.facts, db.concept);
    hide *;
    AsOfIsOverwrite(db, all, n, m);
  }

  // ---- differences

  ghost predicate WrittenIn(hist: Batches, id: Id, from: nat, to: nat) {
    exists e :: from <= e < to && e < |hist| && id in hist[e]
  }

  lemma InOverwritten(hist: Batches, k: nat, id: Id)
    requires k <= |hist|
    ensures id in Overwritten(hist, k) <==> WrittenIn(hist, id, 0, k)
  {
    if id in Overwritten(hist, k) {
      var e := OverwrittenSource(hist, k, id);
    }
    if WrittenIn(hist, id, 0, k) {
      StaysWritten(hist, k, id);
    }
  }

  lemma {:induction false} StaysWritten(hist: Batches, k: nat, id: Id)
    requires k <= |hist| && WrittenIn(hist, id, 0, k)
    ensures id in Overwritten(hist, k)
  {
    var e :| 0 <= e < k && id in hist[e];
    if id !in hist[k - 1] {
      StaysWritten(hist, k - 1, id);
    }
  }

  /** The difference of an epoch and a later one: nothing is ever removed; added is what
      was written between them and never before; changed is what then read otherwise. */
  lemma DiffOfEpochs(db: Db, hist: Batches, n: int, m: int, a: map<Id, Fact>, b: map<Id, Fact>)
    requires Holding(db, hist) && n <= m && IsAsOf(db, n, a) && IsAsOf(db, m, b)
    ensures
      var d := DiffSets(Shas(a), Shas(b));
      var k, l := UpTo(hist, n), UpTo(hist, m);
      && d.removed == {}
      && (forall id :: id in d.added <==> WrittenIn(hist, id, k, l) && !WrittenIn(hist, id, 0, k))
      && (forall id :: id in d.changed <==>
        id in Overwritten(hist, k) && id in Overwritten(hist, l) && Overwritten(hist, k)[id] != Overwritten(hist, l)[id])
  {
    HoldingIs(db, hist);
    assert DbInv(db) ==> Known(db.facts, db.concept);
    var d := DiffSets(Shas(a), Shas(b));
    var k, l := UpTo(hist, n), UpTo(hist, m);
    assert k <= l;
    hide Recorded, IsAsOf, DbInv, Known, Overwritten, Shas, UpTo, Synced, Holding, NextNumber;
    AsOfIsOverwrite(db, hist, n, a);
    AsOfIsOverwrite(db, hist, m, b);
    forall id ensures id in Overwritten(hist, k) <==> WrittenIn(hist, id, 0, k) {
      InOverwritten(hist, k, id);
    }
    forall id ensures id in Overwritten(hist, l) <==> WrittenIn(hist, id, 0, k) || WrittenIn(hist, id, k, l) {
      InOverwritten(hist, l, id);
      SplitWritten(hist, id, k, l);
    }
    hide WrittenIn;
  }

  lemma SplitWritten(hist: Batches, id: Id, k: nat, l: nat)
    requires k <= l
    ensures WrittenIn(hist, id, 0, l) <==> WrittenIn(hist, id, 0, k) || WrittenIn(hist, id, k, l)
  {
    if WrittenIn(hist, id, 0, l) {
      var e :| 0 <= e < l && e < |hist| && id in hist[e];
      assert e < k || k <= e;
    }
  }

  /** A Run at epoch n reports as added and changed exactly what Diff(n - 1, n) does,
      then or after any later calls. */
  lemma RunReportsDiff(env: Env, cs: seq<Concept>, source: string, sweep: seq<Id>, later: seq<Request>, w: World, hist: Batches,
      w': World, a: map<Id, Fact>, b: map<Id, Fact>)
    requires Holding(w.db, hist) && DistinctIds(cs) && AllOrdinary(later)
    requires w' == AfterAll(env, later, After(env, Run(cs, source), sweep, w))
    requires IsAsOf(w'.db, |hist| - 1, a) && IsAsOf(w'.db, |hist|, b)
    ensures
      var reported := DiffSets(CurrentShas(w.db), BatchShas(cs));
      var d := DiffSets(Shas(a), Shas(b));
      && d.added == reported.added && d.changed == reported.changed
      && Plan(env, Run(cs, source), sweep, w).value[0] ==
        CutEpoch(source, |reported.added|, |reported.changed|, |reported.removed|)
      && NextNumber(w.db.epochs) == |hist|
  {
    var call := Run(cs, source);
    var all := hist + [BatchShas(cs)] + BatchesOfAll(later);
    CallExtends(env, call, sweep, w, hist);
    HoldingIs(w.db, hist);
    CurrentIsOverwrite(w.db, hist);
    HistoryGrows(env, later, After(env, call, sweep, w), hist + [BatchShas(cs)]);
    HoldingIs(w'.db, all);
    RunFirstOp(env, cs, source, sweep, w);
    assert DbInv(w'.db) ==> Known(w'.db.facts, w'.db.concept);
    var n := |hist|;
    hide Plan, DbInv, Holding, Synced, IsAsOf, AfterAll, After, BatchShas, BatchesOfAll, Shas, CurrentShas, DiffSets, DistinctIds, AllOrdinary, Known;
    AsOfIsOverwrite(w'.db, all, n - 1, a);
    AsOfIsOverwrite(w'.db, all, n, b);
    LastTwo(hist, BatchShas(cs), BatchesOfAll(later));
    SameDiff(Overwritten(hist, n), BatchShas(cs));
  }

  lemma RunFirstOp(env: Env, cs: seq<Concept>, source: string, sweep: seq<Id>, w: World)
    ensures
      var reported := DiffSets(CurrentShas(w.db), BatchShas(cs));
      var plan := Plan(env, Run(cs, source), sweep, w);
      plan.Some? && plan.value != [] && plan.value[0] == CutEpoch(source, |reported.added|, |reported.changed|, |reported.removed|)
  {
    hide BatchOps, StampedAll, DeleteOps, CurrentShas, BatchShas, DiffSets, NextNumber;
  }

  lemma LastTwo(hist: Batches, batch: map<Id, string>, rest: Batches)
    ensures
      var all := hist + [batch] + rest;
      && UpTo(all, |hist| - 1) == |hist| && UpTo(all, |hist|) == |hist| + 1
      && Overwritten(all, |hist|) == Overwritten(hist, |hist|)
      && Overwritten(all, |hist| + 1) == Overwritten(hist, |hist|) + batch
  {
    var all := hist + [batch] + rest;
    hide Overwritten;
    assert all == hist + ([batch] + rest);
    OverwrittenPrefix(hist, [batch] + rest, |hist|);
    OneMore(all, |hist|);
  }

  lemma OneMore(hist: Batches, k: nat)
    requires k < |hist|
    ensures Overwritten(hist, k + 1) == Overwritten(hist, k) + hist[k]
  {
  }

  lemma SameDiff(current: map<Id, string>, batch: map<Id, string>)
    ensures
      var d, e := DiffSets(current, current + batch), DiffSets(current, batch);
      d.added == e.added && d.changed == e.changed
  {
  }
}
