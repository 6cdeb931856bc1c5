/** The open versions and the concept rows say the same of every concept, but for one
    that is being written. */
module EpochCurrent {
  import opened Wrappers
  import opened EpochModel
  import opened EpochRecovery
  import opened EpochInvariants

  /** The open version of `id` carries what its concept row says. */
  ghost predicate Current(db: Db, id: Id)
    requires id in db.concept
  {
    exists i :: 0 <= i < |db.facts| && CurrentVersion(db.facts[i], id, db.concept[id].content)
  }

  predicate CurrentVersion(f: Fact, id: Id, c: Content) {
    f.id == id && IsOpen(f) && f.sha == c.sha && f.kind == c.kind && f.title == c.title
  }

  ghost predicate SyncedBut(db: Db, behind: set<Id>) {
    forall id :: id in db.concept && id !in behind ==> Current(db, id)
  }

  ghost predicate Synced(db: Db) {
    SyncedBut(db, {})
  }

  ghost predicate OneBehind(db: Db) {
    exists id :: SyncedBut(db, {id})
  }

  lemma SyncedIsOneBehind(db: Db)
    requires Synced(db)
    ensures OneBehind(db)
  {
    hide Current;
    assert SyncedBut(db, {""});
  }

  /** Tables that agree on rows and versions agree on what is current. */
  lemma SameTables(a: Db, b: Db, behind: set<Id>)
    requires SyncedBut(a, behind) && a.concept == b.concept && a.facts == b.facts
    ensures SyncedBut(b, behind)
  {
    hide CurrentVersion;
    forall id | id in b.concept && id !in behind ensures Current(b, id) {
      assert Current(a, id);
    }
  }

  lemma UpsertBehind(db: Db, c: Concept, behind: set<Id>)
    requires SyncedBut(db, behind)
    ensures SyncedBut(db.(concept := Upsert(db.concept, c)), behind + {c.id})
  {
    var after := db.(concept := Upsert(db.concept, c));
    hide CurrentVersion;
    forall id | id in after.concept && id !in behind + {c.id} ensures Current(after, id) {
      assert id in db.concept && Current(db, id) && after.concept[id] == db.concept[id];
      var i :| 0 <= i < |db.facts| && CurrentVersion(db.facts[i], id, db.concept[id].content);
      assert CurrentVersion(after.facts[i], id, after.concept[id].content);
    }
  }

  lemma RecordBehind(db: Db, c: Concept, at: int, behind: set<Id>)
    requires SyncedBut(db, behind) && c.id in db.concept && db.concept[c.id].content == c.content
    ensures SyncedBut(RecordFact(db, c, at), behind - {c.id})
  {
    var closed := CloseOpen(db.facts, c.id, at, db.clock + 1);
    var after := RecordFact(db, c, at);
    CloseOpenIs(db.facts, c.id, at, db.clock + 1);
    assert after.concept == db.concept && |after.facts| == |closed| + 1;
    assert forall i :: 0 <= i < |closed| ==> after.facts[i] == closed[i];
    assert CurrentVersion(after.facts[|closed|], c.id, c.content);
    hide RecordFact, CloseOpen, SameVersions, CurrentVersion;
    forall id | id in after.concept && id !in behind - {c.id} ensures Current(after, id) {
      if id != c.id {
        assert Current(db, id);
        var i :| 0 <= i < |db.facts| && CurrentVersion(db.facts[i], id, db.concept[id].content);
        OtherIdKept(db.facts[i], c.id, at, db.clock + 1, id, db.concept[id].content);
        assert CurrentVersion(after.facts[i], id, after.concept[id].content);
      }
    }
  }

  lemma OtherIdKept(f: Fact, id: Id, at: int, now: int, other: Id, content: Content)
    requires other != id && CurrentVersion(f, other, content)
    ensures Closed(f, id, at, now) == f
  {
  }

  // ---- along a list of writes

  /** Every state on the way, the first and the last included, is at most one behind. */
  ghost predicate Along(ops: seq<Op>, w: World)
    decreases |ops|
  {
    OneBehind(w.db) && (ops == [] || Along(ops[1..], Apply(ops[0], w)))
  }

  lemma {:induction false} AlongPrefix(ops: seq<Op>, w: World, k: nat)
    requires Along(ops, w) && k <= |ops|
    ensures OneBehind(ApplyAll(ops[..k], w).db)
    decreases k
  {
    hide OneBehind, Apply;
    if k > 0 {
      AlongPrefix(ops[1..], Apply(ops[0], w), k - 1);
      assert ops[..k][1..] == ops[1..][..k - 1];
    }
  }

  lemma {:induction false} AlongConcat(a: seq<Op>, b: seq<Op>, w: World)
    requires Along(a, w) && Along(b, ApplyAll(a, w))
    ensures Along(a + b, w)
    decreases |a|
  {
    hide OneBehind, Apply;
    if a == [] {
      assert a + b == b;
    } else {
      assert (a + b)[1..] == a[1..] + b;
      AlongConcat(a[1..], b, Apply(a[0], w));
    }
  }

  lemma ConceptSynced(env: Env, c: Concept, at: int, w: World)
    requires Synced(w.db)
    ensures Along(ConceptOps(env, c, at), w)
    ensures Synced(ApplyConcept(env, c, at, w).db)
  {
    var ops := ConceptOps(env, c, at);
    var w1 := Apply(ops[0], w);
    var w2 := Apply(ops[1], w1);
    var w3 := Apply(ops[2], w2);
    var w4 := Apply(ops[3], w3);
    var w5 := Apply(ops[4], w4);
    ConceptOpsApply(env, c, at, w);
    StepsAreConcept(env, c, at, w);
    assert w1.db == w.db;
    assert w2.db == w.db.(concept := Upsert(w.db.concept, c));
    assert w3.db.concept == w2.db.concept && w3.db.facts == w2.db.facts;
    assert w4.db.concept == w2.db.concept && w4.db.facts == w2.db.facts;
    assert w5.db == RecordFact(w4.db, c, at) by { assert ops[4] == AppendFact(c, at); }
    assert c.id in w2.db.concept && w2.db.concept[c.id].content == c.content;
    hide Apply, ConceptOps, ApplyConcept, Upsert, RecordFact, SyncedBut, ApplyAll;
    UpsertBehind(w.db, c, {});
    assert {} + {c.id} == {c.id} && {c.id} - {c.id} == {};
    SameTables(w2.db, w3.db, {c.id});
    SameTables(w2.db, w4.db, {c.id});
    RecordBehind(w4.db, c, at, {c.id});
    SyncedIsOneBehind(w.db);
    SyncedIsOneBehind(w5.db);
    SixStates(ops, w, w1, w2, w3, w4, w5);
  }

  lemma StepsAreConcept(env: Env, c: Concept, at: int, w: World)
    ensures
      var ops := ConceptOps(env, c, at);
      |ops| == 5 && Apply(ops[4], Apply(ops[3], Apply(ops[2], Apply(ops[1], Apply(ops[0], w))))) == ApplyConcept(env, c, at, w)
  {
  }

  lemma SixStates(ops: seq<Op>, w: World, w1: World, w2: World, w3: World, w4: World, w5: World)
    requires |ops| == 5
    requires w1 == Apply(ops[0], w) && w2 == Apply(ops[1], w1) && w3 == Apply(ops[2], w2) && w4 == Apply(ops[3], w3) && w5 == Apply(ops[4], w4)
    requires OneBehind(w.db) && OneBehind(w1.db) && OneBehind(w2.db) && OneBehind(w3.db) && OneBehind(w4.db) && OneBehind(w5.db)
    ensures Along(ops, w)
  {
    hide Apply, OneBehind;
    assert ops[4..][1..] == [] && ops[3..][1..] == ops[4..] && ops[2..][1..] == ops[3..] && ops[1..][1..] == ops[2..];
    assert Along([], w5);
    assert Along(ops[4..], w4);
    assert Along(ops[3..], w3);
    assert Along(ops[2..], w2);
    assert Along(ops[1..], w1);
  }

  lemma {:induction false} BatchSynced(env: Env, cs: seq<Concept>, at: int, w: World)
    requires Synced(w.db)
    ensures Along(BatchOps(env, cs, at), w)
    ensures Synced(ApplyBatch(env, cs, at, w).db)
    decreases |cs|
  {
    hide Synced, OneBehind, ConceptOps, ApplyConcept, Apply;
    if cs == [] {
      SyncedIsOneBehind(w.db);
    } else {
      ConceptSynced(env, cs[0], at, w);
      BatchSynced(env, cs[1..], at, ApplyConcept(env, cs[0], at, w));
      ConceptOpsApply(env, cs[0], at, w);
      AlongConcat(ConceptOps(env, cs[0], at), BatchOps(env, cs[1..], at), w);
    }
  }

  /** A write that touches neither rows nor versions. */
  predicate Aside(op: Op) {
    !op.Truncate? && !op.UpsertRow? && !op.AppendFact?
  }

  lemma {:induction false} AsideSynced(ops: seq<Op>, w: World)
    requires Synced(w.db) && forall i :: 0 <= i < |ops| ==> Aside(ops[i])
    ensures Along(ops, w) && Synced(ApplyAll(ops, w).db)
    decreases |ops|
  {
    SyncedIsOneBehind(w.db);
    hide OneBehind, SyncedBut;
    if ops != [] {
      var w1 := Apply(ops[0], w);
      assert Aside(ops[0]);
      AsideKeeps(ops[0], w);
      hide Apply;
      SameTables(w.db, w1.db, {});
      assert forall i :: 0 <= i < |ops[1..]| ==> ops[1..][i] == ops[i + 1];
      AsideSynced(ops[1..], w1);
    }
  }

  lemma AsideKeeps(op: Op, w: World)
    requires Aside(op)
    ensures Apply(op, w).db.concept == w.db.concept && Apply(op, w).db.facts == w.db.facts
  {
    hide Prune, NextNumber, Upsert, RecordFact;
  }

  lemma CutAndBatchSynced(env: Env, plan: seq<Op>, cut: Op, rs: seq<Concept>, rest: seq<Op>, w: World)
    requires Synced(w.db) && CutsAndWrites(env, plan, cut, rs, rest, w)
    ensures Along(plan, w) && Synced(ApplyAll(plan, w).db)
  {
    SyncedParts(env, plan, cut, rs, rest, w);
    hide *;
    var at := w.db.clock + 1;
    var batch := BatchOps(env, rs, at);
    var w1 := ApplyAll([cut], w);
    AsideSynced([cut], w);
    BatchSynced(env, rs, at, w1);
    BatchOpsApply(env, rs, at, w1);
    var w2 := ApplyAll(batch, w1);
    AsideSynced(rest, w2);
    ApplyConcat(batch, rest, w1);
    AlongConcat(batch, rest, w1);
    ApplyConcat([cut], batch + rest, w);
    AlongConcat([cut], batch + rest, w);
  }

  lemma SyncedParts(env: Env, plan: seq<Op>, cut: Op, rs: seq<Concept>, rest: seq<Op>, w: World)
    requires CutsAndWrites(env, plan, cut, rs, rest, w)
    ensures Aside(cut) && plan == [cut] + (BatchOps(env, rs, w.db.clock + 1) + rest) && Apply(cut, w).db.clock == w.db.clock + 1
    ensures forall i :: 0 <= i < |rest| ==> Aside(rest[i])
  {
    hide BatchOps, NextNumber;
  }

  lemma {:induction false} PlanSynced(env: Env, call: Call, sweep: seq<Id>, w: World)
    requires Synced(w.db) && Plan(env, call, sweep, w).Some?
    ensures Along(Plan(env, call, sweep, w).value, w) && Synced(ApplyAll(Plan(env, call, sweep, w).value, w).db)
  {
    match call {
      case Run(cs, source) =>
        var cut, rs, rest := RunComposed(env, cs, source, sweep, w);
        hide *;
        CutAndBatchSynced(env, Plan(env, call, sweep, w).value, cut, rs, rest, w);
      case UpsertBatch(cs, source) =>
        if cs == [] {
          assert Plan(env, call, sweep, w).value == [];
          SyncedIsOneBehind(w.db);
          hide Synced, OneBehind;
        } else {
          var cut, rs, rest := UpsertComposed(env, cs, source, sweep, w);
          hide *;
          CutAndBatchSynced(env, Plan(env, call, sweep, w).value, cut, rs, rest, w);
        }
      case Reindex(listing) =>
        ReindexSynced(env, listing, sweep, w);
        SyncedIsOneBehind(w.db);
        hide Plan, Synced, OneBehind, Apply;
    }
  }

  lemma TruncatedSynced(w: World)
    ensures Synced(Apply(Truncate, w).db)
  {
    hide Current;
  }

  lemma ReindexSynced(env: Env, listing: seq<Id>, sweep: seq<Id>, w: World)
    requires Plan(env, Reindex(listing), sweep, w).Some?
    ensures
      var plan := Plan(env, Reindex(listing), sweep, w).value;
      && plan != [] && plan[0] == Truncate
      && Along(plan[1..], Apply(Truncate, w)) && Synced(ApplyAll(plan, w).db)
  {
    var plan := Plan(env, Reindex(listing), sweep, w).value;
    var cut, rs, rest := ReindexComposed(env, listing, sweep, w);
    TruncatedSynced(w);
    hide Plan, Synced, Along, Apply, BatchOps, CutsAndWrites, ReadFiles;
    CutAndBatchSynced(env, plan[1..], cut, rs, rest, Apply(Truncate, w));
  }

  /** From tables in which rows and versions agree: they agree again when the call
      completes, and wherever it stops at most one concept is behind. */
  lemma CallKeepsSynced(env: Env, call: Call, sweep: seq<Id>, w: World, k: nat)
    requires Synced(w.db) && Plan(env, call, sweep, w).Some? && k <= |Plan(env, call, sweep, w).value|
    ensures OneBehind(ApplyAll(Plan(env, call, sweep, w).value[..k], w).db)
    ensures k == |Plan(env, call, sweep, w).value| ==> Synced(ApplyAll(Plan(env, call, sweep, w).value[..k], w).db)
  {
    var plan := Plan(env, call, sweep, w).value;
    PlanSynced(env, call, sweep, w);
    hide *;
    AlongPrefix(plan, w, k);
    if k == |plan| {
      assert plan[..k] == plan;
    }
  }

  /** Reindex repairs tables in any state. */
  lemma ReindexEstablishesSynced(env: Env, listing: seq<Id>, sweep: seq<Id>, w: World)
    requires Plan(env, Reindex(listing), sweep, w).Some?
    ensures Synced(ApplyAll(Plan(env, Reindex(listing), sweep, w).value, w).db)
  {
    ReindexSynced(env, listing, sweep, w);
  }
}
