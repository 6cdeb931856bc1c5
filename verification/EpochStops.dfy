/** Calls that stop: which rows the writes leave ahead of their versions, and exactly when a
    stopped call leaves rows and versions in agreement. */
module EpochStops {
  import opened Wrappers
  import opened EpochModel
  import opened EpochRecovery
  import opened EpochInvariants
  import opened EpochCurrent
  import opened EpochHistory

  // ---- the ids whose row was written since their version was

  function BehindStep(op: Op, behind: set<Id>): set<Id> {
    match op
    case Truncate => {}
    case UpsertRow(c) => behind + {c.id}
    case AppendFact(c, _) => behind - {c.id}
    case _ => behind
  }

  /** Starting from `behind`: the ids whose row was written after their last version was
      recorded and after the last time the tables were emptied. */
  function BehindAfter(ops: seq<Op>, behind: set<Id>): set<Id>
    decreases |ops|
  {
    if ops == [] then behind else BehindAfter(ops[1..], BehindStep(ops[0], behind))
  }

  lemma {:induction false} BehindConcat(a: seq<Op>, b: seq<Op>, behind: set<Id>)
    ensures BehindAfter(a + b, behind) == BehindAfter(b, BehindAfter(a, behind))
    decreases |a|
  {
    if a == [] {
      assert a + b == b;
    } else {
      assert (a + b)[1..] == a[1..] + b;
      BehindConcat(a[1..], b, BehindStep(a[0], behind));
    }
  }

  predicate Settles(op: Op, id: Id) {
    op.Truncate? || (op.AppendFact? && op.c.id == id)
  }

  ghost predicate RowSince(ops: seq<Op>, id: Id) {
    exists j :: 0 <= j < |ops| && ops[j].UpsertRow? && ops[j].c.id == id && NoneSettles(ops, id, j + 1)
  }

  ghost predicate NoneSettles(ops: seq<Op>, id: Id, from: nat) {
    forall k :: from <= k < |ops| ==> !Settles(ops[k], id)
  }

  /** What the fold means: a row write that nothing after it settles, or a start behind
      that nothing settles. */
  lemma {:induction false} BehindIs(ops: seq<Op>, behind: set<Id>, id: Id)
    ensures id in BehindAfter(ops, behind) <==> RowSince(ops, id) || (id in behind && NoneSettles(ops, id, 0))
    decreases |ops|
  {
    if ops != [] {
      var n := |ops| - 1;
      var init, last := ops[..n], ops[n];
      assert ops == init + [last];
      BehindConcat(init, [last], behind);
      assert [last][1..] == [];
      assert BehindAfter([last], BehindAfter(init, behind)) == BehindStep(last, BehindAfter(init, behind));
      BehindIs(init, behind, id);
      SinceNext(ops, id);
    }
  }

  lemma SinceNext(ops: seq<Op>, id: Id)
    requires ops != []
    ensures
      var n := |ops| - 1;
      var last := ops[n];
      && (NoneSettles(ops, id, 0) <==> NoneSettles(ops[..n], id, 0) && !Settles(last, id))
      && (RowSince(ops, id) <==> (last.UpsertRow? && last.c.id == id) || (RowSince(ops[..n], id) && !Settles(last, id)))
  {
    hide Settles;
    var n := |ops| - 1;
    var init := ops[..n];
    if ops[n].UpsertRow? && ops[n].c.id == id {
      assert NoneSettles(ops, id, n + 1);
    }
    if RowSince(init, id) && !Settles(ops[n], id) {
      var j :| 0 <= j < |init| && init[j].UpsertRow? && init[j].c.id == id && NoneSettles(init, id, j + 1);
      forall k | j + 1 <= k < |ops| ensures !Settles(ops[k], id) {
        assert k < n ==> init[k] == ops[k] && !Settles(init[k], id);
      }
      assert NoneSettles(ops, id, j + 1) && ops[j] == init[j];
    }
    if RowSince(ops, id) {
      var j :| 0 <= j < |ops| && ops[j].UpsertRow? && ops[j].c.id == id && NoneSettles(ops, id, j + 1);
      if j < n {
        assert !Settles(ops[n], id) && init[j] == ops[j];
        forall k | j + 1 <= k < |init| ensures !Settles(init[k], id) {
          assert init[k] == ops[k] && !Settles(ops[k], id);
        }
        assert NoneSettles(init, id, j + 1);
      }
    }
    forall k | 0 <= k < n ensures init[k] == ops[k] {}
  }

  // ---- the concept being written

  /** The concept whose row is written and whose version is not yet. */
  function Writing1(op: Op, cur: Option<Concept>): Option<Concept> {
    match op
    case UpsertRow(c) => Some(c)
    case StoreEmbedding(_, _, _) => cur
    case ReplaceEdges(_, _) => cur
    case _ => None
  }

  /** A write of one concept belongs to the one being written; nothing else comes between. */
  predicate Allowed(op: Op, cur: Option<Concept>) {
    match op
    case StoreEmbedding(_, _, _) => cur.Some?
    case ReplaceEdges(_, _) => cur.Some?
    case AppendFact(c, _) => cur == Some(c)
    case _ => cur.None?
  }

  function Unfinished(ops: seq<Op>, cur: Option<Concept>): Option<Concept>
    decreases |ops|
  {
    if ops == [] then cur else Unfinished(ops[1..], Writing1(ops[0], cur))
  }

  predicate Orderly(ops: seq<Op>, cur: Option<Concept>)
    decreases |ops|
  {
    ops == [] || (Allowed(ops[0], cur) && Orderly(ops[1..], Writing1(ops[0], cur)))
  }

  lemma {:induction false} OrderlyConcat(a: seq<Op>, b: seq<Op>, cur: Option<Concept>)
    ensures Unfinished(a + b, cur) == Unfinished(b, Unfinished(a, cur))
    ensures Orderly(a + b, cur) <==> Orderly(a, cur) && Orderly(b, Unfinished(a, cur))
    decreases |a|
  {
    hide Allowed, Writing1;
    if a == [] {
      assert a + b == b;
    } else {
      assert (a + b)[1..] == a[1..] + b;
      OrderlyConcat(a[1..], b, Writing1(a[0], cur));
    }
  }

  lemma OrderlyPrefix(ops: seq<Op>, k: nat)
    requires Orderly(ops, None) && k <= |ops|
    ensures Orderly(ops[..k], None)
  {
    hide Orderly, Unfinished;
    assert ops == ops[..k] + ops[k..];
    OrderlyConcat(ops[..k], ops[k..], None);
  }

  predicate Between(op: Op) {
    op.UpsertRow? || op.StoreEmbedding? || op.ReplaceEdges?
  }

  /** A concept is unfinished exactly when the last write is its row, its embedding or its
      edges. */
  lemma UnfinishedIffBetween(ops: seq<Op>)
    requires Orderly(ops, None) && ops != []
    ensures Unfinished(ops, None).Some? <==> Between(ops[|ops| - 1])
  {
    var n := |ops| - 1;
    assert ops == ops[..n] + [ops[n]];
    OrderlyConcat(ops[..n], [ops[n]], None);
    assert [ops[n]][1..] == [];
    var cur := Unfinished(ops[..n], None);
    assert Orderly([ops[n]], cur) ==> Allowed(ops[n], cur);
    assert Unfinished([ops[n]], cur) == Writing1(ops[n], cur);
    hide Orderly, Unfinished;
  }

  // ---- the plans are orderly

  lemma ConceptOrderly(env: Env, c: Concept, at: int)
    ensures Orderly(ConceptOps(env, c, at), None) && Unfinished(ConceptOps(env, c, at), None) == None
  {
    var ops := ConceptOps(env, c, at);
    assert ops == [ops[0]] + ([ops[1]] + ([ops[2]] + ([ops[3]] + ([ops[4]] + []))));
    FiveAllowed(env, c, at);
    hide ConceptOps, Orderly, Unfinished, Allowed, Writing1;
    NothingOrderly();
    PutFirst(ops[4], [], Some(c));
    PutFirst(ops[3], [ops[4]] + [], Some(c));
    PutFirst(ops[2], [ops[3]] + ([ops[4]] + []), Some(c));
    PutFirst(ops[1], [ops[2]] + ([ops[3]] + ([ops[4]] + [])), None);
    PutFirst(ops[0], [ops[1]] + ([ops[2]] + ([ops[3]] + ([ops[4]] + []))), None);
  }

  lemma FiveAllowed(env: Env, c: Concept, at: int)
    ensures
      var ops := ConceptOps(env, c, at);
      && Allowed(ops[0], None) && Writing1(ops[0], None) == None
      && Allowed(ops[1], None) && Writing1(ops[1], None) == Some(c)
      && Allowed(ops[2], Some(c)) && Writing1(ops[2], Some(c)) == Some(c)
      && Allowed(ops[3], Some(c)) && Writing1(ops[3], Some(c)) == Some(c)
      && Allowed(ops[4], Some(c)) && Writing1(ops[4], Some(c)) == None
  {
    hide TextOf;
  }

  lemma PutFirst(op: Op, rest: seq<Op>, cur: Option<Concept>)
    requires Allowed(op, cur) && Orderly(rest, Writing1(op, cur))
    ensures Orderly([op] + rest, cur) && Unfinished([op] + rest, cur) == Unfinished(rest, Writing1(op, cur))
  {
    hide Allowed, Writing1;
    assert ([op] + rest)[1..] == rest;
  }

  lemma {:induction false} BatchOrderly(env: Env, cs: seq<Concept>, at: int)
    ensures Orderly(BatchOps(env, cs, at), None) && Unfinished(BatchOps(env, cs, at), None) == None
    decreases |cs|
  {
    hide ConceptOps, Orderly, Unfinished;
    if cs == [] {
      NothingOrderly();
    } else {
      ConceptOrderly(env, cs[0], at);
      BatchOrderly(env, cs[1..], at);
      OrderlyConcat(ConceptOps(env, cs[0], at), BatchOps(env, cs[1..], at), None);
    }
  }

  lemma NothingOrderly()
    ensures Orderly([], None) && Unfinished([], None) == None
  {
  }

  lemma {:induction false} OthersOrderly(ops: seq<Op>)
    requires forall i :: 0 <= i < |ops| ==> Closing(ops[i]) || ops[i].CutEpoch? || ops[i].Truncate?
    ensures Orderly(ops, None) && Unfinished(ops, None) == None
    decreases |ops|
  {
    if ops != [] {
      assert Closing(ops[0]) || ops[0].CutEpoch? || ops[0].Truncate?;
      assert forall i :: 0 <= i < |ops[1..]| ==> ops[1..][i] == ops[i + 1];
      OthersOrderly(ops[1..]);
    }
  }

  lemma ComposedOrderly(env: Env, plan: seq<Op>, cut: Op, rs: seq<Concept>, rest: seq<Op>, w: World)
    requires CutsAndWrites(env, plan, cut, rs, rest, w)
    ensures Orderly(plan, None) && Unfinished(plan, None) == None
  {
    hide Orderly, Unfinished, BatchOps, NextNumber, Closing;
    var batch := BatchOps(env, rs, w.db.clock + 1);
    OthersOrderly([cut]);
    BatchOrderly(env, rs, w.db.clock + 1);
    OthersOrderly(rest);
    OrderlyConcat(batch, rest, None);
    OrderlyConcat([cut], batch + rest, None);
  }

  lemma PlanOrderly(env: Env, call: Call, sweep: seq<Id>, w: World)
    requires Plan(env, call, sweep, w).Some?
    ensures Orderly(Plan(env, call, sweep, w).value, None) && Unfinished(Plan(env, call, sweep, w).value, None) == None
  {
    match call {
      case Run(cs, source) =>
        var cut, rs, rest := RunComposed(env, cs, source, sweep, w);
        hide *;
        ComposedOrderly(env, Plan(env, call, sweep, w).value, cut, rs, rest, w);
      case UpsertBatch(cs, source) =>
        if cs == [] {
          assert Plan(env, call, sweep, w).value == [];
          hide Plan;
        } else {
          var cut, rs, rest := UpsertComposed(env, cs, source, sweep, w);
          hide *;
          ComposedOrderly(env, Plan(env, call, sweep, w).value, cut, rs, rest, w);
        }
      case Reindex(listing) =>
        ReindexOrderly(env, listing, sweep, w);
    }
  }

  lemma ReindexOrderly(env: Env, listing: seq<Id>, sweep: seq<Id>, w: World)
    requires Plan(env, Reindex(listing), sweep, w).Some?
    ensures
      var plan := Plan(env, Reindex(listing), sweep, w).value;
      Orderly(plan, None) && Unfinished(plan, None) == None
  {
    hide Plan, Orderly, Unfinished, BatchOps, Apply, ReadFiles, NextNumber;
    var plan := Plan(env, Reindex(listing), sweep, w).value;
    var cut, rs, rest := ReindexComposed(env, listing, sweep, w);
    ComposedOrderly(env, plan[1..], cut, rs, rest, Apply(Truncate, w));
    OthersOrderly([Truncate]);
    assert plan == [Truncate] + plan[1..];
    OrderlyConcat([Truncate], plan[1..], None);
  }

  // ---- orderly writes keep the account

  /** The row of the concept being written holds it. */
  predicate RowHolds(db: Db, cur: Option<Concept>) {
    cur.Some? ==> cur.value.id in db.concept && db.concept[cur.value.id].content == cur.value.content
  }

  lemma RowHoldsStep(op: Op, w: World, cur: Option<Concept>)
    requires RowHolds(w.db, cur) && Allowed(op, cur)
    ensures RowHolds(Apply(op, w).db, Writing1(op, cur))
  {
    hide RecordFact, NextNumber, Prune;
  }

  lemma BehindStepHolds(op: Op, w: World, cur: Option<Concept>, behind: set<Id>)
    requires SyncedBut(w.db, behind) && RowHolds(w.db, cur) && Allowed(op, cur)
    ensures SyncedBut(Apply(op, w).db, BehindStep(op, behind))
  {
    hide SyncedBut, RecordFact, Upsert, NextNumber, Prune;
    match op {
      case Truncate =>
        TruncatedSynced(w);
      case UpsertRow(c) =>
        UpsertBehind(w.db, c, behind);
      case AppendFact(c, at) =>
        RecordBehind(w.db, c, at, behind);
      case _ =>
        AsideKeeps(op, w);
        SameTables(w.db, Apply(op, w).db, behind);
    }
  }

  /** After orderly writes every concept has its current version, but for those the writes
      left behind; and the row of the unfinished one holds it. */
  lemma {:induction false} OrderlyHolds(ops: seq<Op>, w: World, cur: Option<Concept>, behind: set<Id>)
    requires Orderly(ops, cur) && RowHolds(w.db, cur) && SyncedBut(w.db, behind)
    ensures SyncedBut(ApplyAll(ops, w).db, BehindAfter(ops, behind))
    ensures RowHolds(ApplyAll(ops, w).db, Unfinished(ops, cur))
    decreases |ops|
  {
    hide SyncedBut, RowHolds, Apply, BehindStep, Writing1, Allowed;
    if ops != [] {
      BehindStepHolds(ops[0], w, cur, behind);
      RowHoldsStep(ops[0], w, cur);
      OrderlyHolds(ops[1..], Apply(ops[0], w), Writing1(ops[0], cur), BehindStep(ops[0], behind));
    }
  }

  /** From nothing behind, orderly writes leave the unfinished concept behind and no other. */
  lemma {:induction false} OnlyUnfinishedBehind(ops: seq<Op>, cur: Option<Concept>)
    requires Orderly(ops, cur)
    ensures BehindAfter(ops, Just(cur)) == Just(Unfinished(ops, cur))
    decreases |ops|
  {
    if ops != [] {
      assert BehindStep(ops[0], Just(cur)) == Just(Writing1(ops[0], cur));
      hide BehindStep, Writing1, Just, Allowed;
      OnlyUnfinishedBehind(ops[1..], Writing1(ops[0], cur));
    }
  }

  function Just(c: Option<Concept>): set<Id> {
    if c.None? then {} else {c.value.id}
  }

  // ---- one call, stopped anywhere

  /** An open version already has this content. */
  ghost predicate OpenAs(facts: seq<Fact>, id: Id, content: Content) {
    exists i :: 0 <= i < |facts| && CurrentVersion(facts[i], id, content)
  }

  /** The concept that a call stopped after `k` writes has half written. */
  ghost function HalfWritten(env: Env, call: Call, sweep: seq<Id>, w: World, k: nat): Option<Concept>
    requires Plan(env, call, sweep, w).Some? && k <= |Plan(env, call, sweep, w).value|
  {
    Unfinished(Plan(env, call, sweep, w).value[..k], None)
  }

  lemma SyncedIffCurrent(db: Db, c: Concept)
    requires SyncedBut(db, {c.id}) && RowHolds(db, Some(c))
    ensures Synced(db) <==> OpenAs(db.facts, c.id, c.content)
  {
    hide CurrentVersion;
    assert Current(db, c.id) <==> OpenAs(db.facts, c.id, c.content);
    hide Current, OpenAs;
  }

  /** Wherever a call stops, from tables in agreement: they agree if and only if its last
      write was not the row, the embedding or the edges of a concept, or an open version
      already says what that concept's row now says. */
  lemma StoppedAgreesIff(env: Env, call: Call, sweep: seq<Id>, w: World, k: nat)
    requires Synced(w.db) && Plan(env, call, sweep, w).Some? && k <= |Plan(env, call, sweep, w).value|
    ensures
      var plan, half := Plan(env, call, sweep, w).value, HalfWritten(env, call, sweep, w, k);
      var after := ApplyAll(plan[..k], w).db;
      && (half.Some? <==> k > 0 && Between(plan[k - 1]))
      && (Synced(after) <==> half.None? || OpenAs(after.facts, half.value.id, half.value.content))
      && SyncedBut(after, Just(half))
  {
    var plan := Plan(env, call, sweep, w).value;
    var ops := plan[..k];
    PlanOrderly(env, call, sweep, w);
    hide Plan, Synced, SyncedBut, ApplyAll, Orderly, RowHolds, OpenAs, Between, Unfinished, BehindAfter;
    OrderlyPrefix(plan, k);
    StoppedOps(ops, w);
    if k > 0 {
      UnfinishedIffBetween(ops);
    } else {
      assert ops == [];
      NothingOrderly();
    }
  }

  lemma StoppedOps(ops: seq<Op>, w: World)
    requires Synced(w.db) && Orderly(ops, None)
    ensures
      var half, after := Unfinished(ops, None), ApplyAll(ops, w).db;
      && (Synced(after) <==> half.None? || OpenAs(after.facts, half.value.id, half.value.content))
      && SyncedBut(after, Just(half))
  {
    hide SyncedBut, ApplyAll, Orderly, RowHolds, OpenAs, Unfinished, BehindAfter;
    assert RowHolds(w.db, None) by {
      NoRow(w.db);
    }
    OrderlyHolds(ops, w, None, {});
    OnlyUnfinishedBehind(ops, None);
    var half := Unfinished(ops, None);
    if half.Some? {
      SyncedIffCurrent(ApplyAll(ops, w).db, half.value);
    }
  }

  lemma NoRow(db: Db)
    ensures RowHolds(db, None)
  {
  }

  // ---- the condition, known before the call

  lemma OpenKept(op: Op, w: World, id: Id, content: Content)
    requires !Settles(op, id)
    ensures OpenAs(Apply(op, w).db.facts, id, content) <==> OpenAs(w.db.facts, id, content)
  {
    if op.AppendFact? {
      RecordOpen(w.db, op.c, op.validFrom, id, content);
    } else if !op.UpsertRow? {
      AsideKeeps(op, w);
    }
    hide OpenAs, RecordFact, Upsert, NextNumber, Prune;
  }

  lemma RecordOpen(db: Db, c: Concept, at: int, id: Id, content: Content)
    requires c.id != id
    ensures OpenAs(RecordFact(db, c, at).facts, id, content) <==> OpenAs(db.facts, id, content)
  {
    var closed := CloseOpen(db.facts, c.id, at, db.clock + 1);
    var after := RecordFact(db, c, at).facts;
    CloseOpenIs(db.facts, c.id, at, db.clock + 1);
    assert |after| == |closed| + 1 && forall i :: 0 <= i < |closed| ==> after[i] == closed[i];
    assert after[|closed|].id == c.id;
    forall i | 0 <= i < |closed| ensures CurrentVersion(after[i], id, content) <==> CurrentVersion(db.facts[i], id, content) {
    }
    hide RecordFact, CloseOpen;
    if OpenAs(db.facts, id, content) {
      var i :| 0 <= i < |db.facts| && CurrentVersion(db.facts[i], id, content);
      assert CurrentVersion(after[i], id, content);
    }
    if OpenAs(after, id, content) {
      var i :| 0 <= i < |after| && CurrentVersion(after[i], id, content);
      assert i < |closed|;
      assert CurrentVersion(db.facts[i], id, content);
    }
  }

  lemma {:induction false} OpenKeptAll(ops: seq<Op>, w: World, id: Id, content: Content)
    requires NoneSettles(ops, id, 0)
    ensures OpenAs(ApplyAll(ops, w).db.facts, id, content) <==> OpenAs(w.db.facts, id, content)
    decreases |ops|
  {
    if ops != [] {
      assert !Settles(ops[0], id);
      OpenKept(ops[0], w, id, content);
      assert forall k :: 0 <= k < |ops[1..]| ==> ops[1..][k] == ops[k + 1];
      hide OpenAs, Apply, Settles;
      OpenKeptAll(ops[1..], Apply(ops[0], w), id, content);
    }
  }

  /** Of concepts with distinct ids, the one left half written has not been recorded before. */
  lemma {:induction false} BatchUnsettled(env: Env, cs: seq<Concept>, at: int, k: nat, c: Concept)
    requires DistinctIds(cs) && k <= |BatchOps(env, cs, at)| && Unfinished(BatchOps(env, cs, at)[..k], None) == Some(c)
    ensures c in cs && NoneSettles(BatchOps(env, cs, at)[..k], c.id, 0)
    decreases |cs|
  {
    hide Unfinished, Orderly, NoneSettles, Settles;
    NothingOrderly();
    var all := BatchOps(env, cs, at)[..k];
    assert |all| == 0 ==> all == [];
    if cs != [] {
      var head, tail := ConceptOps(env, cs[0], at), BatchOps(env, cs[1..], at);
      var ops := (head + tail)[..k];
      assert BatchOps(env, cs, at) == head + tail && |head| == 5;
      hide BatchOps, ConceptOps;
      if k <= 5 {
        assert ops == head[..k];
        ConceptUnsettled(env, cs[0], at, k, c);
      } else {
        assert ops == head + tail[..k - 5];
        ConceptOrderly(env, cs[0], at);
        OrderlyConcat(head, tail[..k - 5], None);
        assert DistinctIds(cs[1..]);
        BatchUnsettled(env, cs[1..], at, k - 5, c);
        var i :| 0 <= i < |cs[1..]| && cs[1..][i] == c;
        assert cs[i + 1] == c && cs[0].id != c.id;
        OtherSettled(env, cs[0], at, c.id);
        SettlesConcat(head, tail[..k - 5], c.id);
      }
    }
  }

  lemma ConceptUnsettled(env: Env, c: Concept, at: int, k: nat, half: Concept)
    requires k <= 5 && Unfinished(ConceptOps(env, c, at)[..k], None) == Some(half)
    ensures half == c && NoneSettles(ConceptOps(env, c, at)[..k], c.id, 0)
  {
    var ops := ConceptOps(env, c, at);
    ConceptOrderly(env, c, at);
    assert ops[..5] == ops;
    if k < 5 {
      hide TextOf;
      assert forall i :: 0 <= i < 4 ==> !Settles(ops[i], c.id);
      RowsOnly(ops[..k], c);
    }
  }

  /** Without a version among them, writes of one concept leave no other half written. */
  lemma {:induction false} RowsOnly(ops: seq<Op>, c: Concept)
    requires forall i :: 0 <= i < |ops| ==> (ops[i].UpsertRow? ==> ops[i].c == c)
    ensures Unfinished(ops, None).Some? ==> Unfinished(ops, None).value == c
    decreases |ops|
  {
    if ops != [] {
      var n := |ops| - 1;
      assert ops == ops[..n] + [ops[n]];
      OrderlyConcat(ops[..n], [ops[n]], None);
      assert [ops[n]][1..] == [];
      assert forall i :: 0 <= i < n ==> ops[..n][i] == ops[i];
      RowsOnly(ops[..n], c);
      assert Unfinished([ops[n]], Unfinished(ops[..n], None)) == Writing1(ops[n], Unfinished(ops[..n], None));
    }
  }

  lemma OtherSettled(env: Env, c: Concept, at: int, id: Id)
    requires id != c.id
    ensures NoneSettles(ConceptOps(env, c, at), id, 0)
  {
    hide TextOf;
  }

  lemma SettlesConcat(a: seq<Op>, b: seq<Op>, id: Id)
    ensures NoneSettles(a + b, id, 0) <==> NoneSettles(a, id, 0) && NoneSettles(b, id, 0)
  {
    hide Settles;
    forall k | 0 <= k < |a| ensures (a + b)[k] == a[k] {
    }
    forall k | 0 <= k < |b| ensures (a + b)[|a| + k] == b[k] {
    }
    if NoneSettles(a + b, id, 0) {
      forall k | 0 <= k < |a| ensures !Settles(a[k], id) {
        assert !Settles((a + b)[k], id);
      }
      forall k | 0 <= k < |b| ensures !Settles(b[k], id) {
        assert !Settles((a + b)[|a| + k], id);
      }
    }
    if NoneSettles(a, id, 0) && NoneSettles(b, id, 0) {
      forall k | 0 <= k < |a + b| ensures !Settles((a + b)[k], id) {
        assert k < |a| ==> !Settles(a[k], id);
        assert k >= |a| ==> !Settles(b[k - |a|], id);
      }
    }
  }

  lemma ComposedUnsettled(env: Env, plan: seq<Op>, cut: Op, rs: seq<Concept>, rest: seq<Op>, w: World, k: nat, c: Concept)
    requires CutsAndWrites(env, plan, cut, rs, rest, w) && DistinctIds(rs)
    requires k <= |plan| && Unfinished(plan[..k], None) == Some(c)
    ensures c in rs && NoneSettles(plan[..k], c.id, 0)
  {
    hide Unfinished, Orderly, NoneSettles, Settles, BatchOps, Closing, NextNumber, DistinctIds;
    var batch := BatchOps(env, rs, w.db.clock + 1);
    OthersOrderly([cut]);
    BatchOrderly(env, rs, w.db.clock + 1);
    NothingOrderly();
    assert plan[..0] == [];
    if 0 < k <= |batch| + 1 {
      assert plan[..k] == [cut] + batch[..k - 1];
      OrderlyConcat([cut], batch[..k - 1], None);
      BatchUnsettled(env, rs, w.db.clock + 1, k - 1, c);
      CutSettles(cut, c.id);
      SettlesConcat([cut], batch[..k - 1], c.id);
    } else if k > 0 {
      var part := rest[..k - 1 - |batch|];
      assert plan[..k] == [cut] + (batch + part);
      OthersOrderly(part);
      OrderlyConcat(batch, part, None);
      OrderlyConcat([cut], batch + part, None);
    }
  }

  lemma CutSettles(cut: Op, id: Id)
    requires cut.CutEpoch?
    ensures NoneSettles([cut], id, 0)
  {
  }

  /** The same condition as it stands before the call: a Run or an UpsertBatch of concepts with
      distinct ids that stops in the middle of a concept keeps the agreement exactly when the
      open version at the start already has the content of that concept. */
  lemma StoppedAgreesBefore(env: Env, call: Call, sweep: seq<Id>, w: World, k: nat)
    requires Synced(w.db) && Plan(env, call, sweep, w).Some? && k <= |Plan(env, call, sweep, w).value|
    requires !call.Reindex? && DistinctIds(call.concepts)
    ensures
      var half := HalfWritten(env, call, sweep, w, k);
      Synced(ApplyAll(Plan(env, call, sweep, w).value[..k], w).db) <==>
        half.None? || OpenAs(w.db.facts, half.value.id, half.value.content)
  {
    StoppedAgreesIff(env, call, sweep, w, k);
    var half := HalfWritten(env, call, sweep, w, k);
    if half.Some? {
      HalfUnsettled(env, call, sweep, w, k, half.value);
      hide Plan, ApplyAll, OpenAs, Synced, SyncedBut, NoneSettles, Between, Just;
      OpenKeptAll(Plan(env, call, sweep, w).value[..k], w, half.value.id, half.value.content);
    }
    hide Plan, ApplyAll, OpenAs, Synced, SyncedBut, Between, Just;
  }

  lemma NotNothing(env: Env, call: Call, sweep: seq<Id>, w: World, k: nat)
    requires Plan(env, call, sweep, w).Some? && k <= |Plan(env, call, sweep, w).value|
    requires HalfWritten(env, call, sweep, w, k).Some?
    ensures Plan(env, call, sweep, w).value != []
    ensures !(call.UpsertBatch? && call.concepts == [])
  {
    NothingOrderly();
    var ops := Plan(env, call, sweep, w).value[..k];
    assert |ops| == 0 ==> ops == [];
    hide Unfinished;
  }

  lemma HalfUnsettled(env: Env, call: Call, sweep: seq<Id>, w: World, k: nat, c: Concept)
    requires Plan(env, call, sweep, w).Some? && k <= |Plan(env, call, sweep, w).value|
    requires !call.Reindex? && DistinctIds(call.concepts)
    requires HalfWritten(env, call, sweep, w, k) == Some(c)
    ensures NoneSettles(Plan(env, call, sweep, w).value[..k], c.id, 0)
  {
    var n, at := NextNumber(w.db.epochs), w.db.clock + 1;
    StampedDistinct(env, call.concepts, n, at);
    var plan := Plan(env, call, sweep, w).value;
    NotNothing(env, call, sweep, w, k);
    if call.Run? {
      var cut, rs, rest := RunComposed(env, call.concepts, call.source, sweep, w);
      hide Plan, CutsAndWrites, Unfinished, NextNumber, DistinctIds, StampedAll, NoneSettles;
      ComposedUnsettled(env, plan, cut, rs, rest, w, k, c);
    } else {
      var cut, rs, rest := UpsertComposed(env, call.concepts, call.source, sweep, w);
      hide Plan, CutsAndWrites, Unfinished, NextNumber, DistinctIds, StampedAll, NoneSettles;
      ComposedUnsettled(env, plan, cut, rs, rest, w, k, c);
    }
  }

  /** A Reindex, whatever the tables were, leaves them in agreement exactly when it stops between
      two concepts: after its first write no version of before is left. */
  lemma StoppedReindexAgreesIff(env: Env, listing: seq<Id>, sweep: seq<Id>, w: World, k: nat)
    requires Plan(env, Reindex(listing), sweep, w).Some? && 1 <= k <= |Plan(env, Reindex(listing), sweep, w).value|
    requires ListingsOk(Reindex(listing), sweep, w)
    ensures
      var plan := Plan(env, Reindex(listing), sweep, w).value;
      Synced(ApplyAll(plan[..k], w).db) <==> !Between(plan[k - 1])
  {
    ReindexFailsIffUnreadable(env, listing, sweep, w);
    var cs := ReadConcepts(env, w.bundle, listing);
    assert DistinctIds(Renumbered(cs, 0));
    hide Plan, ApplyAll, Synced, Apply, ReadFiles, Renumbered, AreFiles, DistinctIds, Listed, Between, CutsAndWrites;
    var plan := Plan(env, Reindex(listing), sweep, w).value;
    var cut, rs, rest := ReindexComposed(env, listing, sweep, w);
    ReindexPrefix(plan, w, k);
    if k == 1 {
      NotBetween();
      TruncatedSynced(w);
      assert plan[1..][..0] == [];
      NoWrites(Apply(Truncate, w));
    } else {
      FreshStopAgreesIff(env, plan[1..], cut, rs, rest, w, k - 1);
      assert plan[1..][k - 2] == plan[k - 1];
    }
  }

  /** On emptied tables. */
  lemma FreshStopAgreesIff(env: Env, plan: seq<Op>, cut: Op, rs: seq<Concept>, rest: seq<Op>, w: World, k: nat)
    requires CutsAndWrites(env, plan, cut, rs, rest, Apply(Truncate, w)) && DistinctIds(rs) && 0 < k <= |plan|
    ensures Synced(ApplyAll(plan[..k], Apply(Truncate, w)).db) <==> !Between(plan[k - 1])
  {
    TruncatedSynced(w);
    NoVersions(w);
    hide ApplyAll, Synced, Apply, DistinctIds, Unfinished, Orderly, OpenAs, NoneSettles, Between, CutsAndWrites, SyncedBut, Just;
    var ops, w0 := plan[..k], Apply(Truncate, w);
    ComposedOrderly(env, plan, cut, rs, rest, w0);
    OrderlyPrefix(plan, k);
    StoppedOps(ops, w0);
    UnfinishedIffBetween(ops);
    var half := Unfinished(ops, None);
    if half.Some? {
      ComposedUnsettled(env, plan, cut, rs, rest, w0, k, half.value);
      OpenKeptAll(ops, w0, half.value.id, half.value.content);
    }
  }

  lemma NotBetween()
    ensures !Between(Truncate)
  {
  }

  lemma NoVersions(w: World)
    ensures forall id, content :: !OpenAs(Apply(Truncate, w).db.facts, id, content)
  {
  }

  lemma ReindexPrefix(plan: seq<Op>, w: World, k: nat)
    requires plan != [] && plan[0] == Truncate && 1 <= k <= |plan|
    ensures ApplyAll(plan[..k], w) == ApplyAll(plan[1..][..k - 1], Apply(Truncate, w))
  {
    hide Apply;
    assert plan[..k][1..] == plan[1..][..k - 1];
  }
}
