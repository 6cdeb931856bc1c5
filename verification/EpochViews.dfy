/** The history that the writes of a run have made, in every reachable state: what the views as
    of an epoch show while calls fail, and what Diff shows, which takes no mutex. */
module EpochViews {
  import opened Wrappers
  import opened EpochModel
  import opened EpochRecovery
  import opened EpochInvariants
  import opened EpochHistory
  import opened EpochSchedule
  import opened EpochLog

  // ---- the history as a fold over the writes

  function HistStep(op: Op, hist: Batches): Batches {
    match op
    case Truncate => []
    case CutEpoch(_, _, _, _) => hist + [map[]]
    case AppendFact(c, _) => if hist == [] then hist else hist[|hist| - 1 := hist[|hist| - 1][c.id := c.content.sha]]
    case _ => hist
  }

  /** The SHAs recorded in each epoch. */
  function HistAfter(ops: seq<Op>, hist: Batches): Batches
    decreases |ops|
  {
    if ops == [] then hist else HistAfter(ops[1..], HistStep(ops[0], hist))
  }

  /** A version is recorded in the newest epoch, the first of its concept there. */
  predicate Fresh(op: Op, hist: Batches) {
    op.AppendFact? ==> hist != [] && op.c.epoch == |hist| - 1 && op.c.id !in hist[|hist| - 1]
  }

  predicate AllFresh(ops: seq<Op>, hist: Batches)
    decreases |ops|
  {
    ops == [] || (Fresh(ops[0], hist) && AllFresh(ops[1..], HistStep(ops[0], hist)))
  }

  lemma {:induction false} HistConcat(a: seq<Op>, b: seq<Op>, hist: Batches)
    ensures HistAfter(a + b, hist) == HistAfter(b, HistAfter(a, hist))
    ensures AllFresh(a + b, hist) <==> AllFresh(a, hist) && AllFresh(b, HistAfter(a, hist))
    decreases |a|
  {
    hide HistStep, Fresh;
    if a == [] {
      assert a + b == b;
    } else {
      assert (a + b)[1..] == a[1..] + b;
      HistConcat(a[1..], b, HistStep(a[0], hist));
    }
  }

  lemma FreshPrefix(ops: seq<Op>, k: nat, hist: Batches)
    requires AllFresh(ops, hist) && k <= |ops|
    ensures AllFresh(ops[..k], hist)
  {
    hide AllFresh, HistAfter;
    assert ops == ops[..k] + ops[k..];
    HistConcat(ops[..k], ops[k..], hist);
  }

  // ---- the writes keep the tables to it

  ghost predicate Kept(db: Db, hist: Batches) {
    Recorded(db, hist) && Gapless(db.epochs)
  }

  lemma CutStepHolds(op: Op, w: World, hist: Batches)
    requires op.CutEpoch? && Kept(w.db, hist)
    ensures Kept(Apply(op, w).db, hist + [map[]])
  {
    CutKeeps(w.db.epochs, EpochRow(w.db.clock + 1, op.source, None, op.added, op.changed, op.removed));
    RecordedSnoc(w.db.facts, hist);
    hide AllFromBatches, AllVersioned, Gapless, NextNumber;
  }

  lemma AppendStepHolds(op: Op, w: World, hist: Batches)
    requires op.AppendFact? && Kept(w.db, hist) && Fresh(op, hist)
    ensures Kept(Apply(op, w).db, HistStep(op, hist))
  {
    var n := |hist| - 1;
    var init, batch := hist[..n], hist[n];
    var f := Fact(op.c.id, op.c.content.kind, op.c.content.title, op.c.content.sha, op.c.epoch, op.validFrom, None, w.db.clock + 2, None);
    var closed := CloseOpen(w.db.facts, op.c.id, op.validFrom, w.db.clock + 1);
    CloseOpenIs(w.db.facts, op.c.id, op.validFrom, w.db.clock + 1);
    var after := Apply(op, w).db;
    assert after.facts == closed + [f] && after.epochs == w.db.epochs;
    assert hist == init + [batch];
    assert HistStep(op, hist) == init + [batch[f.id := f.sha]];
    hide CloseOpen, RecordFact, AllFromBatches, AllVersioned, NextNumber, SameVersions, Gapless, Apply;
    FromBatchesStep(w.db.facts, closed, f, init, batch);
    VersionedStep(w.db.facts, closed, f, init, batch);
  }

  lemma OtherStepHolds(op: Op, w: World, hist: Batches)
    requires !op.CutEpoch? && !op.AppendFact? && !op.Truncate? && Kept(w.db, hist)
    ensures Kept(Apply(op, w).db, hist)
  {
    hide Prune, Upsert, RecordFact, NextNumber, AllFromBatches, AllVersioned;
    var after := Apply(op, w).db;
    assert after.facts == w.db.facts && after.epochs.Keys == w.db.epochs.Keys;
    NextNumberSame(w.db.epochs, after.epochs);
    hide Apply;
  }

  lemma TruncateHolds(w: World)
    ensures Kept(Apply(Truncate, w).db, [])
  {
  }

  lemma {:induction false} FreshHoldsAll(ops: seq<Op>, w: World, hist: Batches)
    requires Kept(w.db, hist) && AllFresh(ops, hist)
    ensures Kept(ApplyAll(ops, w).db, HistAfter(ops, hist))
    decreases |ops|
  {
    hide Kept, Apply, Fresh;
    if ops != [] {
      match ops[0] {
        case Truncate => TruncateHolds(w);
        case CutEpoch(_, _, _, _) => CutStepHolds(ops[0], w, hist);
        case AppendFact(_, _) => AppendStepHolds(ops[0], w, hist);
        case _ => OtherStepHolds(ops[0], w, hist);
      }
      hide HistStep;
      FreshHoldsAll(ops[1..], Apply(ops[0], w), HistStep(ops[0], hist));
    }
  }

  // ---- the plans of calls with distinct ids record afresh

  lemma ConceptFresh(env: Env, c: Concept, at: int, hist: Batches)
    requires hist != [] && c.epoch == |hist| - 1 && c.id !in hist[|hist| - 1]
    ensures AllFresh(ConceptOps(env, c, at), hist)
    ensures HistAfter(ConceptOps(env, c, at), hist) == hist[|hist| - 1 := hist[|hist| - 1][c.id := c.content.sha]]
  {
    var ops := ConceptOps(env, c, at);
    var four, last := ops[..4], ops[4];
    assert ops == four + [last] && last == AppendFact(c, at);
    assert forall i :: 0 <= i < 4 ==> RecordsNothing(four[i]);
    hide ConceptOps, RecordsNothing;
    PlainFresh(four, hist);
    LastFresh(last, hist);
    hide AllFresh, HistAfter;
    HistConcat(four, [last], hist);
  }

  lemma LastFresh(op: Op, hist: Batches)
    requires Fresh(op, hist)
    ensures AllFresh([op], hist) && HistAfter([op], hist) == HistStep(op, hist)
  {
    hide Fresh, HistStep;
    assert [op][1..] == [];
  }

  predicate RecordsNothing(op: Op) {
    !op.Truncate? && !op.CutEpoch? && !op.AppendFact?
  }

  lemma {:induction false} BatchFresh(env: Env, cs: seq<Concept>, at: int, hist: Batches)
    requires hist != [] && DistinctIds(cs)
    requires forall i :: 0 <= i < |cs| ==> cs[i].epoch == |hist| - 1 && cs[i].id !in hist[|hist| - 1]
    ensures AllFresh(BatchOps(env, cs, at), hist)
    ensures |HistAfter(BatchOps(env, cs, at), hist)| == |hist|
    decreases |cs|
  {
    hide ConceptOps, AllFresh, HistAfter;
    if cs == [] {
      NothingFresh(hist);
    } else {
      var n := |hist| - 1;
      var next := hist[n := hist[n][cs[0].id := cs[0].content.sha]];
      ConceptFresh(env, cs[0], at, hist);
      forall i | 0 <= i < |cs[1..]| ensures cs[1..][i].epoch == n && cs[1..][i].id !in next[n] {
        assert cs[1..][i] == cs[i + 1] && cs[0].id != cs[i + 1].id;
      }
      assert DistinctIds(cs[1..]);
      BatchFresh(env, cs[1..], at, next);
      HistConcat(ConceptOps(env, cs[0], at), BatchOps(env, cs[1..], at), hist);
    }
  }

  lemma NothingFresh(hist: Batches)
    ensures AllFresh([], hist) && HistAfter([], hist) == hist
  {
  }

  lemma {:induction false} PlainFresh(ops: seq<Op>, hist: Batches)
    requires forall i :: 0 <= i < |ops| ==> RecordsNothing(ops[i])
    ensures AllFresh(ops, hist) && HistAfter(ops, hist) == hist
    decreases |ops|
  {
    if ops != [] {
      assert RecordsNothing(ops[0]);
      assert forall i :: 0 <= i < |ops[1..]| ==> ops[1..][i] == ops[i + 1];
      PlainFresh(ops[1..], hist);
    }
  }

  lemma ClosingPlain(op: Op)
    ensures Closing(op) ==> RecordsNothing(op)
  {
  }

  lemma CutFresh(cut: Op, hist: Batches)
    requires cut.CutEpoch?
    ensures AllFresh([cut], hist) && HistAfter([cut], hist) == hist + [map[]]
  {
    assert [cut][1..] == [];
  }

  lemma ComposedFresh(env: Env, plan: seq<Op>, cut: Op, rs: seq<Concept>, rest: seq<Op>, w: World, hist: Batches)
    requires CutsAndWrites(env, plan, cut, rs, rest, w) && DistinctIds(rs) && |hist| == NextNumber(w.db.epochs)
    ensures AllFresh(plan, hist)
  {
    hide AllFresh, HistAfter, BatchOps, NextNumber, Closing, DistinctIds;
    var batch := BatchOps(env, rs, w.db.clock + 1);
    var started := hist + [map[]];
    CutFresh(cut, hist);
    BatchFresh(env, rs, w.db.clock + 1, started);
    forall i | 0 <= i < |rest| ensures RecordsNothing(rest[i]) {
      ClosingPlain(rest[i]);
    }
    PlainFresh(rest, HistAfter(batch, started));
    HistConcat(batch, rest, started);
    HistConcat([cut], batch + rest, hist);
  }

  /** A call whose concepts have distinct ids, as gathered concepts and files have. */
  ghost predicate Lawful(call: Call) {
    !call.Reindex? ==> DistinctIds(call.concepts)
  }

  lemma PlanFresh(env: Env, call: Call, sweep: seq<Id>, w: World, hist: Batches)
    requires Plan(env, call, sweep, w).Some? && ListingsOk(call, sweep, w) && Lawful(call)
    requires |hist| == NextNumber(w.db.epochs)
    ensures AllFresh(Plan(env, call, sweep, w).value, hist)
  {
    match call {
      case Run(cs, source) =>
        StampedDistinct(env, cs, NextNumber(w.db.epochs), w.db.clock + 1);
        var cut, rs, rest := RunComposed(env, cs, source, sweep, w);
        hide Plan, CutsAndWrites, AllFresh, NextNumber, DistinctIds, StampedAll;
        ComposedFresh(env, Plan(env, call, sweep, w).value, cut, rs, rest, w, hist);
      case UpsertBatch(cs, source) =>
        if cs == [] {
          assert Plan(env, call, sweep, w).value == [];
          hide Plan;
        } else {
          StampedDistinct(env, cs, NextNumber(w.db.epochs), w.db.clock + 1);
          var cut, rs, rest := UpsertComposed(env, cs, source, sweep, w);
          hide Plan, CutsAndWrites, AllFresh, NextNumber, DistinctIds, StampedAll;
          ComposedFresh(env, Plan(env, call, sweep, w).value, cut, rs, rest, w, hist);
        }
      case Reindex(listing) =>
        ReindexFresh(env, listing, sweep, w, hist);
    }
  }

  lemma ReindexFresh(env: Env, listing: seq<Id>, sweep: seq<Id>, w: World, hist: Batches)
    requires Plan(env, Reindex(listing), sweep, w).Some? && ListingsOk(Reindex(listing), sweep, w)
    ensures AllFresh(Plan(env, Reindex(listing), sweep, w).value, hist)
  {
    ReindexFailsIffUnreadable(env, listing, sweep, w);
    var cs := ReadConcepts(env, w.bundle, listing);
    assert DistinctIds(Renumbered(cs, 0));
    assert NextNumber(Apply(Truncate, w).db.epochs) == 0;
    hide Plan, AllFresh, HistAfter, BatchOps, Apply, ReadFiles, NextNumber, Renumbered, AreFiles, DistinctIds, CutsAndWrites, Listed;
    var plan := Plan(env, Reindex(listing), sweep, w).value;
    var cut, rs, rest := ReindexComposed(env, listing, sweep, w);
    ComposedFresh(env, plan[1..], cut, rs, rest, Apply(Truncate, w), []);
    TruncateFresh(hist);
    assert plan == [Truncate] + plan[1..];
    HistConcat([Truncate], plan[1..], hist);
  }

  lemma TruncateFresh(hist: Batches)
    ensures AllFresh([Truncate], hist) && HistAfter([Truncate], hist) == []
  {
    assert [Truncate][1..] == [];
  }

  // ---- every reachable state

  ghost predicate AllLawful(s: State) {
    && (forall i :: 0 <= i < |s.past| ==> Lawful(s.past[i].call))
    && forall t :: t in s.threads && s.threads[t].Holding? ==> Lawful(s.threads[t].call)
  }

  lemma WrittenKept(env: Env, d: Done, w: World, hist: Batches)
    requires Kept(w.db, hist) && Lawful(d.call) && ListingsOk(d.call, d.sweep, w)
    ensures Kept(ApplyAll(Written(env, d, w), w).db, HistAfter(Written(env, d, w), hist))
  {
    assert |hist| == NextNumber(w.db.epochs);
    hide Plan, Kept, ApplyAll, HistAfter, AllFresh, Lawful, ListingsOk, NextNumber;
    var ops := Written(env, d, w);
    if Plan(env, d.call, d.sweep, w).Some? && d.steps <= |Plan(env, d.call, d.sweep, w).value| {
      PlanFresh(env, d.call, d.sweep, w, hist);
      FreshPrefix(Plan(env, d.call, d.sweep, w).value, d.steps, hist);
    } else {
      NothingFresh(hist);
    }
    FreshHoldsAll(ops, w, hist);
  }

  lemma {:induction false} PastKept(env: Env, past: seq<Done>, w: World, hist: Batches)
    requires Kept(w.db, hist) && AllFit(env, past, w) && forall i :: 0 <= i < |past| ==> Lawful(past[i].call)
    ensures Kept(Serial(env, past, w).db, HistAfter(PastLog(env, past, w), hist))
    decreases |past|
  {
    hide Kept, Effect, Written, HistStep, Lawful, Fits;
    if past != [] {
      var n := |past| - 1;
      var before := Serial(env, past[..n], w);
      InitFits(env, past, w);
      PastKept(env, past[..n], w, hist);
      assert Fits(env, past[n], before);
      FitsListings(env, past[n], before);
      hide HistAfter, ApplyAll;
      var so := HistAfter(PastLog(env, past[..n], w), hist);
      WrittenKept(env, past[n], before, so);
      WrittenIsEffect(env, past[n], before);
      HistConcat(PastLog(env, past[..n], w), Written(env, past[n], before), hist);
    }
  }

  lemma FitsListings(env: Env, d: Done, w: World)
    requires Fits(env, d, w)
    ensures ListingsOk(d.call, d.sweep, w)
  {
    hide ListingsOk, Plan, ResultOf;
  }

  /** The history of the writes up to a state. */
  ghost function HistoryAt(env: Env, run: seq<State>, i: nat, hist: Batches): Batches
    requires i < |run|
  {
    HistAfter(Log(env, run[i], run[0].world), hist)
  }

  /** In every reachable state, calls failing anywhere, Reindexes included, the versions are the
      history that the writes have made. */
  lemma HistoryEverywhere(env: Env, run: seq<State>, i: nat, hist: Batches)
    requires Behaviour(env, run) && i < |run| && AllLawful(run[i])
    requires DbInv(run[0].world.db) && Recorded(run[0].world.db, hist)
    ensures Recorded(run[i].world.db, HistoryAt(env, run, i, hist))
  {
    var s, w := run[i], run[0].world;
    Serializable(env, run, i);
    assert Kept(w.db, hist);
    hide Serial, AllFit, PastLog, ApplyAll, Plan, ListingsOk, ResultOf, Next, Init, Recorded, Kept, HistAfter, AllFresh, Lawful, Gapless,
      NextNumber;
    PastKept(env, s.past, w, hist);
    var so := HistAfter(PastLog(env, s.past, w), hist);
    HistConcat(PastLog(env, s.past, w), FlightLog(s), hist);
    var before := Serial(env, s.past, w);
    KeptIs(before.db, so);
    if s.mutex.Some? {
      var h := s.threads[s.mutex.value];
      PlanFresh(env, h.call, h.sweep, before, so);
      FreshPrefix(h.plan, h.pc, so);
      FreshHoldsAll(h.plan[..h.pc], before, so);
    } else {
      NothingFresh(so);
    }
    KeptIs(s.world.db, HistAfter(Log(env, s, w), hist));
  }

  lemma KeptIs(db: Db, hist: Batches)
    ensures Kept(db, hist) ==> Recorded(db, hist) && |hist| == NextNumber(db.epochs)
  {
    hide AllFromBatches, AllVersioned, Gapless, NextNumber;
  }

  /** What the view as of an epoch shows in any reachable state: the overwrite of what the
      epochs up to it recorded, half-written epochs by what they recorded. */
  lemma ViewsEverywhere(env: Env, run: seq<State>, i: nat, hist: Batches, n: int, m: map<Id, Fact>)
    requires Behaviour(env, run) && i < |run| && AllLawful(run[i])
    requires DbInv(run[0].world.db) && Recorded(run[0].world.db, hist)
    requires IsAsOf(run[i].world.db, n, m)
    ensures
      var now := HistoryAt(env, run, i, hist);
      Shas(m) == Overwritten(now, UpTo(now, n))
  {
    HistoryEverywhere(env, run, i, hist);
    TablesAlwaysInOrder(env, run, i);
    KnownOf(run[i].world.db);
    hide HistoryAt, Recorded, DbInv, Known, IsAsOf, Behaviour, AllLawful, Shas, Overwritten, UpTo;
    AsOfIsOverwrite(run[i].world.db, HistoryAt(env, run, i, hist), n, m);
  }

  lemma KnownOf(db: Db)
    requires DbInv(db)
    ensures Known(db.facts, db.concept)
  {
    hide Known, NextNumber;
  }

  // ---- Diff reads twice, without the mutex

  /** Without a Reindex among them, writes keep all epochs but the newest as they are. */
  lemma {:induction false} OlderKept(ops: seq<Op>, hist: Batches, e: nat)
    requires forall k :: 0 <= k < |ops| ==> !ops[k].Truncate?
    requires e + 1 < |hist|
    ensures |hist| <= |HistAfter(ops, hist)| && HistAfter(ops, hist)[e] == hist[e]
    decreases |ops|
  {
    if ops != [] {
      assert !ops[0].Truncate?;
      assert forall k :: 0 <= k < |ops[1..]| ==> ops[1..][k] == ops[k + 1];
      OlderKept(ops[1..], HistStep(ops[0], hist), e);
    }
  }

  lemma {:induction false} SameOverwrite(a: Batches, b: Batches, k: nat)
    requires k <= |a| && k <= |b| && forall e :: 0 <= e < k ==> a[e] == b[e]
    ensures Overwritten(a, k) == Overwritten(b, k)
  {
    if k > 0 {
      SameOverwrite(a, b, k - 1);
    }
  }

  /** The log of a later state is that of an earlier one and some more. */
  lemma OlderViewsKept(env: Env, run: seq<State>, i: nat, j: nat, hist: Batches, n: int)
    requires Behaviour(env, run) && i <= j < |run| && NoReindexSince(env, run, i, j)
    requires n < |HistoryAt(env, run, i, hist)| - 1
    ensures
      var then_, now := HistoryAt(env, run, i, hist), HistoryAt(env, run, j, hist);
      Overwritten(then_, UpTo(then_, n)) == Overwritten(now, UpTo(now, n))
  {
    hide Behaviour, Log, Overwritten, HistAfter, UpTo;
    LogGrows(env, run, i, j);
    var a, b := Log(env, run[i], run[0].world), Log(env, run[j], run[0].world);
    var more := b[|a|..];
    assert b == a + more;
    assert forall k :: 0 <= k < |more| ==> more[k] == b[|a| + k];
    HistConcat(a, more, hist);
    OlderOverwrites(more, HistAfter(a, hist), n);
  }

  lemma OlderOverwrites(ops: seq<Op>, hist: Batches, n: int)
    requires forall k :: 0 <= k < |ops| ==> !ops[k].Truncate?
    requires n < |hist| - 1
    ensures Overwritten(hist, UpTo(hist, n)) == Overwritten(HistAfter(ops, hist), UpTo(HistAfter(ops, hist), n))
  {
    hide HistAfter, Overwritten;
    var now := HistAfter(ops, hist);
    if n < 0 {
      SameOverwrite(hist, now, 0);
    } else {
      OlderKept(ops, hist, n);
      forall e | 0 <= e <= n ensures now[e] == hist[e] {
        OlderKept(ops, hist, e);
      }
      SameOverwrite(hist, now, n + 1);
    }
  }

  /** No Reindex has emptied the tables between the two states. */
  ghost predicate NoReindexSince(env: Env, run: seq<State>, i: nat, j: nat)
    requires i <= j < |run|
  {
    var from, log := |Log(env, run[i], run[0].world)|, Log(env, run[j], run[0].world);
    forall k :: from <= k < |log| ==> !log[k].Truncate?
  }

  /** Diff of two epochs older than the newest at their reads, with no Reindex from the first
      read on: whatever was written between the reads and afterwards, it shows the difference
      of the two overwrites, as any later state has them. */
  lemma DiffWithoutMutex(env: Env, run: seq<State>, i: nat, j: nat, l: nat, hist: Batches, n: int, m: int,
                         a: map<Id, Fact>, b: map<Id, Fact>)
    requires Behaviour(env, run) && i <= j <= l < |run| && AllLawful(run[i]) && AllLawful(run[j])
    requires DbInv(run[0].world.db) && Recorded(run[0].world.db, hist)
    requires NoReindexSince(env, run, i, l) && NoReindexSince(env, run, j, l)
    requires n < |HistoryAt(env, run, i, hist)| - 1 && m < |HistoryAt(env, run, j, hist)| - 1
    requires IsAsOf(run[i].world.db, n, a) && IsAsOf(run[j].world.db, m, b)
    ensures
      var now := HistoryAt(env, run, l, hist);
      DiffSets(Shas(a), Shas(b)) == DiffSets(Overwritten(now, UpTo(now, n)), Overwritten(now, UpTo(now, m)))
  {
    hide Behaviour, AllLawful, DbInv, Recorded, NoReindexSince, HistoryAt, IsAsOf, Shas, Overwritten, UpTo, DiffSets;
    ViewsEverywhere(env, run, i, hist, n, a);
    ViewsEverywhere(env, run, j, hist, m, b);
    OlderViewsKept(env, run, i, l, hist, n);
    OlderViewsKept(env, run, j, l, hist, m);
  }

  /** The query has this one answer. */
  ghost predicate OnlyView(db: Db, n: int, m: map<Id, Fact>) {
    forall a :: IsAsOf(db, n, a) <==> a == m
  }

  /** Not so for the epoch in progress: a Diff of epoch 0 with itself that reads before and after
      the first version is recorded shows a concept as added. */
  lemma DiffOfRunningEpoch(env: Env, w: World, c: Concept, source: string)
    returns (run: seq<State>, i: nat, j: nat, a: map<Id, Fact>, b: map<Id, Fact>)
    requires Blank(w.db) && w.db.epochs == map[]
    ensures Behaviour(env, run) && run[0].world == w && i < j < |run| && run[i].mutex == Some(0) && run[j].mutex == Some(0)
    ensures OnlyView(run[i].world.db, 0, a) && OnlyView(run[j].world.db, 0, b)
    ensures DiffSets(Shas(a), Shas(b)).added == {c.id}
  {
    var call := UpsertBatch([c], source);
    var plan, f := SixWrites(env, w, c, source);
    assert ListingsOk(call, [], w);
    hide Plan, ApplyAll, Behaviour, ListingsOk, Blank, OnlyView, DiffSets;
    run := StopReachable(env, w, call, [], 6);
    i, j, a, b := 3, 8, map[], map[f.id := f];
    assert run[3].world == ApplyAll(plan[..1], w) && run[8].world == ApplyAll(plan[..6], w);
    NothingSeen(run[3].world.db);
    OneSeen(run[8].world.db, f);
    OneAdded(f);
  }

  lemma OneAdded(f: Fact)
    ensures DiffSets(Shas(map[]), Shas(map[f.id := f])).added == {f.id}
  {
  }

  lemma NothingSeen(db: Db)
    requires db.facts == []
    ensures OnlyView(db, 0, map[])
  {
    forall a | IsAsOf(db, 0, a) ensures a == map[] {
      assert forall id :: id !in a;
    }
  }

  lemma OneSeen(db: Db, f: Fact)
    requires db.facts == [f] && f.epoch == 0 && f.id in db.concept
    ensures OnlyView(db, 0, map[f.id := f])
  {
    assert Eligible(db.facts[0], f.id, 0);
    assert LatestAt(db.facts, f.id, 0, f);
    assert IsAsOf(db, 0, map[f.id := f]);
    forall b | IsAsOf(db, 0, b) ensures b == map[f.id := f] {
      assert f.id in b;
      assert forall id :: id in b ==> id == f.id;
    }
  }

  lemma SixWrites(env: Env, w: World, c: Concept, source: string) returns (plan: seq<Op>, f: Fact)
    requires Blank(w.db) && w.db.epochs == map[]
    ensures Plan(env, UpsertBatch([c], source), [], w) == Some(plan) && |plan| >= 6
    ensures ApplyAll(plan[..1], w).db.facts == []
    ensures ApplyAll(plan[..6], w).db.facts == [f] && f.id == c.id && f.epoch == 0
    ensures c.id in ApplyAll(plan[..6], w).db.concept
  {
    var at := w.db.clock + 1;
    assert NextNumber(w.db.epochs) == 0;
    plan := Plan(env, UpsertBatch([c], source), [], w).value;
    var r := StampedAll(env, [c], 0, at)[0];
    assert StampedAll(env, [c], 0, at) == [r];
    assert BatchOps(env, [r], at) == ConceptOps(env, r, at) + BatchOps(env, [r][1..], at);
    assert plan[..1] == [plan[0]];
    assert plan[..6] == [plan[0]] + ConceptOps(env, r, at);
    var cut := plan[0];
    assert cut.CutEpoch? && r.id == c.id && r.epoch == 0;
    hide Plan, BatchOps, StampedAll, NextNumber, TextOf, ConceptOps;
    ApplyOne(cut, w);
    var w1 := Apply(cut, w);
    assert w1.db.facts == [] && w1.db.concept == map[];
    ApplyConcat([cut], ConceptOps(env, r, at), w);
    ConceptOpsApply(env, r, at, w1);
    f := FirstVersion(env, r, at, w1);
  }

  lemma FirstVersion(env: Env, c: Concept, at: int, w: World) returns (f: Fact)
    requires w.db.facts == []
    ensures ApplyConcept(env, c, at, w).db.facts == [f] && f.id == c.id && f.epoch == c.epoch && f.validFrom == at && IsOpen(f)
    ensures c.id in ApplyConcept(env, c, at, w).db.concept
  {
    f := Fact(c.id, c.content.kind, c.content.title, c.content.sha, c.epoch, at, None, w.db.clock + 2, None);
    assert CloseOpen(w.db.facts, c.id, at, w.db.clock + 1) == [];
  }
}
