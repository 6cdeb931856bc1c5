/** What every write of every call keeps: epochs without gaps, transaction windows that
    do not overlap, and a current version for every current concept. */
module EpochInvariants {
  import opened Wrappers
  import opened EpochModel
  import opened EpochRecovery

  // ---- the invariant of the tables

  ghost predicate Gapless(epochs: map<int, EpochRow>) {
    forall e :: e in epochs <==> 0 <= e < NextNumber(epochs)
  }

  /** A window that is not empty and lies in the past of the clock. */
  predicate WindowOk(f: Fact, clock: int) {
    && f.txFrom <= clock && f.validFrom <= clock
    && (f.txTo.Some? <==> f.validTo.Some?)
    && (f.txTo.Some? ==> f.txFrom < f.txTo.value <= clock)
    && (f.validTo.Some? ==> f.validFrom <= f.validTo.value <= clock)
  }

  /** `g` was recorded after `f`: when both are of one concept, the window of `f` is
      closed and ends no later than that of `g` begins. */
  predicate Precedes(f: Fact, g: Fact) {
    f.id == g.id ==>
      && f.txTo.Some? && f.txTo.value <= g.txFrom
      && f.validTo.Some? && f.validTo.value <= g.validFrom
      && f.epoch <= g.epoch
  }

  ghost predicate Chained(facts: seq<Fact>) {
    forall i, j :: 0 <= i < j < |facts| ==> Precedes(facts[i], facts[j])
  }

  ghost predicate WindowsOk(facts: seq<Fact>, clock: int) {
    forall i :: 0 <= i < |facts| ==> WindowOk(facts[i], clock)
  }

  ghost predicate Numbered(facts: seq<Fact>, next: int) {
    forall i :: 0 <= i < |facts| ==> 0 <= facts[i].epoch < next
  }

  ghost predicate Known(facts: seq<Fact>, concept: map<Id, ConceptRow>) {
    forall i :: 0 <= i < |facts| ==> facts[i].id in concept
  }

  ghost predicate DbInv(db: Db) {
    && Gapless(db.epochs)
    && WindowsOk(db.facts, db.clock)
    && Chained(db.facts)
    && Numbered(db.facts, NextNumber(db.epochs))
    && Known(db.facts, db.concept)
  }

  /** Transaction windows, as half-open intervals of clock readings. */
  predicate InWindow(f: Fact, t: int) {
    f.txFrom <= t && (f.txTo.Some? ==> t < f.txTo.value)
  }

  /** What the exclusion constraint of the table asks for: at no instant do two
      versions of one concept count, and at most one is open. */
  lemma WindowsDisjoint(db: Db, i: nat, j: nat, t: int)
    requires DbInv(db) && i < |db.facts| && j < |db.facts| && db.facts[i].id == db.facts[j].id
    ensures InWindow(db.facts[i], t) && InWindow(db.facts[j], t) ==> i == j
    ensures IsOpen(db.facts[i]) && IsOpen(db.facts[j]) ==> i == j
  {
    if i < j {
      assert Precedes(db.facts[i], db.facts[j]);
    } else if j < i {
      assert Precedes(db.facts[j], db.facts[i]);
    }
  }

  // ---- the epoch numbers

  lemma NextNumberIs(epochs: map<int, EpochRow>, n: int)
    requires epochs != map[] && n - 1 in epochs && forall e :: e in epochs ==> e < n
    ensures NextNumber(epochs) == n
  {
  }

  lemma NextNumberSame(a: map<int, EpochRow>, b: map<int, EpochRow>)
    requires a.Keys == b.Keys
    ensures NextNumber(a) == NextNumber(b)
  {
    assert a == map[] <==> b == map[] by {
      assert a == map[] <==> a.Keys == {};
      assert b == map[] <==> b.Keys == {};
    }
    if a != map[] {
      NextNumberIs(b, NextNumber(a));
    }
  }

  lemma CutKeeps(epochs: map<int, EpochRow>, row: EpochRow)
    requires Gapless(epochs)
    ensures
      var n := NextNumber(epochs);
      0 <= n && Gapless(epochs[n := row]) && NextNumber(epochs[n := row]) == n + 1
  {
    var n := NextNumber(epochs);
    if epochs != map[] {
      assert n - 1 in epochs;
    }
    var after := epochs[n := row];
    assert n in after;
    NextNumberIs(after, n + 1);
  }

  // ---- recording a version

  /** No valid time later than `at` has been written. */
  ghost predicate Before(facts: seq<Fact>, at: int) {
    forall i :: 0 <= i < |facts| ==>
      facts[i].validFrom <= at && (facts[i].validTo.Some? ==> facts[i].validTo.value <= at)
  }

  predicate EndedBy(f: Fact, tx: int, valid: int) {
    f.txTo.Some? && f.txTo.value <= tx && f.validTo.Some? && f.validTo.value <= valid
  }

  ghost predicate AllEnded(facts: seq<Fact>, id: Id, tx: int, valid: int) {
    forall i :: 0 <= i < |facts| && facts[i].id == id ==> EndedBy(facts[i], tx, valid)
  }

  predicate SameVersion(f: Fact, g: Fact) {
    f.id == g.id && f.epoch == g.epoch && f.sha == g.sha && f.kind == g.kind && f.title == g.title
  }

  ghost predicate SameVersions(a: seq<Fact>, b: seq<Fact>) {
    |a| == |b| && forall i :: 0 <= i < |a| ==> SameVersion(a[i], b[i])
  }

  function Closed(f: Fact, id: Id, at: int, now: int): Fact {
    if f.id == id && IsOpen(f) then f.(validTo := Some(at), txTo := Some(now)) else f
  }

  lemma CloseOpenIs(facts: seq<Fact>, id: Id, at: int, now: int)
    ensures forall i :: 0 <= i < |facts| ==> CloseOpen(facts, id, at, now)[i] == Closed(facts[i], id, at, now)
    ensures SameVersions(CloseOpen(facts, id, at, now), facts)
  {
  }

  lemma CloseOpenKeeps(facts: seq<Fact>, id: Id, at: int, clock: int)
    requires WindowsOk(facts, clock) && Chained(facts) && Before(facts, at) && at <= clock
    ensures
      var closed := CloseOpen(facts, id, at, clock + 1);
      && WindowsOk(closed, clock + 1) && Chained(closed) && Before(closed, at)
      && SameVersions(closed, facts) && AllEnded(closed, id, clock + 1, at)
  {
    var closed := CloseOpen(facts, id, at, clock + 1);
    CloseOpenIs(facts, id, at, clock + 1);
    hide CloseOpen, SameVersions;
    forall i, j | 0 <= i < j < |closed| ensures Precedes(closed[i], closed[j]) {
      assert Precedes(facts[i], facts[j]);
    }
  }

  ghost predicate CanRecord(db: Db, c: Concept, at: int) {
    && c.id in db.concept && 0 <= c.epoch == NextNumber(db.epochs) - 1
    && at <= db.clock && Before(db.facts, at)
  }

  lemma RecordKeeps(db: Db, c: Concept, at: int)
    requires DbInv(db) && CanRecord(db, c, at)
    ensures DbInv(RecordFact(db, c, at)) && Before(RecordFact(db, c, at).facts, at)
  {
    CloseOpenKeeps(db.facts, c.id, at, db.clock);
    var closed := CloseOpen(db.facts, c.id, at, db.clock + 1);
    hide CloseOpen, Gapless;
    AppendKeeps(db, closed, Fact(c.id, c.content.kind, c.content.title, c.content.sha, c.epoch, at, None, db.clock + 2, None), at);
  }

  lemma AppendKeeps(db: Db, closed: seq<Fact>, f: Fact, at: int)
    requires WindowsOk(closed, db.clock + 1) && Chained(closed) && Before(closed, at)
    requires SameVersions(closed, db.facts) && AllEnded(closed, f.id, db.clock + 1, at)
    requires Numbered(db.facts, NextNumber(db.epochs)) && Known(db.facts, db.concept) && at <= db.clock
    requires 0 <= f.epoch == NextNumber(db.epochs) - 1 && f.id in db.concept
    requires f.validFrom == at && f.txFrom == db.clock + 2 && f.validTo == None && f.txTo == None
    ensures WindowsOk(closed + [f], db.clock + 2) && Chained(closed + [f]) && Before(closed + [f], at)
    ensures Numbered(closed + [f], NextNumber(db.epochs)) && Known(closed + [f], db.concept)
  {
    forall i | 0 <= i < |closed| ensures Precedes(closed[i], f) {
      if closed[i].id == f.id {
        assert EndedBy(closed[i], db.clock + 1, at);
      }
    }
    ChainedSnoc(closed, f);
    hide Chained, Precedes, AllEnded;
  }

  lemma ChainedSnoc(facts: seq<Fact>, f: Fact)
    requires Chained(facts) && forall i :: 0 <= i < |facts| ==> Precedes(facts[i], f)
    ensures Chained(facts + [f])
  {
    hide Precedes;
  }

  // ---- one write

  /** What a write needs of the state it happens in to keep the invariant. */
  ghost predicate StepOk(op: Op, w: World) {
    op.AppendFact? ==> CanRecord(w.db, op.c, op.validFrom)
  }

  lemma StepKeeps(op: Op, w: World)
    requires DbInv(w.db) && StepOk(op, w)
    ensures DbInv(Apply(op, w).db)
  {
    match op {
      case AppendFact(c, at) =>
        RecordKeeps(w.db, c, at);
      case CutEpoch(source, a, ch, r) =>
        hide DbInv;
        CutStep(w.db, EpochRow(w.db.clock + 1, source, None, a, ch, r));
      case StampCommit(n, commit) =>
        if n in w.db.epochs {
          StampStep(w.db, n, w.db.epochs[n].(commit := Some(commit)));
        }
      case Truncate =>
      case UpsertRow(c) =>
        hide Chained, WindowsOk, Numbered, Gapless;
      case _ =>
        hide Prune, Gapless, Chained, WindowsOk, Numbered, Known;
    }
  }

  lemma CutStep(db: Db, row: EpochRow)
    requires DbInv(db)
    ensures DbInv(db.(epochs := db.epochs[NextNumber(db.epochs) := row], clock := db.clock + 1))
  {
    CutKeeps(db.epochs, row);
    hide Gapless, NextNumber, Chained;
  }

  lemma StampStep(db: Db, n: int, row: EpochRow)
    requires DbInv(db) && n in db.epochs
    ensures DbInv(db.(epochs := db.epochs[n := row]))
  {
    var after := db.epochs[n := row];
    assert after.Keys == db.epochs.Keys;
    NextNumberSame(db.epochs, after);
    hide Chained, NextNumber, WindowsOk, Known, Numbered;
  }

  // ---- a list of writes

  ghost predicate AllOk(ops: seq<Op>, w: World)
    decreases |ops|
  {
    ops == [] || (StepOk(ops[0], w) && AllOk(ops[1..], Apply(ops[0], w)))
  }

  lemma {:induction false} PrefixKeeps(ops: seq<Op>, w: World, k: nat)
    requires DbInv(w.db) && AllOk(ops, w) && k <= |ops|
    ensures DbInv(ApplyAll(ops[..k], w).db)
    decreases k
  {
    if k > 0 {
      StepKeeps(ops[0], w);
      hide DbInv, StepOk, Apply;
      PrefixKeeps(ops[1..], Apply(ops[0], w), k - 1);
      assert ops[..k][1..] == ops[1..][..k - 1];
    }
  }

  lemma {:induction false} AllOkConcat(a: seq<Op>, b: seq<Op>, w: World)
    requires AllOk(a, w) && AllOk(b, ApplyAll(a, w))
    ensures AllOk(a + b, w)
    decreases |a|
  {
    hide StepOk, Apply;
    if a == [] {
      assert a + b == b;
    } else {
      assert (a + b)[1..] == a[1..] + b;
      AllOkConcat(a[1..], b, Apply(a[0], w));
    }
  }

  lemma {:induction false} NoRecordOk(ops: seq<Op>, w: World)
    requires forall i :: 0 <= i < |ops| ==> !ops[i].AppendFact?
    ensures AllOk(ops, w)
    decreases |ops|
  {
    hide Apply;
    if ops != [] {
      assert forall i :: 0 <= i < |ops[1..]| ==> ops[1..][i] == ops[i + 1];
      NoRecordOk(ops[1..], Apply(ops[0], w));
    }
  }

  // ---- a batch

  /** The state while a batch of epoch `n`, cut at `at`, is written. */
  ghost predicate Writing(db: Db, n: int, at: int) {
    DbInv(db) && NextNumber(db.epochs) == n + 1 && 0 <= n && at <= db.clock && Before(db.facts, at)
  }

  lemma ConceptOk(env: Env, c: Concept, at: int, w: World)
    requires Writing(w.db, c.epoch, at)
    ensures AllOk(ConceptOps(env, c, at), w)
    ensures Writing(ApplyConcept(env, c, at, w).db, c.epoch, at)
  {
    var ops := ConceptOps(env, c, at);
    var w4 := BeforeFact(env, c, at, w);
    hide Apply, ApplyConcept, ConceptOps, TextOf;
    assert ops == ops[..4] + [ops[4]];
    NoRecordOk(ops[..4], w);
    assert AllOk([ops[4]], w4) by {
      assert StepOk(ops[4], w4);
    }
    AllOkConcat(ops[..4], [ops[4]], w);
    RecordKeeps(w4.db, c, at);
    hide DbInv, CanRecord;
    RecordSame(w4.db, c, at);
  }

  lemma RecordSame(db: Db, c: Concept, at: int)
    ensures RecordFact(db, c, at).epochs == db.epochs && RecordFact(db, c, at).clock == db.clock + 2
  {
  }

  /** The state between the row and the version of a concept. */
  lemma BeforeFact(env: Env, c: Concept, at: int, w: World) returns (w4: World)
    requires Writing(w.db, c.epoch, at)
    ensures
      var ops := ConceptOps(env, c, at);
      && |ops| == 5 && (forall i :: 0 <= i < 4 ==> !ops[i].AppendFact?) && ops[4] == AppendFact(c, at)
      && w4 == ApplyAll(ops[..4], w)
    ensures ApplyConcept(env, c, at, w).db == RecordFact(w4.db, c, at)
    ensures Writing(w4.db, c.epoch, at) && CanRecord(w4.db, c, at)
    ensures w4.db.facts == w.db.facts && w4.db.concept == Upsert(w.db.concept, c)
  {
    var ops := ConceptOps(env, c, at);
    var w1 := Apply(ops[0], w);
    var w2 := Apply(ops[1], w1);
    var w3 := Apply(ops[2], w2);
    w4 := Apply(ops[3], w3);
    assert w4.db.facts == w.db.facts && w4.db.concept == Upsert(w.db.concept, c) && w4.db.epochs == w.db.epochs && w4.db.clock == w.db.clock;
    assert ApplyConcept(env, c, at, w).db == RecordFact(w4.db, c, at);
    FirstFour(ops, w, w1, w2, w3, w4);
    KnownUpsert(w.db, w4.db, c, at);
    hide RecordFact, ApplyConcept, Apply, TextOf, Before, DbInv, Upsert;
  }

  lemma KnownUpsert(db: Db, after: Db, c: Concept, at: int)
    requires Writing(db, c.epoch, at)
    requires after.facts == db.facts && after.concept == Upsert(db.concept, c) && after.epochs == db.epochs && after.clock == db.clock
    ensures Writing(after, c.epoch, at) && c.id in after.concept
  {
    hide Chained, WindowsOk, Numbered, Gapless, Before, NextNumber;
  }

  lemma FirstFour(ops: seq<Op>, w: World, w1: World, w2: World, w3: World, w4: World)
    requires |ops| == 5 && w1 == Apply(ops[0], w) && w2 == Apply(ops[1], w1) && w3 == Apply(ops[2], w2) && w4 == Apply(ops[3], w3)
    ensures ApplyAll(ops[..4], w) == w4
  {
    hide Apply;
    var four := ops[..4];
    assert four[1..][1..][1..][1..] == [];
    assert ApplyAll(four[1..][1..][1..], w3) == w4;
    assert ApplyAll(four[1..][1..], w2) == w4;
    assert ApplyAll(four[1..], w1) == w4;
  }

  lemma {:induction false} BatchOk(env: Env, cs: seq<Concept>, n: int, at: int, w: World)
    requires Writing(w.db, n, at) && forall i :: 0 <= i < |cs| ==> cs[i].epoch == n
    ensures AllOk(BatchOps(env, cs, at), w)
    ensures Writing(ApplyBatch(env, cs, at, w).db, n, at)
    decreases |cs|
  {
    if cs != [] {
      assert cs[0].epoch == n;
      hide Writing, ConceptOps, ApplyConcept, Apply, StepOk, AllOk;
      ConceptOk(env, cs[0], at, w);
      assert forall i :: 0 <= i < |cs[1..]| ==> cs[1..][i] == cs[i + 1];
      BatchOk(env, cs[1..], n, at, ApplyConcept(env, cs[0], at, w));
      ConceptOpsApply(env, cs[0], at, w);
      AllOkConcat(ConceptOps(env, cs[0], at), BatchOps(env, cs[1..], at), w);
    } else {
      assert AllOk([], w);
    }
  }

  // ---- a call

  lemma AfterCut(op: Op, w: World)
    requires DbInv(w.db) && op.CutEpoch?
    ensures Writing(Apply(op, w).db, NextNumber(w.db.epochs), w.db.clock + 1)
  {
    var row := EpochRow(w.db.clock + 1, op.source, None, op.added, op.changed, op.removed);
    CutStep(w.db, row);
    CutKeeps(w.db.epochs, row);
    hide DbInv, NextNumber, Gapless;
    BeforeNow(w.db);
  }

  lemma BeforeNow(db: Db)
    requires DbInv(db)
    ensures Before(db.facts, db.clock + 1)
  {
    hide Chained, Gapless, NextNumber, Numbered, Known;
  }

  /** The writes from the new epoch on: the batch, then writes that record nothing. */
  lemma CutAndBatchOk(env: Env, cut: Op, rs: seq<Concept>, rest: seq<Op>, w: World)
    requires DbInv(w.db) && cut.CutEpoch?
    requires forall i :: 0 <= i < |rs| ==> rs[i].epoch == NextNumber(w.db.epochs)
    requires forall i :: 0 <= i < |rest| ==> !rest[i].AppendFact?
    ensures AllOk([cut] + (BatchOps(env, rs, w.db.clock + 1) + rest), w)
  {
    var at := w.db.clock + 1;
    var w1 := Apply(cut, w);
    AfterCut(cut, w);
    hide DbInv, Writing, BatchOps, Apply, StepOk, NextNumber;
    BatchOk(env, rs, NextNumber(w.db.epochs), at, w1);
    NoRecordOk(rest, ApplyAll(BatchOps(env, rs, at), w1));
    AllOkConcat(BatchOps(env, rs, at), rest, w1);
    NoRecordOk([cut], w);
    ApplyOne(cut, w);
    AllOkConcat([cut], BatchOps(env, rs, at) + rest, w);
  }

  /** A write of a call that is done with its concepts. */
  predicate Closing(op: Op) {
    op.DeleteFile? || op.AppendLog? || op.Commit? || op.StampCommit? || op.PruneEmbeddings?
  }

  /** How the writes of a call that starts a new epoch are composed. */
  ghost predicate CutsAndWrites(env: Env, plan: seq<Op>, cut: Op, rs: seq<Concept>, rest: seq<Op>, w: World) {
    && cut.CutEpoch?
    && (forall i :: 0 <= i < |rs| ==> rs[i].epoch == NextNumber(w.db.epochs))
    && (forall i :: 0 <= i < |rest| ==> Closing(rest[i]))
    && plan == [cut] + (BatchOps(env, rs, w.db.clock + 1) + rest)
  }

  lemma RunComposed(env: Env, cs: seq<Concept>, source: string, sweep: seq<Id>, w: World) returns (cut: Op, rs: seq<Concept>, rest: seq<Op>)
    ensures Plan(env, Run(cs, source), sweep, w).Some?
    ensures rs == StampedAll(env, cs, NextNumber(w.db.epochs), w.db.clock + 1)
    ensures CutsAndWrites(env, Plan(env, Run(cs, source), sweep, w).value, cut, rs, rest, w)
  {
    var n, at := NextNumber(w.db.epochs), w.db.clock + 1;
    var d := DiffSets(CurrentShas(w.db), BatchShas(cs));
    cut := CutEpoch(source, |d.added|, |d.changed|, |d.removed|);
    rs := StampedAll(env, cs, n, at);
    assert forall i :: 0 <= i < |rs| ==> rs[i].epoch == n;
    var dels := DeleteOps(sweep);
    assert forall i :: 0 <= i < |dels| ==> dels[i].DeleteFile?;
    var end := FinishOps(n, LogLine(at, n, source, |d.added|, |d.changed|, |d.removed|), w.commits + 1);
    rest := dels + end;
    hide BatchOps, DeleteOps, StampedAll, DiffSets, CurrentShas, BatchShas, NextNumber;
    assert forall i :: 0 <= i < |end| ==> Closing(end[i]);
    Regroup([cut], BatchOps(env, rs, at), dels, end);
  }

  lemma Regroup<T>(a: seq<T>, b: seq<T>, c: seq<T>, d: seq<T>)
    ensures a + b + c + d == a + (b + (c + d))
  {
  }

  lemma UpsertComposed(env: Env, cs: seq<Concept>, source: string, sweep: seq<Id>, w: World) returns (cut: Op, rs: seq<Concept>, rest: seq<Op>)
    requires cs != []
    ensures Plan(env, UpsertBatch(cs, source), sweep, w).Some?
    ensures rs == StampedAll(env, cs, NextNumber(w.db.epochs), w.db.clock + 1)
    ensures CutsAndWrites(env, Plan(env, UpsertBatch(cs, source), sweep, w).value, cut, rs, rest, w)
  {
    var n, at := NextNumber(w.db.epochs), w.db.clock + 1;
    cut := CutEpoch(source, 0, |cs|, 0);
    rs := StampedAll(env, cs, n, at);
    assert forall i :: 0 <= i < |rs| ==> rs[i].epoch == n;
    rest := FinishOps(n, LogLine(at, n, source, 0, |cs|, 0), w.commits + 1);
    hide BatchOps, StampedAll, NextNumber;
    assert [cut] + BatchOps(env, rs, at) + rest == [cut] + (BatchOps(env, rs, at) + rest);
  }

  lemma ReindexComposed(env: Env, listing: seq<Id>, sweep: seq<Id>, w: World) returns (cut: Op, rs: seq<Concept>, rest: seq<Op>)
    requires Plan(env, Reindex(listing), sweep, w).Some?
    ensures Plan(env, Reindex(listing), sweep, w).value != [] && Plan(env, Reindex(listing), sweep, w).value[0] == Truncate
    ensures ReadFiles(env, w.bundle, listing).Some? && rs == Renumbered(ReadFiles(env, w.bundle, listing).value, 0)
    ensures CutsAndWrites(env, Plan(env, Reindex(listing), sweep, w).value[1..], cut, rs, rest, Apply(Truncate, w))
  {
    var cs := ReadFiles(env, w.bundle, listing).value;
    cut := CutEpoch("reindex", |cs|, 0, 0);
    rs := Renumbered(cs, 0);
    assert forall i :: 0 <= i < |rs| ==> rs[i].epoch == 0;
    rest := [PruneEmbeddings];
    var batch := BatchOps(env, rs, w.db.clock + 1);
    assert NextNumber(Apply(Truncate, w).db.epochs) == 0;
    hide BatchOps, ReadFiles, Renumbered;
    assert ([Truncate, cut] + batch + rest)[1..] == [cut] + (batch + rest);
  }

  lemma TruncatedInv(w: World)
    ensures DbInv(Apply(Truncate, w).db) && Apply(Truncate, w).db.clock == w.db.clock
  {
  }

  lemma ReindexOk(env: Env, listing: seq<Id>, sweep: seq<Id>, w: World)
    requires Plan(env, Reindex(listing), sweep, w).Some?
    ensures
      var plan := Plan(env, Reindex(listing), sweep, w).value;
      plan != [] && plan[0] == Truncate && AllOk(plan[1..], Apply(Truncate, w))
  {
    var cut, rs, rest := ReindexComposed(env, listing, sweep, w);
    TruncatedInv(w);
    hide Plan, DbInv, Apply, AllOk, BatchOps, NextNumber;
    CutAndBatchOk(env, cut, rs, rest, Apply(Truncate, w));
  }

  lemma PlanOk(env: Env, call: Call, sweep: seq<Id>, w: World)
    requires DbInv(w.db) && Plan(env, call, sweep, w).Some?
    ensures AllOk(Plan(env, call, sweep, w).value, w)
  {
    match call {
      case Run(cs, source) =>
        var cut, rs, rest := RunComposed(env, cs, source, sweep, w);
        hide Plan, DbInv, AllOk, BatchOps, NextNumber;
        CutAndBatchOk(env, cut, rs, rest, w);
      case UpsertBatch(cs, source) =>
        if cs == [] {
          assert Plan(env, call, sweep, w).value == [];
        } else {
          var cut, rs, rest := UpsertComposed(env, cs, source, sweep, w);
          hide Plan, DbInv, AllOk, BatchOps, NextNumber;
          CutAndBatchOk(env, cut, rs, rest, w);
        }
      case Reindex(listing) =>
        ReindexOk(env, listing, sweep, w);
        hide Plan, DbInv, BatchOps, NextNumber, Apply;
    }
  }

  /** Wherever a call stops, the tables keep the invariant. */
  lemma CallKeepsInv(env: Env, call: Call, sweep: seq<Id>, w: World, k: nat)
    requires DbInv(w.db) && Plan(env, call, sweep, w).Some? && k <= |Plan(env, call, sweep, w).value|
    ensures DbInv(ApplyAll(Plan(env, call, sweep, w).value[..k], w).db)
  {
    PlanOk(env, call, sweep, w);
    hide *;
    PrefixKeeps(Plan(env, call, sweep, w).value, w, k);
  }

  /** Reindex establishes the invariant from any tables whatever with its first write
      and keeps it wherever it stops. */
  lemma ReindexEstablishesInv(env: Env, listing: seq<Id>, sweep: seq<Id>, w: World, k: nat)
    requires Plan(env, Reindex(listing), sweep, w).Some? && 1 <= k <= |Plan(env, Reindex(listing), sweep, w).value|
    ensures DbInv(ApplyAll(Plan(env, Reindex(listing), sweep, w).value[..k], w).db)
  {
    var plan := Plan(env, Reindex(listing), sweep, w).value;
    ReindexOk(env, listing, sweep, w);
    TruncatedInv(w);
    hide Plan, DbInv, AllOk, Apply;
    PrefixKeeps(plan[1..], Apply(Truncate, w), k - 1);
    assert plan[..k][0] == Truncate && plan[..k][1..] == plan[1..][..k - 1];
  }
}
