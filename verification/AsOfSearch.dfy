/** Searching the past: what the as-of conditions of the search clause select, once the
    server answers them from the recorded versions (internal/store/postgres/search.go). */
module AsOfSearch {
  import opened Wrappers
  import opened HqlSchema
  import opened HqlSql
  import opened HqlSqlRead
  import opened HqlMeaning
  import opened HqlPreserved
  import opened FtsWhere
  import opened Like
  import Epochs = EpochModel
  import Recovery = EpochRecovery
  import Tables = EpochInvariants
  import Currents = EpochCurrent
  import History = EpochHistory

  /** The valid time of a version, from its start to before its end. */
  predicate ValidAt(f: Epochs.Fact, t: int) {
    f.validFrom <= t && (f.validTo.Some? ==> t < f.validTo.value)
  }

  /** Some version of the concept is valid at the time, and its transaction is open. */
  ghost predicate FoundAt(facts: seq<Epochs.Fact>, id: string, t: int) {
    exists i :: 0 <= i < |facts| && facts[i].id == id && ValidAt(facts[i], t) && Epochs.IsOpen(facts[i])
  }

  /** The two subqueries, answered from the recorded versions. */
  ghost predicate AnswersAsOf(s: Server, facts: seq<Epochs.Fact>) {
    && (forall row: Row, n: int ::
         s.lookup(AsOfEpoch, row, IntArg(n)) ==
           if row("id").TextCell? then Of(History.Visible(facts, row("id").text, n)) else Unknown)
    && (forall row: Row, t: int ::
         s.lookup(AsOfTime, row, TimeArg(t)) ==
           if row("id").TextCell? then Of(FoundAt(facts, row("id").text, t)) else Unknown)
  }

  /** What the clause built for a filter is on a row. */
  ghost function Selects(q: string, f: Filter, s: Server, row: Row): Truth
    requires Clause(q, f).Ok? && ReadSql(Clause(q, f).value.toks).Some?
  {
    var c := Clause(q, f).value;
    Eval(s, row, ReadSql(c.toks).value, c.args)
  }

  /** The filter without its as-of bound. */
  function Unbounded(f: Filter): Filter {
    f.(asOfEpoch := None, asOfTime := None)
  }

  ghost predicate Searchable(q: string, f: Filter, s: Server, row: Row) {
    && Clause(q, f).Ok? && RowTyped(row) && KeepsMeta(s.fold)
    && (f.hql.Some? ==> NoEmptyTagList(f.hql.value.where))
  }

  lemma UnboundedCompiles(q: string, f: Filter)
    requires Clause(q, f).Ok?
    ensures Clause(q, Unbounded(f)).Ok?
  {
    hide PlainClause, Compile, CompileOrder;
    if f.hql.Some? {
      var n, m := |PlainClause(q, f).args|, |PlainClause(q, Unbounded(f)).args|;
      CompileAnywhere(f.hql.value.where, f.ctx, n + 1);
      CompileAnywhere(f.hql.value.where, f.ctx, m + 1);
    }
  }

  lemma SameParts(f: Filter, s: Server, row: Row)
    ensures
      var base := TypePart(f, row) + TagPart(f, row) + ExcludePart(f, row) + DomainPart(f, row);
      PlainParts(f, s, row) == base + AsOfPart(f, s, row) && PlainParts(Unbounded(f), s, row) == base
  {
    hide OneOf, HasTag, CombinedTypes;
    var g := Unbounded(f);
    assert CombinedTypes(g) == CombinedTypes(f) by {
      SameTypes(f);
    }
    assert AsOfPart(g, s, row) == [];
  }

  lemma SameTypes(f: Filter)
    ensures CombinedTypes(Unbounded(f)) == CombinedTypes(f)
  {
  }

  /** The bound is one more conjunct: a row is selected exactly when it is selected without
      the bound and the bound is true of it. */
  lemma BoundIsConjunct(q: string, f: Filter, s: Server, row: Row)
    requires Searchable(q, f, s, row)
    ensures ReadSql(Clause(q, f).value.toks).Some?
    ensures Clause(q, Unbounded(f)).Ok? && ReadSql(Clause(q, Unbounded(f)).value.toks).Some?
    ensures Selects(q, f, s, row) == True <==> Selects(q, Unbounded(f), s, row) == True && EachTrue(AsOfPart(f, s, row))
  {
    hide Clause, ReadSql, Eval, PlainParts, Compile, Meaning, All, AsOfPart, TypePart, TagPart, ExcludePart, DomainPart, RowTyped,
      KeepsMeta, NoEmptyTagList, EachTrue;
    var g := Unbounded(f);
    UnboundedCompiles(q, f);
    ClauseIsConjunction(q, f, s, row);
    ClauseIsConjunction(q, g, s, row);
    SameParts(f, s, row);
    var first := s.lookup(FtsMatch, row, TextArg(q));
    var base := TypePart(f, row) + TagPart(f, row) + ExcludePart(f, row) + DomainPart(f, row);
    var h := HqlPart(f, s, row);
    assert HqlPart(g, s, row) == h;
    AllConcat(first, base + AsOfPart(f, s, row), h);
    AllConcat(first, base, AsOfPart(f, s, row));
    AllConcat(first, base, h);
  }

  // ---- as of an epoch

  /** A version up to the epoch is visible exactly when a batch up to it wrote the concept. */
  lemma VisibleIffWritten(db: Epochs.Db, hist: History.Batches, id: string, n: int)
    requires History.Recorded(db, hist)
    ensures History.Visible(db.facts, id, n) <==> id in History.Overwritten(hist, History.UpTo(hist, n))
  {
    if History.Visible(db.facts, id, n) {
      var i :| 0 <= i < |db.facts| && History.Eligible(db.facts[i], id, n);
      assert History.FromBatch(db.facts[i], hist);
      assert History.WrittenIn(hist, id, 0, History.UpTo(hist, n));
      History.StaysWritten(hist, History.UpTo(hist, n), id);
    }
    if id in History.Overwritten(hist, History.UpTo(hist, n)) {
      History.OverwrittenIsVisible(db.facts, hist, id, n);
    }
  }

  /** As of any epoch a search selects, of the rows it selects now, exactly those of the
      concepts that the batches up to that epoch had written. */
  lemma AsOfEpochSelects(q: string, f: Filter, s: Server, row: Row, db: Epochs.Db, hist: History.Batches, n: int)
    requires Searchable(q, f, s, row) && f.asOfEpoch == Some(n) && row("id").TextCell?
    requires AnswersAsOf(s, db.facts) && History.Recorded(db, hist)
    ensures ReadSql(Clause(q, f).value.toks).Some?
    ensures Clause(q, Unbounded(f)).Ok? && ReadSql(Clause(q, Unbounded(f)).value.toks).Some?
    ensures Selects(q, f, s, row) == True <==>
      Selects(q, Unbounded(f), s, row) == True && row("id").text in History.Overwritten(hist, History.UpTo(hist, n))
  {
    hide Selects, Searchable, Clause, ReadSql, History.Visible, History.Recorded, History.Overwritten;
    BoundIsConjunct(q, f, s, row);
    VisibleIffWritten(db, hist, row("id").text, n);
    OneTrue(s.lookup(AsOfEpoch, row, IntArg(n)));
    assert AsOfPart(f, s, row) == [s.lookup(AsOfEpoch, row, IntArg(n))];
  }

  /** As of the newest epoch a search selects what it selects without the bound, from
      tables in order, for every row of a current concept. */
  lemma AsOfNewestIsUnbounded(q: string, f: Filter, s: Server, row: Row, db: Epochs.Db, n: int)
    requires Searchable(q, f, s, row) && f.asOfEpoch == Some(n) && row("id").TextCell? && row("id").text in db.concept
    requires AnswersAsOf(s, db.facts) && Tables.DbInv(db) && Currents.Synced(db) && n >= Epochs.NextNumber(db.epochs) - 1
    ensures ReadSql(Clause(q, f).value.toks).Some?
    ensures Clause(q, Unbounded(f)).Ok? && ReadSql(Clause(q, Unbounded(f)).value.toks).Some?
    ensures Selects(q, f, s, row) == True <==> Selects(q, Unbounded(f), s, row) == True
  {
    BoundIsConjunct(q, f, s, row);
    CurrentIsVisible(db, row("id").text, n);
    hide Selects, Searchable, Clause, ReadSql, History.Visible, Tables.DbInv, Currents.Synced;
    OneTrue(s.lookup(AsOfEpoch, row, IntArg(n)));
    assert AsOfPart(f, s, row) == [s.lookup(AsOfEpoch, row, IntArg(n))];
  }

  lemma CurrentIsVisible(db: Epochs.Db, id: string, n: int)
    requires Tables.DbInv(db) && Currents.Synced(db) && id in db.concept && n >= Epochs.NextNumber(db.epochs) - 1
    ensures History.Visible(db.facts, id, n)
  {
    assert Currents.Current(db, id);
    var i :| 0 <= i < |db.facts| && Currents.CurrentVersion(db.facts[i], id, db.concept[id].content);
    assert History.Eligible(db.facts[i], id, n);
  }

  // ---- as of a time

  /** The version that was valid at a time is found for that time exactly when no later
      version has replaced it. */
  lemma FoundIffNeverReplaced(db: Epochs.Db, i: nat, t: int)
    requires Tables.DbInv(db) && i < |db.facts| && ValidAt(db.facts[i], t)
    ensures FoundAt(db.facts, db.facts[i].id, t) <==> Epochs.IsOpen(db.facts[i])
  {
    if FoundAt(db.facts, db.facts[i].id, t) {
      var j :| 0 <= j < |db.facts| && db.facts[j].id == db.facts[i].id && ValidAt(db.facts[j], t) && Epochs.IsOpen(db.facts[j]);
      assert i < j ==> Tables.Precedes(db.facts[i], db.facts[j]);
      assert j < i ==> Tables.Precedes(db.facts[j], db.facts[i]);
    }
    hide Epochs.NextNumber;
  }

  /** As of a time a search selects, of the rows it selects now, exactly those of the concepts
      whose open version was valid by then: a concept rewritten since is not found. */
  lemma AsOfTimeSelects(q: string, f: Filter, s: Server, row: Row, facts: seq<Epochs.Fact>, t: int)
    requires Searchable(q, f, s, row) && f.asOfEpoch == None && f.asOfTime == Some(t) && row("id").TextCell?
    requires AnswersAsOf(s, facts)
    ensures ReadSql(Clause(q, f).value.toks).Some?
    ensures Clause(q, Unbounded(f)).Ok? && ReadSql(Clause(q, Unbounded(f)).value.toks).Some?
    ensures Selects(q, f, s, row) == True <==>
      Selects(q, Unbounded(f), s, row) == True && FoundAt(facts, row("id").text, t)
  {
    hide Selects, Searchable, Clause, ReadSql, FoundAt;
    BoundIsConjunct(q, f, s, row);
    OneTrue(s.lookup(AsOfTime, row, TimeArg(t)));
    assert AsOfPart(f, s, row) == [s.lookup(AsOfTime, row, TimeArg(t))];
  }

  /** The world after an UpsertBatch of one concept. */
  ghost function Upserted(env: Epochs.Env, c: Epochs.Concept, source: string, w: Epochs.World): Epochs.World {
    var call := Epochs.UpsertBatch([c], source);
    Epochs.ApplyAll(Epochs.Plan(env, call, [], w).value, w)
  }

  /** A concept written twice: the first version was valid once, and as of that time a search does
      not find the concept. Every two UpsertBatch calls of one id on empty tables do. */
  lemma RewrittenIsLost(env: Epochs.Env, first: Epochs.Concept, again: Epochs.Concept, source: string, w: Epochs.World)
    returns (t: int)
    requires Recovery.Blank(w.db) && first.id == again.id
    ensures
      var facts := Upserted(env, again, source, Upserted(env, first, source, w)).db.facts;
      && |facts| == 2 && facts[0].id == first.id && facts[0].sha == first.content.sha
      && ValidAt(facts[0], t) && !FoundAt(facts, first.id, t)
  {
    hide Upserted;
    t := w.db.clock + 1;
    var w1 := Upserted(env, first, source, w);
    UpsertRecords(env, first, source, w);
    UpsertRecords(env, again, source, w1);
    var now := w1.db.clock + 1;
    var closed := Epochs.CloseOpen(w1.db.facts, first.id, now, now + 1);
    assert w1.db.facts == [NewVersion(env, first, w)];
    assert closed == [NewVersion(env, first, w).(validTo := Some(now), txTo := Some(now + 1))];
    var facts := Upserted(env, again, source, w1).db.facts;
    assert facts == closed + [NewVersion(env, again, w1)];
    hide Epochs.CloseOpen;
  }

  /** The version that an UpsertBatch of one concept records. */
  ghost function NewVersion(env: Epochs.Env, c: Epochs.Concept, w: Epochs.World): Epochs.Fact {
    Epochs.Fact(c.id, c.content.kind, c.content.title, c.content.sha, Epochs.NextNumber(w.db.epochs), w.db.clock + 1, None,
      w.db.clock + 3, None)
  }

  lemma UpsertRecords(env: Epochs.Env, c: Epochs.Concept, source: string, w: Epochs.World)
    ensures
      var after, now := Upserted(env, c, source, w).db, w.db.clock + 1;
      && after.facts == Epochs.CloseOpen(w.db.facts, c.id, now, now + 1) + [NewVersion(env, c, w)]
      && after.clock == now + 2
  {
    var call := Epochs.UpsertBatch([c], source);
    var n, at := Epochs.NextNumber(w.db.epochs), w.db.clock + 1;
    var cut, rs, rest := Tables.UpsertComposed(env, [c], source, [], w);
    var plan := Epochs.Plan(env, call, [], w).value;
    var r := Epochs.Stamped(env, c, n, at);
    assert rs == [r];
    CutClock(cut, w);
    ComposedOnce(env, plan, cut, r, rest, w);
    hide Epochs.Plan, Epochs.CloseOpen, Epochs.NextNumber, Epochs.ApplyAll, Tables.CutsAndWrites, Epochs.Apply;
  }

  lemma CutClock(cut: Epochs.Op, w: Epochs.World)
    requires cut.CutEpoch?
    ensures Epochs.Apply(cut, w).db.clock == w.db.clock + 1 && Epochs.Apply(cut, w).db.facts == w.db.facts
  {
    hide Epochs.NextNumber;
  }

  lemma ComposedOnce(env: Epochs.Env, plan: seq<Epochs.Op>, cut: Epochs.Op, r: Epochs.Concept, rest: seq<Epochs.Op>, w: Epochs.World)
    requires Tables.CutsAndWrites(env, plan, cut, [r], rest, w)
    ensures
      var at, w1 := w.db.clock + 1, Epochs.Apply(cut, w);
      var after := Epochs.ApplyAll(plan, w).db;
      && after.facts == Epochs.CloseOpen(w1.db.facts, r.id, at, w1.db.clock + 1)
                        + [Epochs.Fact(r.id, r.content.kind, r.content.title, r.content.sha, r.epoch, at, None, w1.db.clock + 2, None)]
      && after.clock == w1.db.clock + 2
  {
    hide Epochs.CloseOpen, Epochs.NextNumber, Epochs.Apply, Epochs.ApplyAll, Tables.Closing, Recovery.ApplyConcept, Epochs.ConceptOps,
      Epochs.RecordFact;
    var at, w1 := w.db.clock + 1, Epochs.Apply(cut, w);
    var batch := Epochs.BatchOps(env, [r], at);
    assert [r][1..] == [] && Epochs.BatchOps(env, [], at) == [];
    assert batch == Epochs.ConceptOps(env, r, at) + Epochs.BatchOps(env, [r][1..], at);
    Recovery.ConceptOpsApply(env, r, at, w1);
    var w2 := Recovery.ApplyConcept(env, r, at, w1);
    Recovery.ApplyOne(cut, w);
    Epochs.ApplyConcat([cut], batch + rest, w);
    Epochs.ApplyConcat(batch, rest, w1);
    assert batch == Epochs.ConceptOps(env, r, at);
    ClosingLeaves(rest, w2);
    RecordsOne(env, r, at, w1);
  }

  lemma RecordsOne(env: Epochs.Env, r: Epochs.Concept, at: int, w: Epochs.World)
    ensures
      var after := Recovery.ApplyConcept(env, r, at, w).db;
      && after.facts == Epochs.CloseOpen(w.db.facts, r.id, at, w.db.clock + 1)
                        + [Epochs.Fact(r.id, r.content.kind, r.content.title, r.content.sha, r.epoch, at, None, w.db.clock + 2, None)]
      && after.clock == w.db.clock + 2
  {
    hide Epochs.CloseOpen, Epochs.TextOf, Epochs.Upsert;
  }

  lemma {:induction false} ClosingLeaves(ops: seq<Epochs.Op>, w: Epochs.World)
    requires forall i :: 0 <= i < |ops| ==> Tables.Closing(ops[i])
    ensures Epochs.ApplyAll(ops, w).db.facts == w.db.facts && Epochs.ApplyAll(ops, w).db.clock == w.db.clock
    decreases |ops|
  {
    if ops != [] {
      assert Tables.Closing(ops[0]);
      ClosingLeavesOne(ops[0], w);
      assert forall i :: 0 <= i < |ops[1..]| ==> ops[1..][i] == ops[i + 1];
      hide Epochs.Apply, Tables.Closing;
      ClosingLeaves(ops[1..], Epochs.Apply(ops[0], w));
    }
  }

  lemma ClosingLeavesOne(op: Epochs.Op, w: Epochs.World)
    requires Tables.Closing(op)
    ensures Epochs.Apply(op, w).db.facts == w.db.facts && Epochs.Apply(op, w).db.clock == w.db.clock
  {
    hide Epochs.Prune, Epochs.NextNumber, Epochs.Upsert, Epochs.RecordFact;
  }
}
