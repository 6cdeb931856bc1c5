/** The writes of a whole run, in the order they happened, and what they leave behind in every
    reachable state, whatever failed on the way. */
module EpochLog {
  import opened Wrappers
  import opened EpochModel
  import opened EpochRecovery
  import opened EpochCurrent
  import opened EpochStops
  import opened EpochSchedule

  // ---- the log

  /** The writes of a call, as far as it came. */
  ghost function Written(env: Env, d: Done, w: World): seq<Op> {
    match Plan(env, d.call, d.sweep, w)
    case None => []
    case Some(plan) => if d.steps <= |plan| then plan[..d.steps] else []
  }

  ghost function PastLog(env: Env, past: seq<Done>, w: World): seq<Op> {
    if past == [] then []
    else
      var n := |past| - 1;
      PastLog(env, past[..n], w) + Written(env, past[n], Serial(env, past[..n], w))
  }

  /** The writes so far of the call in progress. */
  function FlightLog(s: State): seq<Op> {
    if s.mutex.Some? && s.mutex.value in s.threads && s.threads[s.mutex.value].Holding? then
      var h := s.threads[s.mutex.value];
      if h.pc <= |h.plan| then h.plan[..h.pc] else []
    else []
  }

  /** Every write up to a state. */
  ghost function Log(env: Env, s: State, w: World): seq<Op> {
    PastLog(env, s.past, w) + FlightLog(s)
  }

  lemma WrittenIsEffect(env: Env, d: Done, w: World)
    ensures Effect(env, d, w) == ApplyAll(Written(env, d, w), w)
  {
    hide Plan;
    NoWrites(w);
  }

  lemma {:induction false} PastLogWorld(env: Env, past: seq<Done>, w: World)
    ensures Serial(env, past, w) == ApplyAll(PastLog(env, past, w), w)
    decreases |past|
  {
    hide Effect, Written, ApplyAll;
    if past == [] {
      NoWrites(w);
    } else {
      var n := |past| - 1;
      PastLogWorld(env, past[..n], w);
      WrittenIsEffect(env, past[n], Serial(env, past[..n], w));
      ApplyConcat(PastLog(env, past[..n], w), Written(env, past[n], Serial(env, past[..n], w)), w);
    }
  }

  /** The tables and the bundle are what the log of writes makes of the first ones. */
  lemma LogWorld(env: Env, run: seq<State>, i: nat)
    requires Behaviour(env, run) && i < |run|
    ensures run[i].world == ApplyAll(Log(env, run[i], run[0].world), run[0].world)
  {
    Serializable(env, run, i);
    hide Serial, AllFit, PastLog, ApplyAll, Plan, ListingsOk, ResultOf, Next, Init;
    var s, w := run[i], run[0].world;
    PastLogWorld(env, s.past, w);
    ApplyConcat(PastLog(env, s.past, w), FlightLog(s), w);
    NoWrites(Serial(env, s.past, w));
  }

  lemma PastLogSnoc(env: Env, past: seq<Done>, d: Done, w: World)
    ensures PastLog(env, past + [d], w) == PastLog(env, past, w) + Written(env, d, Serial(env, past, w))
  {
    hide Written, Serial;
    assert (past + [d])[..|past|] == past;
  }

  // ---- the log only grows

  lemma LockLog(env: Env, s: State, s': State, w: World, t: Caller, actual: Call, sweep: seq<Id>)
    requires Inv(env, s, w) && Lock(env, s, s', t, actual, sweep)
    ensures Log(env, s', w) == Log(env, s, w)
  {
    hide Serial, AllFit, PastLog, ApplyAll, ListingsOk, ResultOf;
    if Plan(env, actual, sweep, s.world).None? {
      PastLogSnoc(env, s.past, Done(actual, sweep, 0, None), w);
    }
    hide Plan;
  }

  lemma ReturnLog(env: Env, s: State, s': State, w: World, t: Caller, failed: bool)
    requires Inv(env, s, w) && Return(s, s', t, failed)
    ensures Log(env, s', w) == Log(env, s, w)
  {
    hide Serial, AllFit, PastLog, ApplyAll, ListingsOk, ResultOf, Plan;
    var h := s.threads[t];
    var d := Done(h.call, h.sweep, h.pc, if failed then None else Some(h.result));
    PastLogSnoc(env, s.past, d, w);
    assert Written(env, d, Serial(env, s.past, w)) == h.plan[..h.pc];
  }

  lemma CrashLog(env: Env, s: State, s': State, w: World)
    requires Inv(env, s, w) && Crash(s, s')
    ensures Log(env, s', w) == Log(env, s, w)
  {
    hide Serial, AllFit, PastLog, ApplyAll, ListingsOk, ResultOf, Plan;
    if s.mutex.Some? {
      var h := s.threads[s.mutex.value];
      var d := Done(h.call, h.sweep, h.pc, None);
      PastLogSnoc(env, s.past, d, w);
      assert Written(env, d, Serial(env, s.past, w)) == h.plan[..h.pc];
    } else {
      assert s.past + [] == s.past;
    }
  }

  lemma WriteLog(env: Env, s: State, s': State, w: World, t: Caller)
    requires Inv(env, s, w) && Write(s, s', t)
    ensures Log(env, s', w) == Log(env, s, w) + [s.threads[t].plan[s.threads[t].pc]]
  {
    hide Serial, AllFit, PastLog, ApplyAll, ListingsOk, ResultOf, Plan, Apply;
    var h := s.threads[t];
    assert h.plan[..h.pc + 1] == h.plan[..h.pc] + [h.plan[h.pc]];
  }

  lemma OtherLog(env: Env, s: State, s': State, w: World)
    requires Inv(env, s, w)
    requires (exists t, call :: Invoke(s, s', t, call)) || (exists t :: Skip(s, s', t))
    ensures Log(env, s', w) == Log(env, s, w)
  {
    hide AllFit, Serial, Plan, ApplyAll, ListingsOk, ResultOf, PastLog;
  }

  /** A step adds one write to the log or none. */
  lemma LogNext(env: Env, s: State, s': State, w: World)
    requires Inv(env, s, w) && Next(env, s, s')
    ensures Log(env, s, w) <= Log(env, s', w)
  {
    hide Inv, Lock, Write, Return, Crash, Skip, Invoke, Log;
    if t, actual, sweep :| Lock(env, s, s', t, actual, sweep) {
      LockLog(env, s, s', w, t, actual, sweep);
    } else if t :| Write(s, s', t) {
      WriteGrows(env, s, s', w, t);
    } else if t, failed :| Return(s, s', t, failed) {
      ReturnLog(env, s, s', w, t, failed);
    } else if Crash(s, s') {
      CrashLog(env, s, s', w);
    } else {
      OtherLog(env, s, s', w);
    }
  }

  lemma WriteGrows(env: Env, s: State, s': State, w: World, t: Caller)
    requires Inv(env, s, w) && Write(s, s', t)
    ensures Log(env, s, w) <= Log(env, s', w)
  {
    WriteLog(env, s, s', w, t);
    hide Log, Inv;
  }

  lemma {:induction false} LogGrows(env: Env, run: seq<State>, i: nat, j: nat)
    requires Behaviour(env, run) && i <= j < |run|
    ensures Log(env, run[i], run[0].world) <= Log(env, run[j], run[0].world)
    decreases j
  {
    hide Next, Inv, Init, Log;
    if i < j {
      LogGrows(env, run, i, j - 1);
      Serializable(env, run, j - 1);
      assert Next(env, run[j - 1], run[j - 1 + 1]);
      LogNext(env, run[j - 1], run[j], run[0].world);
    }
  }

  // ---- what the log leaves behind

  lemma WrittenBehind(env: Env, d: Done, w: World, behind: set<Id>)
    requires SyncedBut(w.db, behind)
    ensures SyncedBut(ApplyAll(Written(env, d, w), w).db, BehindAfter(Written(env, d, w), behind))
  {
    hide Plan, SyncedBut, ApplyAll, BehindAfter, Orderly, Unfinished, RowHolds;
    NoRow(w.db);
    var ops := Written(env, d, w);
    if Plan(env, d.call, d.sweep, w).Some? && d.steps <= |Plan(env, d.call, d.sweep, w).value| {
      PlanOrderly(env, d.call, d.sweep, w);
      OrderlyPrefix(Plan(env, d.call, d.sweep, w).value, d.steps);
    } else {
      NothingOrderly();
    }
    OrderlyHolds(ops, w, None, behind);
  }

  lemma {:induction false} PastBehind(env: Env, past: seq<Done>, w: World, behind: set<Id>)
    requires SyncedBut(w.db, behind)
    ensures SyncedBut(Serial(env, past, w).db, BehindAfter(PastLog(env, past, w), behind))
    decreases |past|
  {
    hide SyncedBut, Effect, Written, BehindStep;
    if past != [] {
      var n := |past| - 1;
      var before := Serial(env, past[..n], w);
      PastBehind(env, past[..n], w, behind);
      hide BehindAfter, ApplyAll;
      var so := BehindAfter(PastLog(env, past[..n], w), behind);
      WrittenBehind(env, past[n], before, so);
      WrittenIsEffect(env, past[n], before);
      BehindConcat(PastLog(env, past[..n], w), Written(env, past[n], before), behind);
    }
  }

  /** In every reachable state, whatever failed: every concept has its current version, but for
      those whose row was written since their version was. */
  lemma BehindEverywhere(env: Env, run: seq<State>, i: nat, behind: set<Id>)
    requires Behaviour(env, run) && i < |run| && SyncedBut(run[0].world.db, behind)
    ensures SyncedBut(run[i].world.db, BehindAfter(Log(env, run[i], run[0].world), behind))
  {
    var s, w := run[i], run[0].world;
    Serializable(env, run, i);
    hide Serial, AllFit, PastLog, ApplyAll, Plan, ListingsOk, ResultOf, Next, Init, SyncedBut, BehindAfter, Orderly, Unfinished, RowHolds;
    PastBehind(env, s.past, w, behind);
    var so := BehindAfter(PastLog(env, s.past, w), behind);
    BehindConcat(PastLog(env, s.past, w), FlightLog(s), behind);
    var before := Serial(env, s.past, w);
    if s.mutex.Some? {
      var h := s.threads[s.mutex.value];
      NoRow(before.db);
      PlanOrderly(env, h.call, h.sweep, before);
      OrderlyPrefix(h.plan, h.pc);
      OrderlyHolds(h.plan[..h.pc], before, None, so);
    } else {
      NoneBehind(so);
    }
  }

  lemma NoneBehind(behind: set<Id>)
    ensures BehindAfter([], behind) == behind
  {
  }

  /** From tables of which nothing is known, said of each concept: its row and its open version
      agree unless the last write that concerned either was to the row, or none was. */
  lemma AgreesUnlessWritten(env: Env, run: seq<State>, i: nat, id: Id)
    requires Behaviour(env, run) && i < |run| && id in run[i].world.db.concept
    ensures
      var log := Log(env, run[i], run[0].world);
      Current(run[i].world.db, id) || RowSince(log, id) || (id in run[0].world.db.concept && NoneSettles(log, id, 0))
  {
    hide Current, Log, RowSince, NoneSettles, BehindAfter, Behaviour;
    var all := run[0].world.db.concept.Keys;
    assert SyncedBut(run[0].world.db, all);
    BehindEverywhere(env, run, i, all);
    BehindIs(Log(env, run[i], run[0].world), all, id);
  }

  // ---- any call may come to any of its writes and stop there

  function Alone(call: Call, sweep: seq<Id>, plan: seq<Op>, k: nat, result: EpochResult): map<Caller, Thread> {
    map[0 := Holding(call, sweep, plan, k, result)]
  }

  /** From the third state on the call has the mutex and each state is one write further. */
  ghost predicate OneByOne(run: seq<State>, plan: seq<Op>, w: World, k: nat) {
    && k <= |plan| && k + 3 <= |run|
    && forall i :: 2 <= i < k + 3 ==> run[i].mutex == Some(0) && run[i].past == [] && run[i].world == ApplyAll(plan[..i - 2], w)
  }

  lemma OneMoreState(env: Env, run: seq<State>, s': State)
    requires Behaviour(env, run) && Next(env, run[|run| - 1], s')
    ensures Behaviour(env, run + [s'])
  {
    hide Next, Init;
    var longer := run + [s'];
    forall i | 0 <= i < |longer| - 1 ensures Next(env, longer[i], longer[i + 1]) {
      if i < |run| - 1 {
        assert Next(env, run[i], run[i + 1]);
      }
    }
  }

  lemma OneByOneMore(run: seq<State>, s': State, plan: seq<Op>, w: World, k: nat)
    requires OneByOne(run, plan, w, k) && |run| == k + 3 && k < |plan|
    requires s'.mutex == Some(0) && s'.past == [] && s'.world == ApplyAll(plan[..k + 1], w)
    ensures OneByOne(run + [s'], plan, w, k + 1)
  {
    hide ApplyAll;
  }

  lemma OneByOneKept(run: seq<State>, s': State, plan: seq<Op>, w: World, k: nat)
    requires OneByOne(run, plan, w, k)
    ensures OneByOne(run + [s'], plan, w, k)
  {
    hide ApplyAll;
  }

  /** One caller whose call performs `k` writes and then fails. */
  lemma StopReachable(env: Env, w: World, call: Call, sweep: seq<Id>, k: nat) returns (run: seq<State>)
    requires ListingsOk(call, sweep, w) && Plan(env, call, sweep, w).Some? && k <= |Plan(env, call, sweep, w).value|
    ensures Behaviour(env, run) && |run| == k + 4 && run[0].world == w
    ensures OneByOne(run, Plan(env, call, sweep, w).value, w, k)
    ensures run[k + 3].mutex == None && run[k + 3].world == ApplyAll(Plan(env, call, sweep, w).value[..k], w)
    ensures run[k + 3].past == [Done(call, sweep, k, None)]
  {
    hide Plan, ApplyAll, ListingsOk, ResultOf, Behaviour, Next;
    var plan := Plan(env, call, sweep, w).value;
    run := Writes(env, w, call, sweep, k);
    var s := run[k + 2];
    var s' := State(s.world, s.threads[0 := Idle], None, [Done(call, sweep, k, None)]);
    ReturnIsNext(env, s, s', 0, true);
    OneMoreState(env, run, s');
    OneByOneKept(run, s', plan, w, k);
    run := run + [s'];
  }

  lemma ReturnIsNext(env: Env, s: State, s': State, t: Caller, failed: bool)
    requires Return(s, s', t, failed)
    ensures Next(env, s, s')
  {
    hide Return, Lock, Write, Crash, Skip, Invoke;
  }

  lemma WriteIsNext(env: Env, s: State, s': State, t: Caller)
    requires Write(s, s', t)
    ensures Next(env, s, s')
  {
    hide Return, Lock, Write, Crash, Skip, Invoke;
  }

  lemma {:induction false} Writes(env: Env, w: World, call: Call, sweep: seq<Id>, k: nat) returns (run: seq<State>)
    requires ListingsOk(call, sweep, w) && Plan(env, call, sweep, w).Some? && k <= |Plan(env, call, sweep, w).value|
    ensures Behaviour(env, run) && |run| == k + 3 && run[0].world == w
    ensures OneByOne(run, Plan(env, call, sweep, w).value, w, k)
    ensures run[k + 2].threads == Alone(call, sweep, Plan(env, call, sweep, w).value, k, ResultOf(call, w))
    decreases k
  {
    hide Plan, ApplyAll, Apply, ListingsOk, ResultOf, Behaviour, Next;
    var plan := Plan(env, call, sweep, w).value;
    if k == 0 {
      run := Start(env, w, call, sweep);
    } else {
      run := Writes(env, w, call, sweep, k - 1);
      var s := run[k + 1];
      var s' := State(Apply(plan[k - 1], s.world), Alone(call, sweep, plan, k, ResultOf(call, w)), Some(0), []);
      ApplyNext(plan, k - 1, w);
      WriteIsNext(env, s, s', 0);
      OneMoreState(env, run, s');
      OneByOneMore(run, s', plan, w, k - 1);
      run := run + [s'];
    }
  }

  lemma Start(env: Env, w: World, call: Call, sweep: seq<Id>) returns (run: seq<State>)
    requires ListingsOk(call, sweep, w) && Plan(env, call, sweep, w).Some?
    ensures Behaviour(env, run) && |run| == 3 && run[0].world == w
    ensures run[2].world == ApplyAll(Plan(env, call, sweep, w).value[..0], w) && run[2].mutex == Some(0) && run[2].past == []
    ensures run[2].threads == Alone(call, sweep, Plan(env, call, sweep, w).value, 0, ResultOf(call, w))
  {
    hide Plan, ListingsOk, ResultOf;
    var plan := Plan(env, call, sweep, w).value;
    NoWrites(w);
    assert plan[..0] == [];
    var s0 := State(w, map[0 := Idle], None, []);
    var s1 := State(w, map[0 := Waiting(call)], None, []);
    var s2 := State(w, Alone(call, sweep, plan, 0, ResultOf(call, w)), Some(0), []);
    assert Invoke(s0, s1, 0, call);
    assert Lock(env, s1, s2, 0, call, sweep);
    hide ApplyAll, Lock, Invoke;
    run := [s0, s1, s2];
    assert Next(env, run[0], run[1]) && Next(env, run[1], run[2]);
  }

  /** A stop that matters: one call on empty tables, which fails once the row is written and
      before the version is. */
  lemma StoppedCallDisagrees(env: Env, w: World, c: Concept, source: string) returns (run: seq<State>)
    requires Blank(w.db)
    ensures Behaviour(env, run) && run[0].world == w && Synced(run[0].world.db)
    ensures run[|run| - 1].mutex == None && !Synced(run[|run| - 1].world.db)
    ensures run[|run| - 1].past == [Done(UpsertBatch([c], source), [], 3, None)]
  {
    var call := UpsertBatch([c], source);
    assert Synced(w.db);
    assert Plan(env, call, [], w).Some? && ListingsOk(call, [], w);
    var plan := RowThird(env, w, c, source);
    run := StopReachable(env, w, call, [], 3);
    hide Plan, ApplyAll, Behaviour, ListingsOk, SyncedBut, Blank;
  }

  lemma RowThird(env: Env, w: World, c: Concept, source: string) returns (plan: seq<Op>)
    requires Blank(w.db)
    ensures Plan(env, UpsertBatch([c], source), [], w) == Some(plan) && |plan| >= 3
    ensures !Synced(ApplyAll(plan[..3], w).db)
  {
    var n, at := NextNumber(w.db.epochs), w.db.clock + 1;
    plan := Plan(env, UpsertBatch([c], source), [], w).value;
    var r := StampedAll(env, [c], n, at)[0];
    assert StampedAll(env, [c], n, at) == [r];
    assert BatchOps(env, [r], at) == ConceptOps(env, r, at) + BatchOps(env, [r][1..], at);
    var three := plan[..3];
    assert three == [plan[0], WriteFile(r), UpsertRow(r)];
    assert three[1..] == [WriteFile(r), UpsertRow(r)] && three[1..][1..] == [UpsertRow(r)] && three[1..][1..][1..] == [];
    hide Plan, BatchOps, StampedAll, NextNumber, TextOf, ConceptOps;
    var after := ApplyAll(three, w);
    ThreeWrites(three, w);
    assert r.id in after.db.concept && after.db.facts == [];
    assert !Current(after.db, r.id);
  }

  lemma ThreeWrites(ops: seq<Op>, w: World)
    requires |ops| == 3
    ensures ApplyAll(ops, w) == Apply(ops[2], Apply(ops[1], Apply(ops[0], w)))
  {
    hide Apply;
    var w1 := Apply(ops[0], w);
    var w2 := Apply(ops[1], w1);
    assert ops[1..][1..][1..] == [];
    assert ApplyAll(ops[1..][1..], w2) == Apply(ops[2], w2);
    assert ApplyAll(ops[1..], w1) == Apply(ops[2], w2);
  }
}
