// The first-come-first-served scheduler of first_example/scheduler_test.cpp
// and its 20-fiber driver.

module Scheduling {
  import opened FiberState
  import opened Coroutine

  /** The fibers' values after some turns of a pass, and what their callbacks recorded. */
  datatype PassResult = PassResult(views: map<nat, FiberValue>, out: seq<int>)

  /**
   * One turn of run on the fibers' values: resume fiber f. No fiber is
   * added or dropped, only f changes, and the output so far is kept.
   */
  ghost function Next(p: PassResult, f: nat): (r: PassResult)
    requires f in p.views
    ensures r.views.Keys == p.views.Keys
    ensures forall g :: g in p.views && g != f ==> r.views[g] == p.views[g]
    ensures p.out <= r.out
  {
    var a := Activate(p.views[f]);
    PassResult(p.views[f := a.after], p.out + a.out)
  }

  /**
   * The first n turns of run over the fibers' values: resume ids[0], ...,
   * ids[n - 1] in turn. None when a task is not READY at its turn (the
   * assert in resume); otherwise the fibers afterwards and everything
   * recorded, in order.
   */
  ghost function PassUpTo(ids: seq<nat>, views: map<nat, FiberValue>, n: nat): (r: Option<PassResult>)
    requires (forall f :: f in ids ==> f in views) && n <= |ids|
    ensures r.Some? ==> r.value.views.Keys == views.Keys
    decreases n
  {
    if n == 0 then Some(PassResult(views, []))
    else
      match PassUpTo(ids, views, n - 1)
      case None => None
      case Some(p) =>
        if p.views[ids[n - 1]].state != Ready then None else Some(Next(p, ids[n - 1]))
  }

  /** One whole pass of run. It drops no fiber and adds none. */
  ghost function Pass(ids: seq<nat>, views: map<nat, FiberValue>): (r: Option<PassResult>)
    requires forall f :: f in ids ==> f in views
    ensures r.Some? ==> r.value.views.Keys == views.Keys
  {
    PassUpTo(ids, views, |ids|)
  }

  /**
   * The first n turns leave every fiber outside ids[..n] as it was; with
   * n == |ids|, a pass changes no fiber that is not queued.
   */
  lemma {:induction false} Untouched(ids: seq<nat>, views: map<nat, FiberValue>, n: nat)
    requires (forall f :: f in ids ==> f in views) && n <= |ids|
    ensures PassUpTo(ids, views, n).Some? ==>
      forall g :: g in views && g !in ids[..n] ==> PassUpTo(ids, views, n).value.views[g] == views[g]
    decreases n
  {
    if n > 0 && PassUpTo(ids, views, n).Some? {
      Untouched(ids, views, n - 1);
      forall g | g in views && g !in ids[..n]
        ensures PassUpTo(ids, views, n).value.views[g] == views[g]
      {
        assert ids[..n] == ids[..n - 1] + [ids[n - 1]];
      }
    }
  }

  /** trace[k] is the state after k turns; each turn finds its task READY. */
  ghost predicate IsTrace(ids: seq<nat>, views: map<nat, FiberValue>, trace: seq<PassResult>)
  {
    && |trace| <= |ids| + 1
    && (forall k :: 0 <= k < |trace| ==> trace[k].views.Keys == views.Keys)
    && (forall k {:trigger ids[k]} :: 0 <= k < |trace| - 1 ==>
      && ids[k] in trace[k].views && trace[k].views[ids[k]].state == Ready
      && trace[k + 1] == Next(trace[k], ids[k]))
  }

  /**
   * The successive states of a pass that gets through n turns: trace[k] is
   * the fibers and the output after k turns, and each turn finds its task
   * READY.
   */
  lemma {:induction false} Unroll(ids: seq<nat>, views: map<nat, FiberValue>, n: nat) returns (trace: seq<PassResult>)
    requires (forall f :: f in ids ==> f in views) && n <= |ids|
    requires PassUpTo(ids, views, n).Some?
    ensures |trace| == n + 1 && trace[0] == PassResult(views, []) && trace[n] == PassUpTo(ids, views, n).value
    ensures IsTrace(ids, views, trace)
    decreases n
  {
    if n == 0 {
      trace := [PassResult(views, [])];
    } else {
      var prefix := Unroll(ids, views, n - 1);
      trace := prefix + [PassUpTo(ids, views, n).value];
      TraceStep(ids, views, prefix, trace);
    }
  }

  /** A trace extended by one turn that finds its task READY is still a trace. */
  lemma TraceStep(ids: seq<nat>, views: map<nat, FiberValue>, prefix: seq<PassResult>, trace: seq<PassResult>)
    requires IsTrace(ids, views, prefix) && 0 < |prefix| <= |ids|
    requires var p := prefix[|prefix| - 1]; var f := ids[|prefix| - 1];
      && f in p.views && p.views[f].state == Ready
      && trace == prefix + [Next(p, f)] && Next(p, f).views.Keys == views.Keys
    ensures IsTrace(ids, views, trace)
  {
    assert forall k :: 0 <= k < |prefix| ==> trace[k] == prefix[k];
  }

  /** Once a turn is rejected, the pass stays rejected. */
  lemma {:induction false} Rejected(ids: seq<nat>, views: map<nat, FiberValue>, n: nat, m: nat)
    requires forall f :: f in ids ==> f in views
    requires n <= m <= |ids|
    ensures PassUpTo(ids, views, n) == None ==> PassUpTo(ids, views, m) == None
    decreases m
  {
    if n < m {
      Rejected(ids, views, n, m - 1);
    }
  }

  /** A task that runs to completion in one resume: a READY worker at its entry point with at most one slice. */
  ghost predicate Completes(v: FiberValue)
  {
    && Wellformed(v) && v.state == Ready && v.stack.Block?
    && v.ctx.at == Entry && v.cb.Some? && |v.cb.value.slices| <= 1
  }

  /**
   * The work of the ids' callbacks, one after the other, in submission
   * order; an id without a callback contributes nothing.
   */
  ghost function Outputs(ids: seq<nat>, views: map<nat, FiberValue>): seq<int>
  {
    if ids == [] then []
    else
      var f := ids[|ids| - 1];
      Outputs(ids[..|ids| - 1], views) + if f in views && views[f].cb.Some? then Work(views[f].cb.value) else []
  }

  /** Turn n - 1 of a pass over distinct ids that each complete in one resume. */
  lemma CompletesTurn(ids: seq<nat>, views: map<nat, FiberValue>, n: nat, p: PassResult)
    requires forall i, j :: 0 <= i < j < |ids| ==> ids[i] != ids[j]
    requires forall f :: f in ids ==> f in views && Completes(views[f])
    requires 0 < n <= |ids|
    requires p.views.Keys == views.Keys && p.out == Outputs(ids[..n - 1], views)
    requires forall g {:trigger p.views[g]} :: g in views ==>
      p.views[g] == if g in ids[..n - 1] then Finished(views[g]) else views[g]
    ensures p.views[ids[n - 1]].state == Ready
    ensures Next(p, ids[n - 1]).out == Outputs(ids[..n], views)
    ensures forall g {:trigger Next(p, ids[n - 1]).views[g]} :: g in views ==>
      Next(p, ids[n - 1]).views[g] == if g in ids[..n] then Finished(views[g]) else views[g]
  {
    var f := ids[n - 1];
    assert f !in ids[..n - 1] by {
      assert forall j :: 0 <= j < n - 1 ==> ids[..n - 1][j] == ids[j];
    }
    assert f in ids;
    var v := views[f];
    assert Completes(v);
    SingleTurn(v);
    OutputsSnoc(ids, views, n);
  }

  /** The first n ids are the first n - 1 and then id n - 1; so is their work. */
  lemma OutputsSnoc(ids: seq<nat>, views: map<nat, FiberValue>, n: nat)
    requires 0 < n <= |ids|
    ensures ids[..n] == ids[..n - 1] + [ids[n - 1]]
    ensures var f := ids[n - 1];
      Outputs(ids[..n], views) == Outputs(ids[..n - 1], views) + if f in views && views[f].cb.Some? then Work(views[f].cb.value) else []
  {
    assert ids[..n][..n - 1] == ids[..n - 1];
    assert ids[..n] == ids[..n - 1] + [ids[n - 1]];
  }

  /**
   * The first n turns over distinct ids that each complete in one resume:
   * none is rejected, the first n callbacks' work appears whole and in
   * submission order, and exactly the first n ids are finished.
   */
  lemma {:induction false} InOrderUpTo(ids: seq<nat>, views: map<nat, FiberValue>, n: nat)
    requires forall i, j :: 0 <= i < j < |ids| ==> ids[i] != ids[j]
    requires forall f :: f in ids ==> f in views && Completes(views[f])
    requires n <= |ids|
    ensures PassUpTo(ids, views, n).Some?
    ensures PassUpTo(ids, views, n).value.out == Outputs(ids[..n], views)
    ensures forall f {:trigger PassUpTo(ids, views, n).value.views[f]} :: f in views ==>
      PassUpTo(ids, views, n).value.views[f] == if f in ids[..n] then Finished(views[f]) else views[f]
    decreases n
  {
    if n > 0 {
      InOrderUpTo(ids, views, n - 1);
      CompletesTurn(ids, views, n, PassUpTo(ids, views, n - 1).value);
    }
  }

  /**
   * run over distinct ids that each complete in one resume: no task is
   * rejected, the callbacks' work appears whole and in submission order,
   * every task ends TERM, and no other fiber changes.
   */
  lemma InSubmissionOrder(ids: seq<nat>, views: map<nat, FiberValue>)
    requires forall i, j :: 0 <= i < j < |ids| ==> ids[i] != ids[j]
    requires forall f :: f in ids ==> f in views && Completes(views[f])
    ensures Pass(ids, views).Some?
    ensures Pass(ids, views).value.out == Outputs(ids, views)
    ensures forall f :: f in ids ==> Pass(ids, views).value.views[f] == Finished(views[f])
    ensures forall f :: f in views && f !in ids ==> Pass(ids, views).value.views[f] == views[f]
  {
    InOrderUpTo(ids, views, |ids|);
    assert ids[..|ids|] == ids;
  }

  /**
   * A fiber that is TERM after m turns stays TERM for the rest of the pass,
   * and a later turn of it is rejected.
   */
  lemma {:induction false} StaysTerm(ids: seq<nat>, views: map<nat, FiberValue>, f: nat, m: nat, n: nat)
    requires (forall g :: g in ids ==> g in views) && f in views
    requires m <= n <= |ids|
    requires PassUpTo(ids, views, m).Some? && PassUpTo(ids, views, m).value.views[f].state == Term
    ensures PassUpTo(ids, views, n).Some? ==>
      PassUpTo(ids, views, n).value.views[f].state == Term && f !in ids[m..n]
    decreases n
  {
    if m < n {
      StaysTerm(ids, views, f, m, n - 1);
      assert ids[m..n] == ids[m..n - 1] + [ids[n - 1]];
    }
  }

  /** A fiber that is TERM before the pass reaches it makes the pass fail. */
  lemma TermRejected(ids: seq<nat>, views: map<nat, FiberValue>, f: nat)
    requires forall g :: g in ids ==> g in views
    requires f in ids && views[f].state == Term
    ensures Pass(ids, views) == None
  {
    StaysTerm(ids, views, f, 0, |ids|);
    assert ids[0..|ids|] == ids;
  }

  /** While every task completes in one resume, each fiber is still as it was or finished. */
  lemma {:induction false} OnlyFinished(ids: seq<nat>, views: map<nat, FiberValue>, n: nat)
    requires forall f :: f in ids ==> f in views && Completes(views[f])
    requires n <= |ids|
    ensures PassUpTo(ids, views, n).Some? ==> forall f :: f in ids ==>
      var v := PassUpTo(ids, views, n).value.views[f]; v == views[f] || v == Finished(views[f])
    decreases n
  {
    if n > 0 {
      OnlyFinished(ids, views, n - 1);
      SingleTurn(views[ids[n - 1]]);
    }
  }

  /**
   * A fiber queued twice whose callback completes on its first turn is not
   * READY on its second turn: the pass is rejected.
   */
  lemma QueuedTwice(ids: seq<nat>, views: map<nat, FiberValue>, i: nat, j: nat)
    requires forall f :: f in ids ==> f in views && Completes(views[f])
    requires i < j < |ids| && ids[i] == ids[j]
    ensures Pass(ids, views) == None
  {
    var f := ids[i];
    Rejected(ids, views, i + 1, |ids|);
    if PassUpTo(ids, views, i + 1).Some? {
      OnlyFinished(ids, views, i);
      SingleTurn(views[f]);
      StaysTerm(ids, views, f, i + 1, |ids|);
      assert ids[i + 1..|ids|][j - i - 1] == f;
    }
  }

  /** The callback std::bind(test_fiber, i): it writes i, once. */
  function TestFiber(i: int): (c: Callback)
    ensures Work(c) == [i] && Turns(c) == 1
  {
    assert Flatten([[i]]) == [i] + Flatten([]);
    Callback([[i]])
  }

  /** Tasks whose callbacks are TestFiber(lo), TestFiber(lo + 1), ... write lo, lo + 1, ... */
  lemma {:induction false} TestOutputs(ids: seq<nat>, views: map<nat, FiberValue>, lo: int)
    requires forall k :: 0 <= k < |ids| ==> ids[k] in views && views[ids[k]].cb == Some(TestFiber(lo + k))
    ensures Outputs(ids, views) == seq(|ids|, k => lo + k)
    decreases |ids|
  {
    if ids != [] {
      var n := |ids| - 1;
      assert forall k :: 0 <= k < n ==> ids[..n][k] == ids[k];
      TestOutputs(ids[..n], views, lo);
      assert Work(views[ids[n]].cb.value) == Work(TestFiber(lo + n)) == [lo + n];
      assert seq(n + 1, k => lo + k) == seq(n, k => lo + k) + [lo + n];
    }
  }

  /**
   * The scheduler test's pass: distinct fresh ids with callbacks
   * TestFiber(lo), TestFiber(lo + 1), ...: the pass succeeds, writes
   * lo, lo + 1, ... in order, and every task ends TERM.
   */
  lemma TestPass(ids: seq<nat>, views: map<nat, FiberValue>, lo: int)
    requires forall i, j :: 0 <= i < j < |ids| ==> ids[i] != ids[j]
    requires forall k :: 0 <= k < |ids| ==>
      && ids[k] in views && Completes(views[ids[k]])
      && views[ids[k]].cb == Some(TestFiber(lo + k))
    ensures Pass(ids, views).Some?
    ensures Pass(ids, views).value.out == seq(|ids|, k => lo + k)
    ensures forall k :: 0 <= k < |ids| ==> Pass(ids, views).value.views[ids[k]].state == Term
  {
    TestOutputs(ids, views, lo);
    InSubmissionOrder(ids, views);
  }

  /** The ids of a queue of fibers, in queue order. */
  function Ids(fs: seq<Fiber>): seq<nat>
  {
    seq(|fs|, k requires 0 <= k < |fs| => fs[k].id)
  }

  /** The thread after some turns of run: its fibers and its output are as p says. */
  ghost predicate After(t: Thread, o: seq<int>, p: PassResult)
    reads t, t.created
  {
    t.Valid() && t.main != null && t.current == t.main && t.Fibers() == p.views && t.output == o + p.out
  }

  /** One turn of run: task->resume() from the main fiber, seen as one Next step. */
  method Turn(t: Thread, tasks: seq<Fiber>, i: nat, ghost ids: seq<nat>, ghost views: map<nat, FiberValue>, ghost trace: seq<PassResult>, ghost o: seq<int>)
    requires i < |tasks| && ids == Ids(tasks) && tasks[i] in t.created
    requires IsTrace(ids, views, trace) && i + 1 < |trace| && After(t, o, trace[i])
    modifies t, tasks[i]
    ensures After(t, o, trace[i + 1]) && SameFibers(t)
  {
    assert ids[i] == tasks[i].id;
    tasks[i].Resume(t);
  }

  /** The loop of run, step by step: after i turns the thread is as trace[i] says. */
  method ResumeEach(t: Thread, tasks: seq<Fiber>, ghost ids: seq<nat>, ghost trace: seq<PassResult>)
    requires ids == Ids(tasks) && (forall k :: 0 <= k < |tasks| ==> tasks[k] in t.created)
    requires IsTrace(ids, t.Fibers(), trace) && |trace| == |tasks| + 1 && After(t, t.output, trace[0])
    modifies t, tasks
    ensures After(t, old(t.output), trace[|tasks|]) && SameFibers(t)
  {
    ghost var views := t.Fibers();
    var i := 0;
    while i < |tasks|
      invariant 0 <= i <= |tasks|
      invariant SameFibers(t) && After(t, old(t.output), trace[i])
    {
      Turn(t, tasks, i, ids, views, trace, old(t.output));
      i := i + 1;
    }
  }

  /** The loop of run: every task resumed once, in queue order, as Pass says. */
  method ResumeAll(t: Thread, tasks: seq<Fiber>)
    requires t.Valid() && t.main != null && t.current == t.main
    requires forall k :: 0 <= k < |tasks| ==> tasks[k] in t.created
    requires Pass(Ids(tasks), t.Fibers()).Some?
    modifies t, tasks
    ensures t.Valid() && SameFibers(t) && t.current == t.main
    ensures t.Fibers() == Pass(Ids(tasks), old(t.Fibers())).value.views
    ensures t.output == old(t.output) + Pass(Ids(tasks), old(t.Fibers())).value.out
  {
    ghost var ids := Ids(tasks);
    ghost var trace := Unroll(ids, t.Fibers(), |ids|);
    ResumeEach(t, tasks, ids, trace);
  }

  /** Scheduler: a queue of fibers, resumed first come, first served. */
  class Scheduler {
    var tasks: seq<Fiber>  // m_tasks

    constructor ()
      ensures tasks == []
    {
      tasks := [];
    }

    /** schedule: appends the task; earlier entries stay as they are. */
    method Schedule(task: Fiber)
      modifies this
      ensures tasks == old(tasks) + [task]
    {
      tasks := tasks + [task];
    }

    /**
     * run: resumes every queued fiber once, in submission order, then
     * empties the queue. Each task must be READY when its turn comes. The
     * fibers end as Pass says, and the output grows by what Pass records.
     */
    method Run(t: Thread)
      requires t.Valid() && t.main != null && t.current == t.main
      requires forall k :: 0 <= k < |tasks| ==> tasks[k] in t.created
      requires Pass(Ids(tasks), t.Fibers()).Some?
      modifies this, t, tasks
      ensures tasks == []
      ensures t.Valid() && SameFibers(t) && t.current == t.main
      ensures t.Fibers() == Pass(Ids(old(tasks)), old(t.Fibers())).value.views
      ensures t.output == old(t.output) + Pass(Ids(old(tasks)), old(t.Fibers())).value.out
    {
      ResumeAll(t, tasks);
      tasks := [];
    }
  }

  /**
   * The for loop of main: n fibers, the i-th running test_fiber(i), each
   * created and handed to schedule. They get the next ids and stacks, in
   * order, and start READY at their entry point.
   */
  method ScheduleTests(t: Thread, sc: Scheduler, n: nat)
    requires t.Valid() && t.main != null && t.current == t.main && t.created == [t.main]
    requires t.nextBlock == 0 && sc.tasks == []
    modifies t, sc
    ensures t.Valid() && t.main == old(t.main) && t.current == t.main && t.output == old(t.output)
    ensures t.created == [t.main] + sc.tasks && |sc.tasks| == n
    ensures forall k {:trigger sc.tasks[k]} :: 0 <= k < n ==>
      && fresh(sc.tasks[k])
      && sc.tasks[k].Value() == FiberValue(k + 1, Ready, Block(k), DefaultStackSize, Some(TestFiber(k)), OnStack(k, DefaultStackSize, Entry))
  {
    var i := 0;
    while i < n
      invariant 0 <= i <= n
      invariant t.Valid() && t.main == old(t.main) && t.current == t.main && t.output == old(t.output)
      invariant t.nextBlock == i && t.nextId == i + 1 && t.created == [t.main] + sc.tasks
      invariant |sc.tasks| == i
      invariant forall k {:trigger sc.tasks[k]} :: 0 <= k < i ==>
        && fresh(sc.tasks[k])
        && sc.tasks[k].Value() == FiberValue(k + 1, Ready, Block(k), DefaultStackSize, Some(TestFiber(k)), OnStack(k, DefaultStackSize, Entry))
    {
      var fiber := new Fiber(t, TestFiber(i));
      sc.Schedule(fiber);
      i := i + 1;
    }
  }

  /** The queue main builds, as run sees it: test_fiber(0), ..., test_fiber(n - 1) write 0, ..., n - 1 and end TERM. */
  lemma QueuedTests(t: Thread, workers: seq<Fiber>)
    requires t.Valid() && t.created == [t.main] + workers
    requires forall k {:trigger workers[k]} :: 0 <= k < |workers| ==>
      workers[k].Value() == FiberValue(k + 1, Ready, Block(k), DefaultStackSize, Some(TestFiber(k)), OnStack(k, DefaultStackSize, Entry))
    ensures forall f :: f in Ids(workers) ==> f in t.Fibers()
    ensures Pass(Ids(workers), t.Fibers()).Some?
    ensures Pass(Ids(workers), t.Fibers()).value.out == seq(|workers|, k => k)
    ensures forall k :: 0 <= k < |workers| ==> Pass(Ids(workers), t.Fibers()).value.views[Ids(workers)[k]].state == Term
  {
    var ids := Ids(workers);
    var views := t.Fibers();
    forall k | 0 <= k < |ids|
      ensures ids[k] == k + 1 && ids[k] in views && Completes(views[ids[k]]) && views[ids[k]].cb == Some(TestFiber(0 + k))
    {
      assert t.created[k + 1] == workers[k];
    }
    assert forall i, j :: 0 <= i < j < |ids| ==> ids[i] != ids[j];
    TestPass(ids, views, 0);
  }

  /** After run, each queued worker's own state is the one its id maps to. */
  lemma WorkersEnd(t: Thread, workers: seq<Fiber>, views: map<nat, FiberValue>)
    requires t.created == [t.main] + workers && t.Fibers() == views
    requires forall k :: 0 <= k < |workers| ==> workers[k].id == k + 1
    requires forall k :: 0 <= k < |workers| ==> Ids(workers)[k] in views && views[Ids(workers)[k]].state == Term
    ensures forall k :: 0 <= k < |workers| ==> workers[k].state == Term
  {
    forall k | 0 <= k < |workers| ensures workers[k].state == Term {
      assert Ids(workers)[k] == k + 1;
      assert t.created[k + 1] == workers[k];
      assert views[k + 1] == workers[k].Value();
    }
  }

  /**
   * sc.run() in main, on the queue the for loop built: the output is
   * 0, 1, ..., n - 1 in order, and every worker ends TERM.
   */
  method RunTests(t: Thread, sc: Scheduler) returns (workers: seq<Fiber>)
    requires t.Valid() && t.main != null && t.current == t.main && t.created == [t.main] + sc.tasks
    requires forall k {:trigger sc.tasks[k]} :: 0 <= k < |sc.tasks| ==>
      sc.tasks[k].Value() == FiberValue(k + 1, Ready, Block(k), DefaultStackSize, Some(TestFiber(k)), OnStack(k, DefaultStackSize, Entry))
    modifies t, sc, sc.tasks
    ensures workers == old(sc.tasks) && sc.tasks == []
    ensures t.output == old(t.output) + seq(|workers|, k => k)
    ensures forall k :: 0 <= k < |workers| ==> workers[k].state == Term
  {
    workers := sc.tasks;
    QueuedTests(t, workers);
    ghost var r := Pass(Ids(workers), t.Fibers()).value;
    sc.Run(t);
    WorkersEnd(t, workers, r.views);
  }

  /**
   * main of scheduler_test.cpp: create the main fiber, schedule 20 fibers
   * writing 0..19, run. The main fiber has id 0 and the workers, in
   * submission order, ids 1..20; the output is 0, 1, ..., 19 in order, and
   * every worker ends TERM.
   */
  method SchedulerTest() returns (mainId: nat, workers: seq<Fiber>, output: seq<int>)
    ensures mainId == 0
    ensures |workers| == 20
    ensures forall k :: 0 <= k < 20 ==> workers[k].id == k + 1 && workers[k].state == Term
    ensures output == seq(20, k => k)
  {
    var t := new Thread();
    var m := Fiber.GetThis(t);
    mainId := m.GetId();
    var sc := new Scheduler();
    ScheduleTests(t, sc, 20);
    workers := RunTests(t, sc);
    output := t.output;
  }
}
