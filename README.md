# Fibers and a first-come-first-served scheduler, in Dafny

This project models the asymmetric fiber (stackful coroutine) core of
`first_example/`:

- the `Fiber` class and its lifecycle READY ⇄ RUNNING → TERM, reset back to READY;
- the per-thread bookkeeping the fibers update: the current fiber (`t_fiber`),
  the main fiber (`t_thread_fiber`), the id counter (`s_fiber_id`) and the
  fiber counter (`s_fiber_count`);
- the `Scheduler` of `scheduler_test.cpp`, which queues fibers and resumes each
  of them once, in submission order;
- the test driver `main`, which schedules 20 fibers that write 0..19.

Files:

- `fiber_state.dfy` (module `FiberState`) holds the value-level view of one
  fiber. `FiberValue` lists its fields. `Wellformed` gives the shapes a fiber
  takes between context switches. `Run` and `Activate` say what one resume does
  to a fiber, up to the moment control is back on the main fiber. `Recycle` is
  reset. `Resumes` is n resumes in a row. The lemmas about these functions are
  here.
- `coroutine.dfy` (module `Coroutine`) holds the classes. `Thread` is the
  thread-locals of one OS thread as one object; it also keeps a ghost registry
  of every fiber constructed and the owner of each stack block. `Fiber` has the
  fields of the C++ class and its methods. Each method is proved against the
  functions of `FiberState`. The registry invariant `Thread.Valid` is
  established by the thread constructor and kept by the worker constructor,
  `GetThis`, `Resume` and `Reset`, and by `ResumeAll` and `Scheduler.Run` in
  `scheduler.dfy`. The steps that run between two switches (`SwapIn`,
  `MainFunc`, `RunSlice`, `Complete`, `Yield`), `SetThis` and `ThreadMain` do
  not promise it; `Resume`, which calls the first five, proves it again.
- `scheduler.dfy` (module `Scheduling`) holds the scheduler. `Pass` is a
  specification of one `run` over the fibers' values, keyed by fiber id. The
  lemmas about `Pass` state the ordering and rejection properties. The class
  `Scheduler` is proved against `Pass`. `SchedulerTest` is `main` of the test.

How the switch is modelled. `swapcontext` has no Dafny counterpart. Within one
OS thread control passes strictly back and forth between the main fiber and one
worker, so a switch into a worker is modelled as a call of the code that runs on
the worker, and the worker's `yield` back to the main fiber is the return of
that call.

- A fiber's context (`m_ctx`) is an opaque value. It is either the thread's own
  flow (the main fiber) or a context bound to the fiber's stack block. In the
  second case it records the point where the worker continues: its entry
  (`MainFunc`), a yield inside its callback, or the final yield of `MainFunc`.
- A callback is described by what it does. It writes a sequence of slices and
  yields between consecutive slices. `test_fiber(i)` writes `[i]` once. Writing
  to `std::cout` is modelled as appending to `Thread.output`.

Where the code and the design description differ, the model follows the code:

- The worker constructor ignores its `stacksize` argument and always allocates
  128000 bytes (`first_example/coroutine.cpp:111`).
- The main fiber is RUNNING from `GetThis` on. `resume` is called from the
  main fiber and `yield` only on a worker (`first_example/coroutine.cpp:134`,
  `:150`), so neither changes the main fiber's state. `Thread.Valid` states
  that the main fiber is RUNNING and that no fiber other than the main and the
  current one is RUNNING. So while a worker runs, two fibers of the thread are
  RUNNING, not at most one.
- `MainFunc` clears the callback after it has returned, not when it starts.
- The destructor is empty, so `s_fiber_count` is never decremented and a stack
  is never freed. In the model `liveCount` only grows.
- The main fiber takes its id from the same counter as the workers. In the test
  the main fiber gets id 0 and the workers get 1..20.

## Model

| member | source | states |
|---|---|---|
| FiberState.Transition | first_example/coroutine.h:18-25 | The lifecycle READY ⇄ RUNNING → TERM, plus reset's TERM → READY. No transition keeps the state, TERM is entered only from RUNNING, and READY is left only for RUNNING. |
| FiberState.Finished | first_example/coroutine.cpp:179-186 | After the callback returns, a well-formed RUNNING worker has its callback cleared, becomes TERM by an allowed transition, and is saved at the final yield, so it cannot be continued. It stays well formed and keeps its id, stack and stack size. |
| FiberState.Run | first_example/coroutine.cpp:171-186 | Once control reaches a RUNNING worker, it records the slice it continues from. It then yields READY, saving the point after that slice, or, after its last slice, clears its callback, becomes TERM and yields for the last time. Id, stack and stack size never change, and well-formedness is kept. |
| FiberState.Activate | first_example/coroutine.cpp:136-148 | resume of a READY fiber: it becomes RUNNING and runs as Run says. A worker ends READY or TERM. The main fiber, which has no stack, just becomes RUNNING and records nothing. |
| FiberState.Recycle | first_example/coroutine.cpp:190-207 | reset of a TERM worker: it is READY, holds the new callback, and has a context bound to MainFunc on the same stack. Its id, stack and stack size are unchanged, and the step TERM → READY is an allowed transition. |
| FiberState.RunsOnce | first_example/coroutine.cpp:171-186 | A worker's callback runs exactly once. Fewer resumes than it has slices left leave it READY. Exactly that many record the rest of its work, in order, and end TERM. One resume more is rejected by resume's READY assert. |
| FiberState.SingleTurn | first_example/coroutine.cpp:177-186 | A worker at its entry point whose callback never yields completes in one resume: it records the callback's whole work and ends TERM. |
| FiberState.ResetRoundTrip | first_example/coroutine.cpp:190-207 | After reset, resuming the fiber as often as the new callback needs runs that callback once, completely. It leaves the fiber exactly as it was before the reset (same stack, TERM). A further resume is rejected. |
| Coroutine.Thread.constructor | first_example/coroutine.cpp:42-52 | The thread-locals start with no current fiber, no main fiber, both counters at 0, and no output. The registry invariant holds. |
| Coroutine.IdsDistinct | first_example/coroutine.cpp:97 | Two different fibers of a thread never have the same id. |
| Coroutine.BlocksDistinct | first_example/coroutine.cpp:111-112 | Two different workers never share a stack block. |
| Coroutine.Fiber.GetId | first_example/coroutine.h:53 | getId returns the fiber's id and reads nothing else. |
| Coroutine.Fiber.GetState | first_example/coroutine.h:56 | getState returns the fiber's state and reads nothing else. |
| Coroutine.Fiber.ThreadMain | first_example/coroutine.cpp:84-100 | Fiber(): the new fiber becomes current. It is RUNNING, has a native context, and has the next id. It keeps the default null stack, stack size 0 and no callback. Both counters grow by one and the fiber joins the registry. |
| Coroutine.Fiber.constructor | first_example/coroutine.cpp:103-130 | The worker constructor takes the next id, which is larger than every earlier fiber's, and counts itself. It gets a fresh block of 128000 whatever stacksize says, a context bound to MainFunc on that block, and the callback. It stays READY, the current and main fibers are unchanged, and the registry invariant is kept. |
| Coroutine.Fiber.SetThis | first_example/coroutine.cpp:55-58 | The given fiber becomes the thread's current fiber; nothing else changes. |
| Coroutine.Fiber.GetThis | first_example/coroutine.cpp:61-79 | With a current fiber, it returns that fiber and changes nothing, so later calls return the same fiber. Without one, it creates the main fiber, RUNNING, without a stack, as both current and main, and keeps the registry invariant. |
| Coroutine.Fiber.Resume | first_example/coroutine.cpp:136-148 | resume needs a READY fiber and a main fiber that is current. Afterwards the fiber is as Activate says, the main fiber is current again, and no other fiber has changed. The output grows by what the fiber recorded. The registry invariant is kept. |
| Coroutine.Fiber.SwapIn | first_example/coroutine.cpp:143-147 | The switch into the fiber's context: the fiber ends as Run says, control is back on the main fiber, and the output grows by Run's record. |
| Coroutine.Fiber.Yield | first_example/coroutine.cpp:150-168 | yield is called on a worker, which has a stack, and needs RUNNING or TERM. Afterwards the main fiber is current and the state is READY, or still TERM if it was TERM. The context saves the point where the fiber continues. |
| Coroutine.Fiber.RunSlice | first_example/coroutine.cpp:177 | The callback at work from slice k records that slice. It returns to MainFunc exactly when it was the last slice; otherwise it yields READY and saves slice k + 1 as the next point. |
| Coroutine.Fiber.Complete | first_example/coroutine.cpp:179-186 | The tail of MainFunc: the callback is cleared, the fiber is TERM, its context is saved at the final yield, and the main fiber is current. |
| Coroutine.Fiber.MainFunc | first_example/coroutine.cpp:171-187 | MainFunc runs the current fiber's callback from its start and then completes it. The fiber ends as Run says, and the main fiber is current again. |
| Coroutine.Fiber.Reset | first_example/coroutine.cpp:190-208 | reset needs a stack and TERM, which rules out the main fiber since it has no stack. Afterwards the fiber is as Recycle says and the registry invariant is kept. |
| Scheduling.Next | first_example/scheduler_test.cpp:26-27 | One turn resumes one fiber. No fiber is added or dropped, every other fiber is unchanged, and the output so far is kept as a prefix. |
| Scheduling.Pass | first_example/scheduler_test.cpp:21-29 | A successful run neither drops nor adds a fiber: the set of fiber ids is kept. |
| Scheduling.Untouched | first_example/scheduler_test.cpp:21-29 | The first n turns of run leave every fiber outside the first n tasks as it was; so a pass changes no fiber that is not queued. |
| Scheduling.PassUpTo | first_example/scheduler_test.cpp:21-29 | The first n turns of run keep the set of fiber ids. |
| Scheduling.Unroll | first_example/scheduler_test.cpp:21-29 | A pass that gets through n turns has a trace of n + 1 states. Each turn finds its task READY, and the last state is the pass's result. |
| Scheduling.Rejected | first_example/coroutine.cpp:138 | Once a turn fails resume's READY assert, every later prefix of the pass fails too. |
| Scheduling.InOrderUpTo | first_example/scheduler_test.cpp:23-29 | Take distinct tasks that each complete in one resume. The first n turns reject none of them. They record the first n callbacks' work whole and in submission order, and finish exactly the first n tasks; every other fiber is unchanged. |
| Scheduling.InSubmissionOrder | first_example/scheduler_test.cpp:23-29 | run over distinct tasks that each complete in one resume succeeds. The callbacks' work appears whole, without interleaving, in submission order. Every task ends TERM, and no other fiber changes. |
| Scheduling.StaysTerm | first_example/coroutine.cpp:138 | A fiber that is TERM after m turns stays TERM for the rest of the pass, and it is not queued again later in a pass that succeeds. |
| Scheduling.TermRejected | first_example/scheduler_test.cpp:27 | Queuing a fiber that is already TERM makes run fail resume's assert. |
| Scheduling.OnlyFinished | first_example/scheduler_test.cpp:23-29 | While every task completes in one resume, each fiber is either as it was or finished. |
| Scheduling.QueuedTwice | first_example/scheduler_test.cpp:27 | A fiber queued twice whose callback completes on its first turn is not READY on its second turn, so run fails resume's assert. |
| Scheduling.TestFiber | first_example/scheduler_test.cpp:37-40 | test_fiber(i), bound as a callback, writes exactly i and needs one resume to finish. |
| Scheduling.TestOutputs | first_example/scheduler_test.cpp:37-40 | Tasks running test_fiber(lo), test_fiber(lo + 1), ... write lo, lo + 1, ... in that order. |
| Scheduling.TestPass | first_example/scheduler_test.cpp:51-59 | run over distinct fibers created for test_fiber(lo), test_fiber(lo + 1), ... succeeds. It writes lo, lo + 1, ... in order, and every one of them ends TERM. |
| Scheduling.Turn | first_example/scheduler_test.cpp:26-27 | One turn of run on the objects does what one Next step of Pass does on the values. |
| Scheduling.ResumeEach | first_example/scheduler_test.cpp:22-29 | After the loop has resumed every task once, in queue order, the thread is in the pass's final state. |
| Scheduling.ResumeAll | first_example/scheduler_test.cpp:21-29 | The loop of run leaves the fibers and the output exactly as Pass says, with the registry invariant kept and the main fiber current. |
| Scheduling.Scheduler.constructor | first_example/scheduler_test.cpp:34 | A new scheduler has an empty queue. |
| Scheduling.Scheduler.Schedule | first_example/scheduler_test.cpp:11-14 | schedule appends the task at the end of the queue and leaves earlier entries unchanged. |
| Scheduling.Scheduler.Run | first_example/scheduler_test.cpp:17-31 | run needs every task to be READY at its turn, that is, Pass succeeds. Afterwards the fibers are as Pass says and the output grows by what Pass records. The queue is empty, the registry invariant holds, and the main fiber is current. |
| Scheduling.ScheduleTests | first_example/scheduler_test.cpp:51-56 | The for loop of main queues n new fibers in order. The k-th has id k + 1, stack block k, callback test_fiber(k), and is READY at its entry point. |
| Scheduling.QueuedTests | first_example/scheduler_test.cpp:51-59 | The queue main builds passes run: it writes 0, 1, ..., n - 1 and every task ends TERM. |
| Scheduling.WorkersEnd | first_example/scheduler_test.cpp:59 | After run, each queued fiber object is in the state its id has in the pass's result. |
| Scheduling.RunTests | first_example/scheduler_test.cpp:59 | sc.run() on the queue main built writes 0, 1, ..., n - 1 in order, leaves every worker TERM and empties the queue. |
| Scheduling.SchedulerTest | first_example/scheduler_test.cpp:42-62 | main: the main fiber has id 0 and the 20 workers ids 1..20 in submission order. The output is 0, 1, ..., 19 in order, and every worker ends TERM. |

## Left out

- `getcontext`, `makecontext`, `swapcontext` and the `ucontext_t` fields are platform register-context primitives. The context is an opaque value, and a switch is a call and its return.
- The `exit(0)` taken when a context primitive fails is not modelled: the primitives cannot fail in the model.
- `std::shared_ptr`, `shared_from_this` and the manual `curr.reset()` in `MainFunc` are reference counting. Fibers are plain object references.
- `thread_local` and `std::atomic`: the model has one thread, whose thread-locals are one `Thread` object. Cross-thread behaviour is not modelled.
- `malloc` hands out a fresh block number from a counter (`Thread.nextBlock`). There is no buffer content, and allocation never fails.
- `std::cout` and `std::cerr` logging is not modelled. The printing of `test_fiber` is modelled as appending to `Thread.output`.
- `TotalFibers` and `GetFiberId` are declared but never defined, so there is nothing to model.
- The destructor is empty; nothing is freed or decremented.
- `m_runInScheduler` is never assigned. The worker constructor takes `runInScheduler` and ignores it.
- An empty `std::function` callback, which would throw when called, is not modelled: every callback in the model is a value.
- `m_id` is `uint64_t`, the counters are `std::atomic<int>` and `m_stacksize` is `uint32_t`. The model uses unbounded naturals, so counter wrap-around is not modelled.
- Coroutine.Fiber.Resume: also requires that the main fiber is current, and Coroutine.Fiber.Yield that the fiber is current and is a worker with a stack. The code comments require this (`first_example/coroutine.cpp:134`, `:150`), but the code does not check it. Calls from elsewhere are not modelled.
- Coroutine.Fiber.SetThis: takes a non-null fiber; every caller in the source passes one.
- Scheduling.Scheduler.Run: is proved for one run on one thread from the main fiber. A callback that itself calls run or resume, which would nest switches, is not modelled.
