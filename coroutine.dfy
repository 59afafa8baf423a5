// The Fiber class and the per-thread registry it updates in place
// (first_example/coroutine.h, first_example/coroutine.cpp).
//
// A context switch is modelled as a call: swapcontext into a fiber becomes a
// call of the code that runs on that fiber, and that code's yield, which
// switches back to the main fiber, becomes the return of that call.

module Coroutine {
  import opened FiberState

  /**
   * The thread-local state of one OS thread, as one explicit object:
   * t_fiber, t_thread_fiber, s_fiber_id and s_fiber_count, plus the stack
   * blocks malloc has handed out and the lines the callbacks have written.
   */
  class Thread {
    var current: Fiber?     // t_fiber: the fiber running on this thread
    var main: Fiber?        // t_thread_fiber: this thread's main fiber
    var nextId: nat         // s_fiber_id: the id the next fiber takes
    var liveCount: nat      // s_fiber_count: fibers constructed (never decremented)
    var nextBlock: nat      // malloc: the address of the next fresh stack block
    var output: seq<int>    // what the callbacks have recorded, in order
    ghost var created: seq<Fiber>  // every fiber constructed on this thread, in order
    ghost var owner: map<nat, Fiber>  // the fiber each stack block was handed to

    /**
     * The registry invariant: fiber i of the thread has id i, and every
     * fiber constructed has been counted; every fiber is well formed; each
     * worker owns a block of its own; the main fiber, and no other, has no
     * stack; once there is a main fiber there is a current fiber, and the
     * main fiber is RUNNING; no fiber but the main and the current one is
     * RUNNING.
     */
    ghost predicate Valid()
      reads this, created
    {
      && |created| == nextId
      && liveCount == nextId
      && (forall i :: 0 <= i < |created| ==> created[i].id == i)
      && (forall f :: f in created ==> Registered(f))
      && (main != null ==> main in created && main.stack == Null && current != null && main.state == Running)
      && (current != null ==> current in created)
      && (forall f :: f in created && f.state == Running ==> f == main || f == current)
    }

    /** What the registry invariant asks of one fiber. */
    ghost predicate Registered(f: Fiber)
      reads this, f
    {
      && Wellformed(f.Value())
      && (f.stack.Block? ==> f.stack.addr < nextBlock && f.stack.addr in owner && owner[f.stack.addr] == f)
      && (f.stack.Null? ==> f == main)
    }

    /** The value of every fiber constructed on this thread, keyed by its id. */
    ghost function Fibers(): map<nat, FiberValue>
      reads this, created
    {
      map i | 0 <= i < |created| :: created[i].Value()
    }

    /** A thread before any fiber exists: the thread-locals' initial values. */
    constructor ()
      ensures Valid()
      ensures current == null && main == null
      ensures nextId == 0 && liveCount == 0 && nextBlock == 0 && created == [] && output == []
    {
      current, main := null, null;
      nextId, liveCount, nextBlock := 0, 0, 0;
      output := [];
      created := [];
      owner := map[];
    }
  }

  /** Ids are never shared: fiber i has id i. */
  lemma IdsDistinct(t: Thread, f: Fiber, g: Fiber)
    requires t.Valid() && f in t.created && g in t.created && f != g
    ensures f.id != g.id
  {
    var i :| 0 <= i < |t.created| && t.created[i] == f;
    var j :| 0 <= j < |t.created| && t.created[j] == g;
  }

  /** Stacks are never shared: each block has one owner. */
  lemma BlocksDistinct(t: Thread, f: Fiber, g: Fiber)
    requires t.Valid() && f in t.created && g in t.created && f != g
    requires f.stack.Block? && g.stack.Block?
    ensures f.stack.addr != g.stack.addr
  {
  }

  /** The fibers' set of registry objects stays as it was: no fiber is created or replaced. */
  twostate predicate SameFibers(t: Thread)
    reads t
  {
    && t.main == old(t.main)
    && t.created == old(t.created)
    && t.nextId == old(t.nextId)
    && t.liveCount == old(t.liveCount)
    && t.nextBlock == old(t.nextBlock)
    && t.owner == old(t.owner)
  }

  class Fiber {
    const id: nat              // m_id: set once, by the constructor
    var state: State           // m_state
    const stack: Buffer        // m_stack: set once, by the constructor
    const stackSize: nat       // m_stacksize: set once, by the constructor
    var cb: Option<Callback>   // m_cb
    var ctx: Context           // m_ctx

    function Value(): FiberValue
      reads this
    {
      FiberValue(id, state, stack, stackSize, cb, ctx)
    }

    /** getId */
    function GetId(): (r: nat)
      reads this
      ensures r == Value().id
    {
      id
    }

    /** getState */
    function GetState(): (r: State)
      reads this
      ensures r == Value().state
    {
      state
    }

    /**
     * Fiber(): the main fiber of the thread. Only GetThis calls it. It
     * becomes the current fiber, RUNNING, with a native context; it takes the
     * next id from the same counter as the workers; it keeps the default
     * (null) stack and stack size 0.
     */
    constructor ThreadMain(t: Thread)
      requires t.Valid() && t.current == null
      modifies t
      ensures Value() == Blank.(id := old(t.nextId), state := Running, ctx := Native)
      ensures t.current == this && t.main == old(t.main)
      ensures t.nextId == old(t.nextId) + 1 && t.liveCount == old(t.liveCount) + 1
      ensures t.created == old(t.created) + [this]
      ensures t.nextBlock == old(t.nextBlock) && t.output == old(t.output) && t.owner == old(t.owner)
    {
      id := t.nextId;
      state := Running;
      stack := Blank.stack;
      stackSize := Blank.stackSize;
      cb := Blank.cb;
      ctx := Native;  // getcontext: the thread's own flow
      new;
      SetThis(t, this);
      t.liveCount := t.liveCount + 1;
      t.nextId := t.nextId + 1;
      t.created := t.created + [this];
    }

    /**
     * Fiber(cb, stacksize, run_in_scheduler): a worker. It takes the next id
     * and counts itself; it ignores `stacksize` and allocates a block of
     * DefaultStackSize; its context is bound to MainFunc on that block; its
     * state keeps the default READY.
     */
    constructor (t: Thread, callback: Callback, stacksize: nat := 0, runInScheduler: bool := true)
      requires t.Valid()
      modifies t
      ensures t.Valid()
      ensures id == old(t.nextId) && forall g :: g in old(t.created) ==> g.id < id
      ensures t.nextId == old(t.nextId) + 1 && t.liveCount == old(t.liveCount) + 1
      ensures state == Blank.state && cb == Some(callback)
      ensures stackSize == DefaultStackSize && stack == Block(old(t.nextBlock))
      ensures ctx == OnStack(old(t.nextBlock), DefaultStackSize, Entry)
      ensures t.nextBlock == old(t.nextBlock) + 1
      ensures t.created == old(t.created) + [this]
      ensures t.current == old(t.current) && t.main == old(t.main) && t.output == old(t.output)
    {
      id := t.nextId;
      state := Blank.state;
      cb := Some(callback);
      stackSize := DefaultStackSize;
      stack := Block(t.nextBlock);
      // getcontext, then makecontext(MainFunc) on the new block with no uc_link
      ctx := OnStack(t.nextBlock, DefaultStackSize, Entry);
      new;
      t.nextId := t.nextId + 1;
      t.liveCount := t.liveCount + 1;
      t.owner := t.owner[t.nextBlock := this];
      t.nextBlock := t.nextBlock + 1;
      t.created := t.created + [this];
      forall g | g in t.created ensures t.Registered(g) {
        if g != this {
          assert g in old(t.created) && old(t.Registered(g));
        }
      }
    }

    /** SetThis: records f as the fiber running on the thread. */
    static method SetThis(t: Thread, f: Fiber)
      modifies t`current
      ensures t.current == f
    {
      t.current := f;
    }

    /**
     * GetThis: the current fiber. On a thread with no current fiber it first
     * creates the main fiber, which becomes both current and main.
     */
    static method GetThis(t: Thread) returns (f: Fiber)
      requires t.current == null ==> t.Valid()
      modifies t
      ensures f == t.current
      ensures old(t.current) != null ==> f == old(t.current) && unchanged(t)
      ensures old(t.current) == null ==>
        && t.Valid() && fresh(f) && t.main == f && f in t.created
        && f.Value() == Blank.(id := old(t.nextId), state := Running, ctx := Native)
        && t.created == old(t.created) + [f]
        && t.nextId == old(t.nextId) + 1 && t.liveCount == old(t.liveCount) + 1
        && t.nextBlock == old(t.nextBlock) && t.output == old(t.output) && t.owner == old(t.owner)
    {
      if t.current != null {
        return t.current;
      }
      f := new Fiber.ThreadMain(t);
      assert t.current == f;
      t.main := f;
    }

    /**
     * resume, called from the main fiber on a READY fiber: the fiber becomes
     * current and RUNNING, and control passes to its context until it yields
     * or terminates. Afterwards the fiber is as Activate says and the main
     * fiber is current again.
     */
    method Resume(t: Thread)
      requires t.Valid() && this in t.created
      requires state == Ready
      requires t.main != null && t.current == t.main
      modifies this, t
      ensures t.Valid() && SameFibers(t) && t.current == t.main
      ensures Value() == Activate(old(Value())).after
      ensures t.Fibers() == old(t.Fibers())[id := Value()]
      ensures t.output == old(t.output) + Activate(old(Value())).out
    {
      SetThis(t, this);
      state := Running;
      SwapIn(t);
      forall g | g in t.created
        ensures t.Registered(g) && (g.state == Running ==> g == t.main)
      {
        if g != this {
          assert old(t.Registered(g)) && old(g.state) == g.state;
        }
      }
      assert t.Fibers() == old(t.Fibers())[id := Value()];
    }

    /**
     * swapcontext(&t_thread_fiber->m_ctx, &m_ctx) in resume: control passes
     * to this fiber's saved context and comes back when the fiber switches
     * to the main fiber. A native context is the main fiber's own flow, so
     * control simply continues; the fiber ends as Run says.
     */
    method SwapIn(t: Thread)
      requires Wellformed(Value()) && state == Running
      requires t.main != null && t.current == this && (stack.Null? ==> this == t.main)
      modifies this, t
      ensures SameFibers(t) && t.current == t.main
      ensures Value() == Run(old(Value())).after
      ensures t.output == old(t.output) + Run(old(Value())).out
    {
      match ctx {
        case Native =>
        case OnStack(_, _, at) =>
          match at {
            case Entry =>
              MainFunc(t);
            case InCallback(k) =>
              var returned := RunSlice(t, k);
              if returned {
                Complete(t);
              }
            case Exit =>
              assert false;
          }
      }
    }

    /**
     * yield, called by a worker on its own stack while it is RUNNING or TERM
     * (the main fiber never yields to itself): the main fiber becomes
     * current, a RUNNING fiber becomes READY and a TERM fiber stays TERM, and
     * the fiber's context saves the point `here` where it continues when
     * next resumed.
     */
    method Yield(t: Thread, here: Context)
      requires stack.Block? && (state == Running || state == Term)
      requires t.main != null && t.current == this
      modifies this`state, this`ctx, t`current
      ensures t.current == t.main
      ensures state == (if old(state) == Term then Term else Ready)
      ensures ctx == here
    {
      SetThis(t, t.main);
      if state != Term {
        state := Ready;
      }
      // swapcontext(&m_ctx, &t_thread_fiber->m_ctx)
      ctx := here;
    }

    /**
     * The callback at work from slice k: it records that slice; if slices
     * remain it yields to the main fiber, to continue with slice k + 1 when
     * next resumed; otherwise it returns to MainFunc.
     */
    method RunSlice(t: Thread, k: nat) returns (returned: bool)
      requires stack.Block? && state == Running && cb.Some? && ctx.OnStack?
      requires t.main != null && t.current == this
      modifies this`state, this`ctx, t`current, t`output
      ensures t.output == old(t.output) + SliceAt(cb.value, k)
      ensures returned <==> k + 1 >= |cb.value.slices|
      ensures returned ==> state == Running && ctx == old(ctx) && t.current == this
      ensures !returned ==> state == Ready && ctx == old(ctx).(at := InCallback(k + 1)) && t.current == t.main
    {
      t.output := t.output + SliceAt(cb.value, k);
      if k + 1 < |cb.value.slices| {
        Yield(t, ctx.(at := InCallback(k + 1)));
        returned := false;
      } else {
        returned := true;
      }
    }

    /**
     * The tail of MainFunc once the callback has returned: the callback is
     * cleared, the fiber is TERM, and it yields to the main fiber for the
     * last time.
     */
    method Complete(t: Thread)
      requires stack.Block? && state == Running && ctx.OnStack?
      requires t.main != null && t.current == this
      modifies this`cb, this`state, this`ctx, t`current
      ensures cb == None && state == Term && ctx == old(ctx).(at := Exit)
      ensures t.current == t.main
    {
      cb := None;
      state := Term;
      Yield(t, ctx.(at := Exit));
    }

    /**
     * MainFunc, where a worker's context starts: it finds the current fiber,
     * runs its callback, and when the callback returns clears it, marks the
     * fiber TERM and yields. The fiber ends as Run says.
     */
    static method MainFunc(t: Thread)
      requires t.main != null && t.current != null && Wellformed(t.current.Value())
      requires t.current.state == Running && t.current.ctx.OnStack? && t.current.ctx.at == Entry
      modifies t, t.current
      ensures SameFibers(t) && t.current == t.main
      ensures old(t.current).Value() == Run(old(t.current.Value())).after
      ensures t.output == old(t.output) + Run(old(t.current.Value())).out
    {
      var curr := GetThis(t);
      var returned := curr.RunSlice(t, 0);
      if returned {
        curr.Complete(t);
      }
    }

    /**
     * reset: a TERM worker, which still has its stack, gets a new callback
     * and a context bound to MainFunc on the same stack, and is READY again.
     * A main fiber has no stack and cannot be reset.
     */
    method Reset(t: Thread, callback: Callback)
      requires t.Valid() && this in t.created
      requires stack.Block? && state == Term
      modifies this`cb, this`ctx, this`state
      ensures t.Valid()
      ensures Value() == Recycle(old(Value()), callback)
    {
      cb := Some(callback);
      // getcontext, then makecontext(MainFunc) on the same block with no uc_link
      ctx := OnStack(stack.addr, stackSize, Entry);
      state := Ready;
    }
  }
}
