// Value-level view of a fiber: its lifecycle states, its opaque execution
// context, and what one activation (resume ... switch back to main) does to it.
// The classes in coroutine.dfy are proved against these functions.

module FiberState {

  datatype Option<+T> = None | Some(value: T)

  /** Fiber::State: READY <-> RUNNING -> TERM. */
  datatype State = Ready | Running | Term

  /**
   * The state changes the design allows: resume, yield, completion, reset.
   * None leaves a state unchanged, TERM is entered only from RUNNING, and
   * READY is left only for RUNNING.
   */
  predicate Transition(s: State, s': State): (b: bool)
    ensures b ==> s != s'
    ensures b && s' == Term ==> s == Running
    ensures b && s == Ready ==> s' == Running
  {
    || (s == Ready && s' == Running)
    || (s == Running && s' == Ready)
    || (s == Running && s' == Term)
    || (s == Term && s' == Ready)
  }

  /**
   * A fiber's entry callback, seen through what it does: it records
   * slices[0], calls yield, records slices[1], ..., and returns after its
   * last slice. A callback with no slices returns at once.
   */
  datatype Callback = Callback(slices: seq<seq<int>>)

  function Flatten(ss: seq<seq<int>>): seq<int>
  {
    if ss == [] then [] else ss[0] + Flatten(ss[1..])
  }

  /** Everything a callback records when it runs to completion. */
  function Work(c: Callback): seq<int>
  {
    Flatten(c.slices)
  }

  /** The activations a callback needs to complete: one per slice, at least one. */
  function Turns(c: Callback): nat
  {
    if |c.slices| == 0 then 1 else |c.slices|
  }

  /** What the callback records in the activation that starts at slice k. */
  function SliceAt(c: Callback, k: nat): seq<int>
  {
    if k < |c.slices| then c.slices[k] else []
  }

  /** m_stack: null, or the block malloc handed out (its address). */
  datatype Buffer = Null | Block(addr: nat)

  /** Where a worker's saved context continues when control next passes to it. */
  datatype Point =
    | Entry              // bound to MainFunc by makecontext, never yet activated
    | InCallback(next: nat)  // saved by a yield inside the callback; continues with slice `next`
    | Exit               // saved by the final yield of MainFunc

  /**
   * m_ctx as an opaque value: the thread's own flow (the main fiber's
   * context, captured by getcontext), or a context bound to a stack of the
   * given base and size.
   */
  datatype Context = Native | OnStack(sp: nat, size: nat, at: Point)

  /** The fields of one Fiber object. */
  datatype FiberValue = FiberValue(
    id: nat,
    state: State,
    stack: Buffer,
    stackSize: nat,
    cb: Option<Callback>,
    ctx: Context)

  /** Stack size every worker gets. */
  const DefaultStackSize: nat := 128000

  /**
   * The default member initialisers: id 0, stack size 0, READY, no stack,
   * no callback. The context has no initialiser; Native stands for it.
   */
  const Blank: FiberValue := FiberValue(0, Ready, Null, 0, None, Native)

  /** Whether a worker can be continued from point p of callback c. */
  predicate Resumable(p: Point, c: Callback)
  {
    match p
    case Entry => true
    case InCallback(k) => 0 < k < |c.slices|
    case Exit => false
  }

  /** Slice index at which an activation starting from p begins. */
  function Pos(p: Point): nat
  {
    match p
    case InCallback(k) => k
    case _ => 0
  }

  /**
   * The shapes a fiber takes between switches. A fiber without a stack is a
   * main fiber: native context, no callback, never TERM. A worker's context
   * is bound to its own stack; it is TERM exactly when its context is saved
   * at MainFunc's final yield, and then its callback is cleared; otherwise it
   * holds its callback and can be continued.
   */
  predicate Wellformed(v: FiberValue)
  {
    if v.stack.Null? then
      v.ctx == Native && v.cb == None && v.stackSize == 0 && v.state != Term
    else
      && v.ctx.OnStack?
      && v.ctx.sp == v.stack.addr
      && v.ctx.size == v.stackSize
      && (v.state == Term <==> v.ctx.at == Exit)
      && (v.state == Term ==> v.cb == None)
      && (v.state != Term ==> v.cb.Some? && Resumable(v.ctx.at, v.cb.value))
  }

  /**
   * A worker once its callback has returned and MainFunc has yielded for the
   * last time: a well-formed RUNNING worker is TERM, well formed, without a
   * callback, on the same stack, and saved at the exit point, so it cannot
   * be continued.
   */
  function Finished(v: FiberValue): (r: FiberValue)
    ensures r.id == v.id && r.stack == v.stack && r.stackSize == v.stackSize
    ensures Wellformed(v) && v.stack.Block? && v.state == Running ==>
      && Wellformed(r) && r.state == Term && Transition(v.state, r.state)
      && r.cb == None && r.ctx.OnStack? && r.ctx.at == Exit
  {
    match v.ctx
    case Native => v.(state := Term, cb := None)
    case OnStack(sp, size, _) => v.(state := Term, cb := None, ctx := OnStack(sp, size, Exit))
  }

  datatype Outcome = Outcome(after: FiberValue, out: seq<int>)

  /**
   * What a RUNNING fiber does once control has passed to its context, up to
   * the moment control comes back to the main fiber: the fiber afterwards,
   * and what its callback recorded meanwhile. A context that cannot be
   * continued (no callback left) gives control straight back; well-formed
   * RUNNING fibers never have one.
   */
  function Run(v: FiberValue): (r: Outcome)
    ensures r.after.id == v.id && r.after.stack == v.stack && r.after.stackSize == v.stackSize
    ensures Wellformed(v) && v.state == Running ==> Wellformed(r.after)
    ensures v.stack.Null? && Wellformed(v) ==> r == Outcome(v, [])
    ensures v.stack.Block? && Wellformed(v) && v.state == Running ==>
      && Transition(Running, r.after.state) && r.after.state != Running
      && (r.after.state == Term <==> Pos(v.ctx.at) + 1 >= |v.cb.value.slices|)
      && r.out == SliceAt(v.cb.value, Pos(v.ctx.at))
  {
    match v.ctx
    case Native => Outcome(v, [])
    case OnStack(sp, size, at) =>
      match v.cb
      case None => Outcome(v, [])
      case Some(c) =>
        var k := Pos(at);
        if k + 1 < |c.slices| then
          Outcome(v.(state := Ready, ctx := OnStack(sp, size, InCallback(k + 1))), SliceAt(c, k))
        else
          Outcome(Finished(v), SliceAt(c, k))
  }

  /** One resume of a READY fiber: it becomes RUNNING and control passes to it. */
  function Activate(v: FiberValue): (r: Outcome)
    ensures r.after.id == v.id && r.after.stack == v.stack && r.after.stackSize == v.stackSize
    ensures Wellformed(v) && v.state == Ready ==> Wellformed(r.after)
    ensures v.stack.Null? && Wellformed(v) ==> r == Outcome(v.(state := Running), [])
    ensures v.stack.Block? && Wellformed(v) && v.state == Ready ==> r.after.state == Ready || r.after.state == Term
  {
    Run(v.(state := Running))
  }

  /**
   * reset: a TERM worker gets a new callback and a context bound again to
   * MainFunc on the same stack, and becomes READY.
   */
  function Recycle(v: FiberValue, c: Callback): (r: FiberValue)
    requires Wellformed(v) && v.stack.Block? && v.state == Term
    ensures Wellformed(r) && r.state == Ready && Transition(v.state, r.state)
    ensures r.cb == Some(c) && r.ctx == OnStack(v.stack.addr, v.stackSize, Entry)
    ensures r.id == v.id && r.stack == v.stack && r.stackSize == v.stackSize
  {
    v.(cb := Some(c), ctx := OnStack(v.stack.addr, v.stackSize, Entry), state := Ready)
  }

  /**
   * n resumes of the same fiber from the main fiber, one after the other:
   * None when one of them would find the fiber not READY (the assert in
   * resume), otherwise the fiber afterwards and everything recorded.
   */
  function Resumes(v: FiberValue, n: nat): Option<Outcome>
    decreases n
  {
    if n == 0 then Some(Outcome(v, []))
    else if v.state != Ready then None
    else
      var a := Activate(v);
      match Resumes(a.after, n - 1)
      case None => None
      case Some(rest) => Some(Outcome(rest.after, a.out + rest.out))
  }

  lemma FlattenStep(ss: seq<seq<int>>, k: nat)
    requires k < |ss|
    ensures Flatten(ss[k..]) == ss[k] + Flatten(ss[k + 1..])
  {
    assert ss[k..][1..] == ss[k + 1..];
  }

  /** A worker on its last slice: one resume finishes it, a second is rejected. */
  lemma LastTurn(v: FiberValue, n: nat)
    requires Wellformed(v) && v.stack.Block? && v.state == Ready && n > 0
    requires Pos(v.ctx.at) + 1 >= |v.cb.value.slices|
    ensures Resumes(v, n) == if n == 1 then Some(Outcome(Finished(v), Flatten(v.cb.value.slices[Pos(v.ctx.at)..]))) else None
  {
    var c := v.cb.value;
    var k := Pos(v.ctx.at);
    var a := Activate(v);
    assert a.after == Finished(v);
    if k < |c.slices| {
      FlattenStep(c.slices, k);
      assert c.slices[k + 1..] == [];
    }
    assert a.out == Flatten(c.slices[k..]);
    assert Resumes(a.after, n - 1) == if n == 1 then Some(Outcome(a.after, [])) else None;
    assert a.out + [] == a.out;
  }

  /**
   * The callback of a worker runs exactly once: resumed `left` more times
   * the worker records the rest of its callback's work and ends TERM; fewer
   * resumes leave it READY; one resume more is rejected.
   */
  lemma {:induction false} RunsOnce(v: FiberValue, n: nat)
    requires Wellformed(v) && v.stack.Block? && v.state == Ready
    ensures var c := v.cb.value;
            var left := Turns(c) - Pos(v.ctx.at);
            && (n < left ==> Resumes(v, n).Some? && Resumes(v, n).value.after.state == Ready)
            && (n == left ==> Resumes(v, n) == Some(Outcome(Finished(v), Flatten(c.slices[Pos(v.ctx.at)..]))))
            && (n > left ==> Resumes(v, n) == None)
    decreases n
  {
    var c := v.cb.value;
    var k := Pos(v.ctx.at);
    if n > 0 {
      if k + 1 < |c.slices| {
        FlattenStep(c.slices, k);
        RunsOnce(Activate(v).after, n - 1);
      } else {
        LastTurn(v, n);
      }
    }
  }

  /** A worker at its entry point whose callback has at most one slice completes in one resume. */
  lemma SingleTurn(v: FiberValue)
    requires Wellformed(v) && v.stack.Block? && v.state == Ready
    requires v.ctx.at == Entry && |v.cb.value.slices| <= 1
    ensures Activate(v) == Outcome(Finished(v), Work(v.cb.value))
  {
    RunsOnce(v, 1);
    assert v.cb.value.slices[0..] == v.cb.value.slices;
  }

  /**
   * reset round trip: after reset, resuming the fiber as often as the new
   * callback needs runs it once, completely, on the same stack, and leaves
   * the fiber exactly as it was before the reset.
   */
  lemma ResetRoundTrip(v: FiberValue, c: Callback)
    requires Wellformed(v) && v.stack.Block? && v.state == Term
    ensures Resumes(Recycle(v, c), Turns(c)) == Some(Outcome(v, Work(c)))
    ensures Resumes(Recycle(v, c), Turns(c) + 1) == None
  {
    var r := Recycle(v, c);
    RunsOnce(r, Turns(c));
    RunsOnce(r, Turns(c) + 1);
    assert c.slices[0..] == c.slices;
  }
}
