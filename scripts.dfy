/** Caller code run against one handle, and the meaning of the handle
    operations it calls, as functions over the state they touch.

    Handlers, setup functions and mixins are opaque caller code. Here each is
    a `Script`: the handle operations it calls, in order, and how it ends. A
    step that throws ends the script with that error, as an uncaught
    exception ends a JavaScript function. */
module Scripts {
  import opened Values
  import opened Patterns
  import opened Reducers

  /** The two call shapes of `reduce`: `reduce(fn)` and `reduce(event, fn)`. */
  datatype ReduceArgs =
    | Inferred(inferredReducer: Value -> Value)
    | Labelled(event: Option<string>, labelledReducer: Value -> Value)

  datatype Step =
    | On(name: string, handler: Script)
    | Init(initial: Value)
    | Reduce(args: ReduceArgs)
    | Trigger(trigger: string)
    | Setup(fn: Script)
    | Use(mixin: Script)

  datatype Script = Done(result: Outcome<Value>) | Then(step: Step, rest: Script)

  /** What the operations of one handle read and write: its handler table and
      current-event slot, and the module's initial-state table and store. */
  datatype Env = Env(
    handlers: map<string, Script>,
    current: Option<string>,
    initial: map<string, Value>,
    store: Option<Store>)

  /** The event name `reduce` uses: the current event for `reduce(fn)`, the
      given one for `reduce(event, fn)`. */
  function EventOf(args: ReduceArgs, current: Option<string>): Option<string> {
    match args
    case Inferred(_) => current
    case Labelled(e, _) => e
  }

  function ReducerOf(args: ReduceArgs): Value -> Value {
    match args
    case Inferred(f) => f
    case Labelled(_, f) => f
  }

  /** `reduce` on the handle of namespace `ns`. */
  function ReduceSpec(ns: string, env: Env, args: ReduceArgs): (Outcome<Value>, Env) {
    if env.store.None? then (Throw(NoStoreAttached), env)
    else
      var action := Action(ActionType(ns, EventOf(args, env.current)), ReducerOf(args));
      (Return(Undefined), env.(store := Some(Dispatch(env.store.value, action))))
  }

  /** `trigger(name)`, i.e. the method `on(name, handler)` installed: it sets
      the current event to `name`, runs the handler and puts back the previous
      current event whether the handler returns or throws. `fuel` is the
      call-stack depth left. */
  function TriggerSpec(ns: string, env: Env, name: string, fuel: nat): (Outcome<Value>, Env)
    decreases fuel, 0
  {
    if name !in env.handlers then (Throw(NoSuchHandler(name)), env)
    else if fuel == 0 then (Throw(StackExhausted), env)
    else
      var (out, after) := RunSpec(ns, env.(current := Some(name)), env.handlers[name], fuel - 1);
      (out, after.(current := env.current))
  }

  /** One handle operation called by caller code; its return value is
      not used, only whether it threw. */
  function StepSpec(ns: string, env: Env, step: Step, fuel: nat): (Outcome<Value>, Env)
    decreases fuel, 1, step
  {
    match step
    case On(name, h) => (Return(Undefined), env.(handlers := env.handlers[name := h]))
    case Init(v) => (Return(Undefined), env.(initial := env.initial[ns := v]))
    case Reduce(args) => ReduceSpec(ns, env, args)
    case Trigger(name) => TriggerSpec(ns, env, name, fuel)
    case Setup(fn) => RunSpec(ns, env, fn, fuel)
    case Use(mixin) => RunSpec(ns, env, mixin, fuel)
  }

  /** Caller code `s` run against the handle of namespace `ns`. */
  function RunSpec(ns: string, env: Env, s: Script, fuel: nat): (Outcome<Value>, Env)
    decreases fuel, 1, s
  {
    match s
    case Done(out) => (out, env)
    case Then(step, rest) =>
      var (out, after) := StepSpec(ns, env, step, fuel);
      if out.Throw? then (out, after) else RunSpec(ns, after, rest, fuel)
  }

  /** Caller code, however deeply it nests triggers, leaves the current-event
      slot as it found it: the single slot behaves like a stack because each
      installed method keeps the previous value in a local. */
  lemma {:induction false} RunKeepsCurrent(ns: string, env: Env, s: Script, fuel: nat)
    ensures RunSpec(ns, env, s, fuel).1.current == env.current
    decreases fuel, 1, s
  {
    match s
    case Done(_) =>
    case Then(step, rest) =>
      StepKeepsCurrent(ns, env, step, fuel);
      var (out, after) := StepSpec(ns, env, step, fuel);
      if !out.Throw? {
        RunKeepsCurrent(ns, after, rest, fuel);
      }
  }

  lemma {:induction false} StepKeepsCurrent(ns: string, env: Env, step: Step, fuel: nat)
    ensures StepSpec(ns, env, step, fuel).1.current == env.current
    decreases fuel, 1, step
  {
    match step
    case Setup(fn) => RunKeepsCurrent(ns, env, fn, fuel);
    case Use(mixin) => RunKeepsCurrent(ns, env, mixin, fuel);
    case Trigger(name) => TriggerKeepsCurrent(ns, env, name, fuel);
    case _ =>
  }

  lemma {:induction false} TriggerKeepsCurrent(ns: string, env: Env, name: string, fuel: nat)
    ensures TriggerSpec(ns, env, name, fuel).1.current == env.current
    decreases fuel, 0
  {
  }

  /** A handler that dispatches with `reduce(fn)` labels its action with the
      name it was triggered under. */
  lemma TriggerLabelsInferredReduce(ns: string, env: Env, name: string, f: Value -> Value, result: Outcome<Value>, fuel: nat)
    requires name in env.handlers && env.handlers[name] == Then(Reduce(Inferred(f)), Done(result))
    requires env.store.Some? && fuel > 0
    ensures TriggerSpec(ns, env, name, fuel)
         == (result, env.(store := Some(Dispatch(env.store.value, Action(ActionType(ns, Some(name)), f)))))
  {
    var running := env.(current := Some(name));
    var dispatched := running.(store := Some(Dispatch(env.store.value, Action(ActionType(ns, Some(name)), f))));
    assert ReduceSpec(ns, running, Inferred(f)) == (Return(Undefined), dispatched);
    assert RunSpec(ns, dispatched, Done(result), fuel - 1) == (result, dispatched);
    assert RunSpec(ns, running, env.handlers[name], fuel - 1) == (result, dispatched);
  }

  /** Caller code that makes the calls `steps`, in order, and goes on as
      `tail`. */
  function Prefixed(steps: seq<Step>, tail: Script): Script
    decreases |steps|
  {
    if steps == [] then tail else Then(steps[0], Prefixed(steps[1..], tail))
  }

  /** Running `steps` and then `tail` is running `steps` alone and, unless one
      of them threw, `tail` from the state they left. */
  lemma {:induction false} RunPrefixed(ns: string, env: Env, steps: seq<Step>, tail: Script, fuel: nat)
    ensures var (out, mid) := RunSpec(ns, env, Prefixed(steps, Done(Return(Undefined))), fuel);
            RunSpec(ns, env, Prefixed(steps, tail), fuel)
            == if out.Throw? then (out, mid) else RunSpec(ns, mid, tail, fuel)
    decreases |steps|
  {
    if steps != [] {
      var (stepped, after) := StepSpec(ns, env, steps[0], fuel);
      if !stepped.Throw? {
        RunPrefixed(ns, after, steps[1..], tail, fuel);
      }
    }
  }

  /** Whatever handle operations a handler calls before `reduce(fn)` (`on`,
      `init`, `setup`, `use`, nested triggers), as long as they return, the
      action is labelled with the name the handler was triggered under; a
      throw among them is passed on, and the current event is restored in
      every case. */
  lemma TriggerPrefixedReduce(ns: string, env: Env, name: string, steps: seq<Step>, f: Value -> Value, result: Outcome<Value>, fuel: nat)
    requires name in env.handlers
    requires env.handlers[name] == Prefixed(steps, Then(Reduce(Inferred(f)), Done(result)))
    requires fuel > 0
    ensures var (out, mid) := RunSpec(ns, env.(current := Some(name)), Prefixed(steps, Done(Return(Undefined))), fuel - 1);
            TriggerSpec(ns, env, name, fuel)
            == if out.Throw? then (out, mid.(current := env.current))
               else if mid.store.None? then (Throw(NoStoreAttached), mid.(current := env.current))
               else (result, mid.(current := env.current,
                                  store := Some(Dispatch(mid.store.value, Action(ActionType(ns, Some(name)), f)))))
  {
    var running := env.(current := Some(name));
    var tail := Then(Reduce(Inferred(f)), Done(result));
    var (out, mid) := RunSpec(ns, running, Prefixed(steps, Done(Return(Undefined))), fuel - 1);
    RunPrefixed(ns, running, steps, tail, fuel - 1);
    RunKeepsCurrent(ns, running, Prefixed(steps, Done(Return(Undefined))), fuel - 1);
    assert mid.current == Some(name);
    if !out.Throw? && mid.store.Some? {
      var dispatched := mid.(store := Some(Dispatch(mid.store.value, Action(ActionType(ns, Some(name)), f))));
      assert ReduceSpec(ns, mid, Inferred(f)) == (Return(Undefined), dispatched);
      assert RunSpec(ns, mid, tail, fuel - 1) == RunSpec(ns, dispatched, Done(result), fuel - 1);
    }
  }

  /** Nested triggering restores the outer event: after the handler for
      `outer` has triggered `inner` and it returned, `reduce(fn)` still
      labels with `outer`. */
  lemma NestedTriggerKeepsLabel(ns: string, env: Env, outer: string, inner: string, f: Value -> Value, fuel: nat)
    requires outer in env.handlers
    requires env.handlers[outer] == Then(Trigger(inner), Then(Reduce(Inferred(f)), Done(Return(Undefined))))
    requires fuel > 0
    requires TriggerSpec(ns, env.(current := Some(outer)), inner, fuel - 1).0.Return?
    ensures (var mid := TriggerSpec(ns, env.(current := Some(outer)), inner, fuel - 1).1;
             TriggerSpec(ns, env, outer, fuel)
             == (if mid.store.None? then Throw(NoStoreAttached) else Return(Undefined),
                 if mid.store.None? then mid.(current := env.current)
                 else mid.(current := env.current,
                           store := Some(Dispatch(mid.store.value, Action(ActionType(ns, Some(outer)), f))))))
  {
    var running := env.(current := Some(outer));
    var mid := TriggerSpec(ns, running, inner, fuel - 1).1;
    TriggerKeepsCurrent(ns, running, inner, fuel - 1);
    assert mid.current == Some(outer);
    var tail := Then(Reduce(Inferred(f)), Done(Return(Undefined)));
    assert RunSpec(ns, running, env.handlers[outer], fuel - 1) == RunSpec(ns, mid, tail, fuel - 1);
    if mid.store.Some? {
      var dispatched := mid.(store := Some(Dispatch(mid.store.value, Action(ActionType(ns, Some(outer)), f))));
      assert ReduceSpec(ns, mid, Inferred(f)) == (Return(Undefined), dispatched);
      assert RunSpec(ns, mid, tail, fuel - 1) == RunSpec(ns, dispatched, Done(Return(Undefined)), fuel - 1);
    }
  }

  /** Triggering a name never registered throws and changes nothing. */
  lemma TriggerUnregistered(ns: string, env: Env, name: string, fuel: nat)
    requires name !in env.handlers
    ensures TriggerSpec(ns, env, name, fuel) == (Throw(NoSuchHandler(name)), env)
  {
  }

  /** An exception the handler throws, after whatever calls it made first,
      reaches the caller as it was: the state is what those calls left, with
      the current event put back. */
  lemma TriggerRethrows(ns: string, env: Env, name: string, e: Error, fuel: nat)
    requires name in env.handlers && fuel > 0
    requires RunSpec(ns, env.(current := Some(name)), env.handlers[name], fuel - 1).0 == Throw(e)
    ensures TriggerSpec(ns, env, name, fuel)
         == (Throw(e), RunSpec(ns, env.(current := Some(name)), env.handlers[name], fuel - 1).1.(current := env.current))
  {
  }

  /** A handler that makes the calls `steps` and then throws `e`: the caller
      sees `e`, or the error of the first call that threw, and the state
      those calls left, with the current event put back. */
  lemma TriggerPrefixedThrow(ns: string, env: Env, name: string, steps: seq<Step>, e: Error, fuel: nat)
    requires name in env.handlers && env.handlers[name] == Prefixed(steps, Done(Throw(e))) && fuel > 0
    ensures var (out, mid) := RunSpec(ns, env.(current := Some(name)), Prefixed(steps, Done(Return(Undefined))), fuel - 1);
            TriggerSpec(ns, env, name, fuel) == (if out.Throw? then out else Throw(e), mid.(current := env.current))
  {
    RunPrefixed(ns, env.(current := Some(name)), steps, Done(Throw(e)), fuel - 1);
  }

  /** In particular a handler whose whole body is `throw e` leaves the state
      exactly as it was. */
  lemma TriggerThrowLeavesEnv(ns: string, env: Env, name: string, e: Error, fuel: nat)
    requires name in env.handlers && env.handlers[name] == Done(Throw(e)) && fuel > 0
    ensures TriggerSpec(ns, env, name, fuel) == (Throw(e), env)
  {
  }
}
