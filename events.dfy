/** The module state of src/index.js and its handles.

    `Registry` holds what the module keeps in module-level variables: the
    namespace table `allEvents`, the table `initialStates` and the `store`
    slot, plus the root handle `globalEvents`. `Handle` is the function
    `createEvents` returns, with the fields the mixin methods update: its
    `currentEvent` slot and, in place of the methods `on` installs as
    properties, an explicit table of handlers. */
module Events {
  import opened Values
  import opened Patterns
  import opened Namespaces
  import opened Reducers
  import opened Scripts

  class Handle {
    const namespace: string
    var currentEvent: Option<string>
    var handlers: map<string, Script>

    /** A handle as `createEvents` makes it: nothing current, no handlers. */
    constructor(ns: string)
      ensures namespace == ns && currentEvent == None && handlers == map[]
    {
      namespace := ns;
      currentEvent := None;
      handlers := map[];
    }

    /** The state the mixin methods of this handle read and write. */
    ghost function EnvIn(reg: Registry): Env
      reads this, reg
    {
      Env(handlers, currentEvent, reg.initialStates, reg.store)
    }

    /** `init(initialState)`: records the default state of this namespace's
        slice and returns the handle. A handle of a falsy namespace has no
        mixin methods, so the call is a TypeError there. */
    method Init(reg: Registry, initial: Value) returns (out: Outcome<Handle>)
      modifies reg
      ensures namespace == "" ==> out == Throw(NotAFunction("init")) && unchanged(reg)
      ensures namespace != "" ==>
        out == Return(this) && reg.initialStates == old(reg.initialStates)[namespace := initial]
      ensures reg.allEvents == old(reg.allEvents) && reg.store == old(reg.store)
      ensures old(reg.Valid()) ==> reg.Valid()
    {
      if namespace == "" {
        return Throw(NotAFunction("init"));
      }
      reg.initialStates := reg.initialStates[namespace := initial];
      out := Return(this);
    }

    /** `on(name, handler)`: installs the handler under `name`, replacing any
        earlier one, and returns the handle. */
    method On(name: string, handler: Script) returns (out: Outcome<Handle>)
      modifies this
      ensures namespace == "" ==> out == Throw(NotAFunction("on")) && unchanged(this)
      ensures namespace != "" ==>
        out == Return(this) && handlers == old(handlers)[name := handler]
      ensures currentEvent == old(currentEvent)
    {
      if namespace == "" {
        return Throw(NotAFunction("on"));
      }
      handlers := handlers[name := handler];
      out := Return(this);
    }

    /** `reduce(event, reducer)`: picks the event name (the current event for
        `reduce(fn)`), builds the action type and dispatches to the store,
        which is a TypeError when no store is attached. */
    method Reduce(reg: Registry, args: ReduceArgs) returns (out: Outcome<Value>)
      modifies reg
      ensures namespace == "" ==> out == Throw(NotAFunction("reduce")) && unchanged(reg)
      ensures namespace != "" ==> (out, EnvIn(reg)) == ReduceSpec(namespace, old(EnvIn(reg)), args)
      ensures reg.allEvents == old(reg.allEvents)
      ensures old(reg.Valid()) ==> reg.Valid()
    {
      if namespace == "" {
        return Throw(NotAFunction("reduce"));
      }
      var event := EventOf(args, currentEvent);
      var actionType := ActionType(namespace, event);
      if reg.store.None? {
        return Throw(NoStoreAttached);
      }
      reg.store := Some(Dispatch(reg.store.value, Action(actionType, ReducerOf(args))));
      out := Return(Undefined);
    }

    /** `trigger(name)`: calls the method `on(name, ...)` installed, which
        sets `currentEvent` to `name` around the handler and restores the
        previous value on return and on throw alike. `fuel` is the call-stack
        depth left. */
    method Trigger(reg: Registry, name: string, fuel: nat) returns (out: Outcome<Value>)
      modifies this, reg
      decreases fuel, 0
      ensures namespace == "" ==> out == Throw(NotAFunction("trigger")) && unchanged(this, reg)
      ensures namespace != "" ==> (out, EnvIn(reg)) == TriggerSpec(namespace, old(EnvIn(reg)), name, fuel)
      ensures reg.allEvents == old(reg.allEvents)
      ensures old(reg.Valid()) ==> reg.Valid()
    {
      if namespace == "" {
        return Throw(NotAFunction("trigger"));
      }
      if name !in handlers {
        return Throw(NoSuchHandler(name));
      }
      if fuel == 0 {
        return Throw(StackExhausted);
      }
      var handler := handlers[name];
      var prev := currentEvent;
      currentEvent := Some(name);
      out := Run(reg, handler, fuel - 1);
      // the `catch` branch and the normal path restore alike
      currentEvent := prev;
    }

    /** `setup(fn)`: runs `fn` against the handle and returns the handle; an
        exception from `fn` propagates. */
    method Setup(reg: Registry, fn: Script, fuel: nat) returns (out: Outcome<Handle>)
      modifies this, reg
      ensures namespace == "" ==> out == Throw(NotAFunction("setup")) && unchanged(this, reg)
      ensures namespace != "" ==>
        var (ran, after) := RunSpec(namespace, old(EnvIn(reg)), fn, fuel);
        EnvIn(reg) == after && out == (if ran.Throw? then Throw(ran.error) else Return(this))
      ensures reg.allEvents == old(reg.allEvents)
      ensures old(reg.Valid()) ==> reg.Valid()
    {
      if namespace == "" {
        return Throw(NotAFunction("setup"));
      }
      var ran := Run(reg, fn, fuel);
      out := if ran.Throw? then Throw(ran.error) else Return(this);
    }

    /** `use(mixin)`: runs the mixin against the handle and returns nothing;
        an exception from the mixin propagates. */
    method Use(reg: Registry, mixin: Script, fuel: nat) returns (out: Outcome<Value>)
      modifies this, reg
      ensures namespace == "" ==> out == Throw(NotAFunction("use")) && unchanged(this, reg)
      ensures namespace != "" ==>
        var (ran, after) := RunSpec(namespace, old(EnvIn(reg)), mixin, fuel);
        EnvIn(reg) == after && out == (if ran.Throw? then ran else Return(Undefined))
      ensures reg.allEvents == old(reg.allEvents)
      ensures old(reg.Valid()) ==> reg.Valid()
    {
      if namespace == "" {
        return Throw(NotAFunction("use"));
      }
      var ran := Run(reg, mixin, fuel);
      out := if ran.Throw? then ran else Return(Undefined);
    }

    /** Caller code (a handler, setup function or mixin) running against the
        handle: each step calls the handle operation it names. */
    method Run(reg: Registry, s: Script, fuel: nat) returns (out: Outcome<Value>)
      requires namespace != ""
      modifies this, reg
      decreases fuel, 1, s
      ensures (out, EnvIn(reg)) == RunSpec(namespace, old(EnvIn(reg)), s, fuel)
      ensures reg.allEvents == old(reg.allEvents)
      ensures old(reg.Valid()) ==> reg.Valid()
    {
      match s
      case Done(result) =>
        out := result;
      case Then(step, rest) =>
        var stepped := Perform(reg, step, fuel);
        if stepped.Throw? {
          out := stepped;
        } else {
          out := Run(reg, rest, fuel);
        }
    }

    method Perform(reg: Registry, step: Step, fuel: nat) returns (out: Outcome<Value>)
      requires namespace != ""
      modifies this, reg
      decreases fuel, 1, step
      ensures (out, EnvIn(reg)) == StepSpec(namespace, old(EnvIn(reg)), step, fuel)
      ensures reg.allEvents == old(reg.allEvents)
      ensures old(reg.Valid()) ==> reg.Valid()
    {
      match step
      case On(name, h) =>
        var self := On(name, h);
        out := Return(Undefined);
      case Init(v) =>
        var self := Init(reg, v);
        out := Return(Undefined);
      case Reduce(args) =>
        out := Reduce(reg, args);
      case Trigger(name) =>
        out := Trigger(reg, name, fuel);
      case Setup(fn) =>
        out := Run(reg, fn, fuel);
      case Use(mixin) =>
        out := Run(reg, mixin, fuel);
    }
  }

  class Registry {
    /** `globalEvents`, the handle of the (falsy) root namespace. */
    const root: Handle
    var allEvents: map<string, Handle>
    var initialStates: map<string, Value>
    var store: Option<Store>

    /** Every cached handle sits under its own, truthy, namespace. */
    ghost predicate Valid()
      reads this
    {
      && root.namespace == ""
      && forall ns :: ns in allEvents ==> ns != "" && allEvents[ns].namespace == ns
    }

    /** The module as loaded: empty tables, no store. */
    constructor()
      ensures Valid() && allEvents == map[] && initialStates == map[] && store == None
      ensures fresh(root) && root.handlers == map[] && root.currentEvent == None
    {
      root := new Handle("");
      allEvents := map[];
      initialStates := map[];
      store := None;
    }

    /** `initialStates[ns]`, undefined when `init` was never called. */
    function InitialOf(ns: string): Value
      reads this
    {
      if ns in initialStates then initialStates[ns] else Undefined
    }

    /** The reducer `getReducer` would compose now. */
    ghost function Snapshot(): Composite
      reads this
    {
      Composite(map ns | ns in allEvents :: InitialOf(ns))
    }

    /** `createEvents(ns)`: a truthy namespace gets its cached handle, or a
        fresh one that is cached; a falsy namespace gets a fresh handle every
        time and is never cached. */
    method CreateEvents(ns: string) returns (h: Handle)
      requires Valid()
      modifies this
      ensures Valid() && h.namespace == ns
      ensures initialStates == old(initialStates) && store == old(store)
      ensures ns != "" && ns in old(allEvents) ==> h == old(allEvents)[ns] && allEvents == old(allEvents)
      ensures ns == "" || ns !in old(allEvents) ==>
        fresh(h) && h.handlers == map[] && h.currentEvent == None
      ensures ns == "" ==> allEvents == old(allEvents)
      ensures ns != "" && ns !in old(allEvents) ==> allEvents == old(allEvents)[ns := h]
    {
      if ns != "" && ns in allEvents {
        return allEvents[ns];
      }
      h := new Handle(ns);
      if ns != "" {
        allEvents := allEvents[ns := h];
      }
    }

    /** Calling handle `parent` with the string `seg`. */
    method Descend(parent: Handle, seg: string) returns (h: Handle)
      requires Valid()
      modifies this
      ensures Valid() && h.namespace == ChildNamespace(parent.namespace, seg)
      ensures initialStates == old(initialStates) && store == old(store)
      ensures h.namespace != "" && h.namespace in old(allEvents) ==>
        h == old(allEvents)[h.namespace] && allEvents == old(allEvents)
      ensures h.namespace == "" || h.namespace !in old(allEvents) ==>
        fresh(h) && h.handlers == map[] && h.currentEvent == None
      ensures h.namespace == "" ==> allEvents == old(allEvents)
      ensures h.namespace != "" && h.namespace !in old(allEvents) ==> allEvents == old(allEvents)[h.namespace := h]
    {
      h := CreateEvents(ChildNamespace(parent.namespace, seg));
    }

    /** `attach(reduxStore)`: overwrites the slot, whatever it held; `None`
        stands for `attach(null)` or `attach()`, which empty it. */
    method Attach(s: Option<Store>)
      modifies this
      ensures store == s
      ensures allEvents == old(allEvents) && initialStates == old(initialStates)
      ensures old(Valid()) ==> Valid()
    {
      store := s;
    }

    /** `detach()`: empties the slot. */
    method Detach()
      modifies this
      ensures store == None
      ensures allEvents == old(allEvents) && initialStates == old(initialStates)
      ensures old(Valid()) ==> Valid()
    {
      store := None;
    }

    /** `getReducer()`: one leaf per namespace now in `allEvents`, each with
        the default state `init` recorded for it so far. */
    method GetReducer() returns (r: Composite)
      ensures r.defaults.Keys == allEvents.Keys
      ensures forall ns :: ns in r.defaults ==> r.defaults[ns] == InitialOf(ns)
    {
      var pending := allEvents.Keys;
      var defaults: map<string, Value> := map[];
      while pending != {}
        invariant pending <= allEvents.Keys
        invariant defaults.Keys == allEvents.Keys - pending
        invariant forall ns :: ns in defaults ==> defaults[ns] == InitialOf(ns)
        decreases pending
      {
        var ns :| ns in pending;
        defaults := defaults[ns := InitialOf(ns)];
        pending := pending - {ns};
      }
      r := Composite(defaults);
    }

    /** Calling a handle with the function `createStore`: throws when a store
        is set; otherwise stores and returns `createStore(getReducer())`. An
        exception from `createStore` propagates before the assignment, so the
        slot stays empty. */
    method CreateStore(createStore: Composite -> Outcome<Store>) returns (out: Outcome<Store>)
      modifies this
      ensures old(store).Some? ==> out == Throw(StoreAlreadyCreated) && store == old(store)
      ensures old(store).None? ==> out == createStore(Snapshot())
      ensures old(store).None? ==> store == (if out.Return? then Some(out.value) else None)
      ensures allEvents == old(allEvents) && initialStates == old(initialStates)
      ensures old(Valid()) ==> Valid()
    {
      if store.Some? {
        return Throw(StoreAlreadyCreated);
      }
      var reducer := GetReducer();
      assert reducer == Snapshot();
      out := createStore(reducer);
      if out.Return? {
        store := Some(out.value);
      }
      assert reducer == Snapshot();
    }
  }
}
