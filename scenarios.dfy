/** Callers of the model, showing what follows from the contracts alone:
    the chain of test/events.test.js, and one namespace's life from `init` to
    a dispatched event. */
module Scenarios {
  import opened Values
  import opened Patterns
  import opened Reducers
  import opened Scripts
  import opened Events

  function SetFoo(n: int): Value -> Value {
    (s: Value) => Obj(map["foo" := Num(n)])
  }

  /** Redux's `createStore`, which does not throw. */
  function ReduxFactory(r: Composite): Outcome<Store> {
    Return(CreateReduxStore(r))
  }

  function TestHandler(): Script {
    Then(Reduce(Inferred(SetFoo(2))), Done(Return(Undefined)))
  }

  /** `events('tests').init(initial).on('test', handler)` on a fresh module,
      asking for `events('tests')` a second time as well. */
  method SetUpTests(initial: Value, handler: Script) returns (reg: Registry, tests: Handle, again: Handle)
    ensures fresh(reg) && fresh(tests) && fresh(reg.root) && reg.Valid()
    ensures again == tests
    ensures tests.namespace == "tests" && tests.currentEvent == None
    ensures tests.handlers == map["test" := handler]
    ensures reg.allEvents == map["tests" := tests]
    ensures reg.initialStates == map["tests" := initial]
    ensures reg.store == None
  {
    reg := new Registry();
    tests := reg.Descend(reg.root, "tests");
    again := reg.Descend(reg.root, "tests");
    var initialised := tests.Init(reg, initial);
    assert initialised == Return(tests);
    var registered := tests.On("test", handler);
    assert registered == Return(tests);
  }

  /** The chain as test/events.test.js writes it: `init({})` and a handler
      that does nothing. */
  method InitializesWithoutError() {
    var reg, tests, again := SetUpTests(Obj(map[]), Done(Return(Undefined)));
    assert tests.handlers == map["test" := Done(Return(Undefined))];
    var fired := tests.Trigger(reg, "test", 8);
    assert fired == Return(Undefined);
  }

  /** The namespace with state `{foo: 1}` and a handler that sets `foo` to 2,
      used by the scenarios below. */
  method SetUpFoo() returns (reg: Registry, tests: Handle)
    ensures fresh(reg) && fresh(tests) && fresh(reg.root) && reg.Valid()
    ensures tests.namespace == "tests" && tests.currentEvent == None
    ensures tests.handlers == map["test" := TestHandler()]
    ensures reg.allEvents == map["tests" := tests]
    ensures reg.initialStates == map["tests" := Obj(map["foo" := Num(1)])]
    ensures reg.store == None
  {
    var again;
    reg, tests, again := SetUpTests(Obj(map["foo" := Num(1)]), TestHandler());
  }

  method TriggerWithoutStore() {
    var reg, tests := SetUpFoo();
    var early := tests.Trigger(reg, "test", 8);
    assert early == Throw(NoStoreAttached);
    assert tests.currentEvent == None;
    var missing := tests.Trigger(reg, "nope", 8);
    assert missing == Throw(NoSuchHandler("nope"));
  }

  method StoreSingleton() {
    var reg, tests := SetUpFoo();
    var created := reg.CreateStore(ReduxFactory);
    var defaults := map["tests" := Obj(map["foo" := Num(1)])];
    assert reg.Snapshot().defaults == defaults;
    ReduxInitialState(Composite(defaults));
    assert created == Return(Store(Composite(defaults), Obj(defaults)));
    var twice := reg.CreateStore(ReduxFactory);
    assert twice == Throw(StoreAlreadyCreated);
    reg.Detach();
    var recreated := reg.CreateStore(ReduxFactory);
    assert recreated.Return?;
  }

  method TriggerDispatches() {
    var reg, tests := SetUpFoo();
    var s0 := Store(Composite(map["tests" := Obj(map["foo" := Num(1)])]), Undefined);
    reg.Attach(Some(s0));
    ghost var env0 := tests.EnvIn(reg);
    assert env0 == Env(map["test" := TestHandler()], None, reg.initialStates, Some(s0));
    TriggerLabelsInferredReduce("tests", env0, "test", SetFoo(2), Return(Undefined), 8);
    var fired := tests.Trigger(reg, "test", 8);
    assert (fired, tests.EnvIn(reg)) == TriggerSpec("tests", env0, "test", 8);
    assert fired == Return(Undefined) && tests.currentEvent == None;
    var s1 := reg.store.value;
    assert s1 == Dispatch(s0, Action(ActionType("tests", Some("test")), SetFoo(2)));
    assert NoLineTerminator(EventLabel(Some("test")));
    DispatchUpdatesOwnSlice(s0, "tests", Some("test"), SetFoo(2));
    assert s1.state.fields == map["tests" := Obj(map["foo" := Num(2)])];
  }

  /** `use(mixin)` where the mixin registers a handler: the handler is then
      installed, and `use` returns nothing. */
  method MixinRegisters() {
    var reg, tests := SetUpFoo();
    var mixin := Then(On("mixinEvent", TestHandler()), Done(Return(Undefined)));
    var used := tests.Use(reg, mixin, 8);
    assert used == Return(Undefined);
    assert tests.handlers == map["test" := TestHandler(), "mixinEvent" := TestHandler()];
    var root := reg.root;
    var bare := root.On("x", TestHandler());
    assert bare == Throw(NotAFunction("on"));
  }

  /** A factory that throws leaves the slot empty, so a later creation is
      allowed; `attach(null)` empties the slot as `detach()` does. */
  method FactoryThrows() {
    var reg, tests := SetUpFoo();
    var failed := reg.CreateStore((r: Composite) => Throw(Thrown(Str("boom"))));
    assert failed == Throw(Thrown(Str("boom"))) && reg.store == None;
    var created := reg.CreateStore(ReduxFactory);
    assert created.Return? && reg.store.Some?;
    reg.Attach(None);
    assert reg.store == None;
  }
}
