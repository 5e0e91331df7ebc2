/** The reducer `getReducer` composes: one leaf per namespace, each over its
    own slice of the state, joined the way `combineReducers` joins them; and
    the store that runs it. */
module Reducers {
  import opened Values
  import opened Patterns

  /** `{ type, reducer }` as `reduce` dispatches it. */
  datatype Action = Action(actionType: string, reducer: Value -> Value)

  /** The default parameter `state = initial`: only `undefined` is replaced. */
  function WithDefault(state: Value, initial: Value): Value
  {
    if state == Undefined then initial else state
  }

  /** The leaf reducer for namespace `ns` with default state `initial`. */
  function Leaf(ns: string, initial: Value, state: Value, action: Action): Value {
    var s := WithDefault(state, initial);
    if LeafAccepts(ns, action.actionType) then action.reducer(s) else s
  }

  /** The composed reducer, as the map from each namespace to the default
      state its leaf captured. */
  datatype Composite = Composite(defaults: map<string, Value>)

  /** `combineReducers` over the leaves: each key's leaf applied to its own
      slice, the next state holding exactly the keys of the reducer. */
  function Apply(c: Composite, state: Value, action: Action): (r: Value)
    ensures r.Obj? && r.fields.Keys == c.defaults.Keys
  {
    Obj(map ns | ns in c.defaults :: Leaf(ns, c.defaults[ns], Field(state, ns), action))
  }

  /** A store: its reducer and its current state. */
  datatype Store = Store(reducer: Composite, state: Value)

  function Dispatch(s: Store, a: Action): Store
  {
    Store(s.reducer, Apply(s.reducer, s.state, a))
  }

  /** The action a store dispatches to itself when it is created. */
  const InitActionType: string := "@@redux/INIT"

  /** `createStore(reducer)`: the state starts as what the reducer makes of
      `undefined` and the initialising action. */
  function CreateReduxStore(r: Composite): Store {
    Store(r, Apply(r, Undefined, Action(InitActionType, (v: Value) => v)))
  }

  /** A fresh store's state holds each leaf's default state. */
  lemma ReduxInitialState(r: Composite)
    ensures CreateReduxStore(r).state == Obj(r.defaults)
  {
    var init := Action(InitActionType, (v: Value) => v);
    forall ns | ns in r.defaults
      ensures Leaf(ns, r.defaults[ns], Undefined, init) == r.defaults[ns]
    {
      assert InitActionType[..|EventPrefix|][0] == '@' != EventPrefix[0];
      LeafRejectsForeign(ns, InitActionType);
    }
  }

  /** Dispatching an action built for namespace `a` applies its reducer to
      `a`'s slice. */
  lemma DispatchUpdatesOwnSlice(s: Store, a: string, event: Option<string>, f: Value -> Value)
    requires a in s.reducer.defaults
    requires NoLineTerminator(EventLabel(event))
    ensures Field(Dispatch(s, Action(ActionType(a, event), f)).state, a)
         == f(WithDefault(Field(s.state, a), s.reducer.defaults[a]))
  {
    SelfMatch(a, event);
  }

  /** ... and leaves every other slice as it was, its default aside, when no
      namespace involved holds a colon. */
  lemma DispatchKeepsOtherSlices(s: Store, a: string, b: string, event: Option<string>, f: Value -> Value)
    requires b in s.reducer.defaults
    requires a != b && ':' !in a && ':' !in b
    ensures Field(Dispatch(s, Action(ActionType(a, event), f)).state, b)
         == WithDefault(Field(s.state, b), s.reducer.defaults[b])
  {
    Isolation(a, b, event);
  }
}
