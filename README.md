# redux-store-events, modelled in Dafny

This project models `src/index.js` of redux-store-events. That file is a
small synchronous event registry in front of a Redux store:

- A memoising factory maps dot-joined namespaces to handles.
- Each handle registers named handlers with `on`, runs them with `trigger`,
  and dispatches reducer-carrying actions with `reduce`.
- `getReducer` composes one leaf reducer per namespace. Each leaf accepts only
  action types addressed to its namespace.
- A single module-wide store slot is set by `attach`, cleared by `detach`, and
  filled once by calling a handle with a store factory.

## Layout

| file | module | what it holds |
|---|---|---|
| values.dfy | `Values` | JavaScript values, the errors the registry throws, `Outcome` (return or throw) |
| patterns.dfy | `Patterns` | `escape`, the leaf pattern text and its meaning, the action type `reduce` builds |
| namespaces.dfy | `Namespaces` | how a handle names its children |
| reducers.dfy | `Reducers` | leaf reducer, the composed reducer, the store and `dispatch` |
| scripts.dfy | `Scripts` | caller code as data (`Script`), and the meaning of `on`/`trigger`/`reduce`/`init`/`setup`/`use` as functions over the state they touch (`Env`) |
| events.dfy | `Events` | `Registry` (the module-level `allEvents`, `initialStates`, `store`, and the root handle) and `Handle` (its `currentEvent` slot and handler table), with imperative methods proved against the `Scripts` functions |
| scenarios.dfy | `Scenarios` | callers of the classes: the chain of test/events.test.js, store creation (including a factory that throws), dispatch and a mixin |

### How the model is built

- Handlers, setup functions and mixins are opaque caller code. Each is a
  `Script`: the handle operations it calls, in order, then how it ends
  (`Return(v)` or `Throw(e)`). A step that throws ends the script, as an
  uncaught exception does.
- `Handle.Run` executes a script by calling the real handle methods.
- Function values stand for the reducers an action carries.
- A nested `trigger` consumes `fuel`, which stands for the remaining call-stack
  depth. Running out is `StackExhausted`, JavaScript's `RangeError`.
- The regular expression on line 23 is not run by an engine. Instead:
  - `LeafPatternSource` builds its source text exactly as the code does.
  - `PatternLiteral` reads the text back: the `^…(?::.+)?$` frame around a
    plain literal.
  - `MatchesEventPattern` states what that frame matches.
  - `AddressedTo` is an independent statement of which types belong to a
    namespace. `LeafAcceptsAddressed` proves the two agree.

### Behaviour of the code worth knowing

- The action type embeds the handle's namespace as it is stored, dot-joined
  (`this.namespace`, line 77).
- The composed reducer keys its slices by that flat dot-joined namespace
  (lines 19-22), so the store state has one key per namespace.
- Every namespace ever created gets a slice. That includes intermediate ones
  such as `root` when `root.foo` was reached through it.
- `attach` replaces a store that is already set without complaint. Only store
  creation through a handle checks the slot (lines 98-100).
- The current-event slot is a single field. Still, the installed method saves
  the previous value in a local (line 51), so properly nested triggers restore
  the outer event correctly (`Scripts.RunKeepsCurrent`,
  `Scripts.TriggerPrefixedReduce`).
- A segment containing a dot names the same namespace as the two segments
  around it (`Namespaces.DottedSegmentAliases`).
- An event name containing a line terminator produces a type that its own
  namespace's leaf rejects, because `.` does not match a line terminator
  (`Patterns.SelfMatch`, an if-and-only-if). Every other colon-free
  namespace's leaf rejects it too (`Patterns.Isolation`).
- A namespace containing `:` can be matched by a leaf of another namespace
  (`Patterns.ColonNamespacesCollide`). `Patterns.Isolation` proves isolation
  for colon-free namespaces.

## Model

| member | source | states |
|---|---|---|
| `Patterns.EscapeAppend` | src/index.js:112-114 | escaping works character by character: the escape of a concatenation is the concatenation of the escapes |
| `Patterns.EscapeLength` | src/index.js:112-114 | the output is the input's length plus one backslash per metacharacter `- [ ] / { } ( ) * + ? . \ ^ $ \|` |
| `Patterns.EscapePlain` | src/index.js:112-114 | a string with no metacharacter is left unchanged |
| `Patterns.LiteralTextOfEscape` | src/index.js:112-114 | read as a pattern, the escaped string is a plain literal whose text is the original string: removing the inserted backslashes recovers the input |
| `Patterns.EscapeInjective` | src/index.js:112-114 | distinct namespaces never escape to the same pattern text |
| `Patterns.LeafPatternLiteral` | src/index.js:23 | the source ``^event:${escape(ns)}(?::.+)?$`` is the optional-suffix frame around a literal matching exactly `event:` + ns, metacharacters in ns included |
| `Patterns.LeafAcceptsAddressed` | src/index.js:22-27 | a leaf for ns accepts a type iff it is `event:ns`, or `event:ns:` followed by a non-empty label free of line terminators |
| `Patterns.LeafRejectsForeign` | src/index.js:23 | no leaf accepts a type that does not start with `event:` |
| `Patterns.SelfMatch` | src/index.js:77 | an action type built for namespace A is accepted by A's own leaf iff its label has no line terminator, in both directions |
| `Patterns.Isolation` | src/index.js:22-27 | for colon-free namespaces A ≠ B, B's leaf rejects every action type built for A (parent/child and prefix pairs included) |
| `Patterns.ColonNamespacesCollide` | src/index.js:23 | the colon condition is needed: the leaf for `a` accepts the generic action of namespace `a:b` |
| `Namespaces.ResolveJoins` | src/index.js:106 | descending from the root by non-empty segments yields the dot-joined path, which is truthy |
| `Namespaces.DottedSegmentAliases` | src/index.js:106 | segments `["a.b"]` and `["a", "b"]` reach the same namespace |
| `Reducers.Apply` | src/index.js:19-30 | the composed reducer yields an object with exactly one slice per namespace key of the reducer |
| `Reducers.ReduxInitialState` | src/index.js:20-22 | a store created from the composed reducer starts with each slice at the default state captured for its namespace |
| `Reducers.DispatchUpdatesOwnSlice` | src/index.js:22-27 | dispatching an action built for A applies its reducer to A's slice (after the default is substituted) |
| `Reducers.DispatchKeepsOtherSlices` | src/index.js:22-27 | the same dispatch leaves every other colon-free namespace's slice as it was, apart from default substitution |
| `Scripts.RunKeepsCurrent` | src/index.js:50-62 | caller code leaves the current-event slot as it found it, whatever handlers it triggers, however they nest, and whether it returns or throws |
| `Scripts.StepKeepsCurrent` | src/index.js:50-62 | each single handle operation called from caller code leaves the current-event slot as it found it |
| `Scripts.TriggerKeepsCurrent` | src/index.js:51-60 | after a trigger the slot holds its previous value, on return and on throw alike |
| `Scripts.TriggerLabelsInferredReduce` | src/index.js:71-79 | a handler whose whole body is `reduce(fn)` dispatches `{type: event:ns:name, reducer: fn}`, where name is the event it was triggered under; afterwards the slot is restored |
| `Scripts.RunPrefixed` | src/index.js:55 | caller code that makes some calls and then goes on runs those calls first and, unless one threw, the rest from the state they left |
| `Scripts.TriggerPrefixedReduce` | src/index.js:50-79 | a handler that makes any calls that return (`on`, `init`, `setup`, `use`, nested triggers) and then `reduce(fn)` dispatches an action of type `event:ns:name`, name being the event it was triggered under; a throw among the earlier calls is passed on; the slot is restored in every case |
| `Scripts.NestedTriggerKeepsLabel` | src/index.js:50-62 | after a handler has triggered another handler that returned, its own `reduce(fn)` is still labelled with its own event name |
| `Scripts.TriggerUnregistered` | src/index.js:67-69 | triggering an unregistered name throws and changes nothing |
| `Scripts.TriggerRethrows` | src/index.js:54-59 | whatever calls the handler made before it threw, its exception reaches the caller unchanged; the state is what the handler left, with the slot restored |
| `Scripts.TriggerPrefixedThrow` | src/index.js:54-59 | a handler that makes any calls and then throws `e` throws `e` (or the error of the first call that threw), with the state those calls left and the slot restored |
| `Scripts.TriggerThrowLeavesEnv` | src/index.js:54-59 | a handler whose whole body is `throw e` throws `e` and leaves the state exactly as it was |
| `Events.Handle.constructor` | src/index.js:89 | a new handle has its namespace, no current event and no handlers |
| `Events.Handle.Init` | src/index.js:40-43 | records the initial state under the handle's namespace and returns the handle; a handle of a falsy namespace has no `init` (TypeError); the namespace table and the registry invariant `Valid` are kept |
| `Events.Handle.On` | src/index.js:49-65 | installs the handler under its name, replacing an earlier one, and returns the handle; the slot is untouched |
| `Events.Handle.Reduce` | src/index.js:71-80 | picks the event name by call shape, builds the action type, and dispatches into the store; throws `NoStoreAttached` if the slot is empty; the namespace table and the registry invariant `Valid` are kept |
| `Events.Handle.Trigger` | src/index.js:67-69 | runs the installed method: sets the slot, runs the handler, restores the slot on both paths, and returns or rethrows the handler's outcome; throws `NoSuchHandler` for an unregistered name; the namespace table and the registry invariant `Valid` are kept |
| `Events.Handle.Setup` | src/index.js:35-38 | runs the function against the handle and returns the handle, or propagates its exception; the namespace table and the registry invariant `Valid` are kept |
| `Events.Handle.Use` | src/index.js:45-47 | runs the mixin against the handle and returns undefined, or propagates its exception; the namespace table and the registry invariant `Valid` are kept |
| `Events.Handle.Run` | src/index.js:55 | caller code runs step by step, each step calling the handle operation it names, and stops at the first exception; the namespace table and the registry invariant `Valid` are kept |
| `Events.Handle.Perform` | src/index.js:36 | one call from caller code into the handle's operations; the namespace table and the registry invariant `Valid` are kept |
| `Events.Registry.constructor` | src/index.js:3-7 | the module starts with empty tables, no store and a root handle of falsy namespace |
| `Events.Registry.CreateEvents` | src/index.js:83-92 | for a truthy namespace it returns the cached handle, or caches a fresh one; a falsy namespace gets a fresh handle every time and the table is unchanged |
| `Events.Registry.Descend` | src/index.js:106 | calling a handle with a string reaches the child namespace (`parent.seg`, or `seg` under a falsy parent) with the same caching rules |
| `Events.Registry.Attach` | src/index.js:10-12 | overwrites the store slot unconditionally with the given store, or empties it for `attach(null)`/`attach()`; the namespace table and the registry invariant `Valid` are kept |
| `Events.Registry.Detach` | src/index.js:14-16 | empties the store slot; the namespace table and the registry invariant `Valid` are kept |
| `Events.Registry.GetReducer` | src/index.js:18-31 | exactly one leaf per key of `allEvents` at call time, each with the default state currently recorded by `init` (undefined if none) |
| `Events.Registry.CreateStore` | src/index.js:95-104 | throws `StoreAlreadyCreated` and keeps the slot when a store is set; otherwise returns the outcome of `createStore(getReducer())`, setting the slot to the store it returns and leaving the slot empty when it throws; the namespace table and the registry invariant `Valid` are kept |
| `Scenarios.SetUpTests` | test/events.test.js:6-10 | for any initial state and handler, `events('tests').init(initial).on('test', handler)` on a fresh module chains without throwing and leaves exactly the one cached `tests` handle, holding that handler and that initial state; asking for `tests` a second time returns the same handle. `Scenarios.InitializesWithoutError` runs it with the test's own `{}` and empty handler |

## Left out

- Redux itself. The model keeps only the following:
  - the per-key slice application of `combineReducers`;
  - a store as a reducer/state pair whose dispatch applies the reducer;
  - `Reducers.CreateReduxStore`, the factory whose initial dispatch uses the
    type `@@redux/INIT`.
- The rest of Redux is foreign code and is not modelled: subscriptions,
  middleware, `getState`, the random suffix of the initial action type,
  `combineReducers`' development warnings, and its returning of the old state
  object when nothing changed.
- `Reducers.Apply`: does not model `combineReducers`' undefined-state check. A
  namespace created without `init` has an undefined slice here. Real Redux
  throws on that when the store is created.
- `Events.Handle.Trigger`: handler arguments are not passed. A script does not
  read arguments, and its return value is fixed in the script.
- `this` rebinding through `Function.prototype.bind` (line 90) is not
  modelled. In the model every operation acts on the handle it is called on.
- `on` installs each handler as a property of the handle, and `trigger` calls
  `this[name]`. The model keeps handlers in their own table instead, so it
  does not capture these JavaScript effects:
  - a handler named like a mixin member (`reduce`, `namespace`, `on`) shadows
    that member;
  - assigning the non-writable function properties `name` and `length` throws;
  - `trigger('init')` calls `init`.
- The tables `allEvents` and `initialStates` are plain objects. In JavaScript,
  a namespace such as `constructor` or `toString` finds the property inherited
  from `Object.prototype`. The model's maps have no inherited keys.
- Calling a handle with a value that is neither a string nor a function is not
  modelled.
- Two `reduce` call shapes beyond `reduce(fn)` and `reduce(event, fn)` are not
  modelled: `reduce(name)` with no reducer, and `reduce(f, g)`, whose label
  would be the source text of `f`.
- Caller code that catches an exception and goes on is not modelled. A caller
  that wraps `trigger` or `reduce` in `try`/`catch` is legal JavaScript, but a
  `Script` ends at the first step that throws.
- Caller code that acts on handles other than the one it was given, creates
  namespaces, or creates stores is not modelled.
- An exception thrown by a reducer during dispatch is not modelled.
- Property order of `Object.keys` is not modelled. The composed reducer is a
  map.
- The call-stack limit is represented only by `fuel`.
- JavaScript numbers are represented by `int`.
