/** JavaScript values as the event registry sees them: state slices, handler
    results and thrown errors, plus the outcome of an operation that may throw. */
module Values {

  datatype Option<+T> = None | Some(value: T)

  /** A JavaScript value. `Undefined` is what a missing property or a missing
      argument reads as; `Obj` is a plain object with its own properties. */
  datatype Value =
    | Undefined
    | Null
    | Bool(b: bool)
    | Num(n: int)
    | Str(s: string)
    | Obj(fields: map<string, Value>)

  /** `v[key]` for a plain object; every other value reads as undefined. */
  function Field(v: Value, key: string): Value
  {
    if v.Obj? && key in v.fields then v.fields[key] else Undefined
  }

  /** What an operation of the registry can throw. */
  datatype Error =
    | NoSuchHandler(name: string)   // `this[name]` is undefined in `trigger`
    | NotAFunction(member: string)  // a mixin method called on a handle that has none
    | NoStoreAttached               // `store.dispatch` while the store slot is empty
    | StoreAlreadyCreated           // `new Error('store is already created')`
    | StackExhausted                // the call stack ran out (JavaScript's RangeError)
    | Thrown(value: Value)          // whatever caller code throws

  /** A call either returns a value or throws. */
  datatype Outcome<+T> = Return(value: T) | Throw(error: Error)
}
