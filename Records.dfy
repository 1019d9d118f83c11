/** The task record the board displays and the store persists, with the
    small wrapper types the controller's code relies on. */
module Records {

  /** Swift's optional: a value or nil. */
  datatype Option<+T> = None | Some(value: T)

  /** The outcome of a store call: Swift's `Result<Value, Error>`. */
  datatype Result<+T> = Success(value: T) | Failure(error: StoreError)

  /** Why the persistent store could not answer a fetch. */
  datatype StoreError = IOFailure

  /** Record identifiers are opaque to the board; only equality is used. */
  type Id = nat

  /** Timestamps are whole seconds; the source compares `Date` values. */
  type Timestamp = int

  /** A task (`TodoModel`). `state` is the column code: 0 todo, 1 doing,
      2 done; any other value belongs to no column. */
  datatype Record = Record(
    id: Option<Id>,
    state: int,
    title: string,
    body: string,
    todoDate: Option<Timestamp>)

  /** `TodoModel()` as built with no arguments: no id and no date. */
  const BlankRecord := Record(None, 0, "", "", None)

  /** The column codes the board knows. */
  const TodoState := 0
  const DoingState := 1
  const DoneState := 2

  predicate Classified(r: Record) {
    r.state == TodoState || r.state == DoingState || r.state == DoneState
  }
}
