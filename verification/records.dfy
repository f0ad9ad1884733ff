/**
 The two entities, the JSON values a request body can carry, and the
 shapes in which the model reports what an asynchronous UI handler did.
 */
module Records {

  datatype Option<T> = None | Some(value: T)

  /** One field of a parsed JSON request body, after `const { ... } = req.body`.
      `Other` stands for a number, boolean, array or object; only whether it
      is truthy matters to the handlers, and none of them has a `trim` method. */
  datatype Json = Undefined | Null | Str(s: string) | Other(truthy: bool)

  /** JavaScript truthiness: `undefined`, `null` and `''` are falsy. */
  predicate Truthy(v: Json) {
    match v
    case Undefined => false
    case Null => false
    case Str(s) => s != []
    case Other(t) => t
  }

  /** A todo row. `description` is `null` when absent. Timestamps are
      instants on an abstract clock, compared as integers. */
  datatype Todo = Todo(id: int, title: string, description: Option<string>, completed: bool, createdAt: int)

  /** A note row. The `type` column is called `noteType` here; the server
      stores any string in it, so it is a string and not the enum below. */
  datatype Note = Note(id: int, title: string, content: string, noteType: string, createdAt: int, updatedAt: int)

  /** The three note types the client offers. */
  datatype NoteType = Important | Daily | General

  /** The wire spelling of a note type. */
  function TypeName(k: NoteType): (r: string)
    ensures IsKnownType(r)
  {
    match k
    case Important => "important"
    case Daily => "daily"
    case General => "general"
  }

  /** A stored type string is one of the three client values. */
  predicate IsKnownType(t: string) {
    t == "important" || t == "daily" || t == "general"
  }

  function TodoId(t: Todo): int { t.id }
  function TodoCreated(t: Todo): int { t.createdAt }
  function NoteId(n: Note): int { n.id }
  function NoteCreated(n: Note): int { n.createdAt }

  /** What `await fetch(...)` followed by `response.json()` hands the page:
      an OK response with its payload, a non-OK response, or a thrown error
      (network failure or unparsable body). */
  datatype Reply<T> = Ok(value: T) | NotOk | Threw

  /** How the promise returned by an asynchronous callback settles. */
  datatype Outcome = Resolved | Rejected

  /** A UI state after a callback that the caller awaits. */
  datatype Settled<S> = Settled(state: S, outcome: Outcome)

  /** One run of an async UI handler: the state while the awaited callback
      is outstanding, the callback invocation (if any), and the state once
      the handler has finished. */
  datatype Run<S, C> = Run(pending: S, call: Option<C>, settled: S)

  /** One run of a synchronous UI handler that may fire a callback without
      awaiting it. */
  datatype Step<S, C> = Step(state: S, call: Option<C>)
}
