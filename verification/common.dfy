/**
 Shared vocabulary of the logging engine: a possibly missing JSON value and
 the outcome of an operation that may panic.

 The engine reports its fatal conditions with Go `panic`s; the model turns
 each one it covers into a `Panic(reason)` value that callers pass on with
 `:-`, so a contract can say exactly when and why construction fails.
 */
module Common {

  /**
   A value JSON decoding may or may not have supplied: `Nothing` when the
   key was missing (Go leaves the field as it was), `Just(v)` when it was present.
   */
  datatype Maybe<+T> = Nothing | Just(value: T) {

    /** What the field ends up holding: the decoded value, else `kept`. */
    function Or(kept: T): (r: T)
      ensures Just? ==> r == value
      ensures Nothing? ==> r == kept
    {
      if Just? then value else kept
    }
  }

  /** The cause of a panic. */
  datatype Reason =
    | NilFactory(writer: string)        // CreateWriter with a nil factory
    | NilCall(writer: string)           // NewLogDeb calling a nil factory
    | DuplicateWriter(writer: string)   // CreateWriter with a name already registered
    | UnknownWriter(writer: string)     // a configured writer that was never registered
    | NoWriter                          // a configuration without any writer
    | NotANumber(key: string)           // `v.(float64)` on a severity/debug-level key
    | NotAnObject(key: string)          // `v.(map[string]interface{})` on a sub-tree
    | NullMain                          // a JSON null "main" section nils the logger, then is dereferenced
    | BadBufferSize                     // `make(chan, n)` with a negative buffer size

  /**
   A result, or the panic that replaced it. The three members below are
   the hooks Dafny's `:-` operator looks for: a panic stops the enclosing
   computation and is handed on unchanged.
   */
  datatype Outcome<+T> = Ok(value: T) | Panic(reason: Reason) {

    predicate IsFailure() {
      !Ok?
    }

    /** The same panic, as an outcome of another type. */
    function PropagateFailure<U>(): (o: Outcome<U>)
      requires !Ok?
      ensures o.Panic? && o.reason == reason
    {
      Outcome<U>.Panic(reason)
    }

    function Extract(): (v: T)
      requires Ok?
      ensures this == Ok(v)
    {
      value
    }
  }
}
