/** Values shared by the event store, the two rehydration engines and the
    transaction scopes: an optional value (a JavaScript `undefined`), a
    result that is either a value or a thrown error, and the errors the
    code throws. */
module Common {

  datatype Option<+T> = None | Some(value: T)

  datatype Result<+T> = Ok(value: T) | Err(error: Error)

  datatype Error =
    /** AggregateBase.GetById: no apply function registered for a row's event type. */
    | UnknownEventType(eventType: string)
    /** EventSourcingBase.ApplyEventRows: the derived `Apply…` member is not a function. */
    | MissingApplyFunction(functionName: string)
    /** A property read through `undefined` (e.g. `products.find` before any `products`). */
    | TypeError(property: string)
    /** An `Error` thrown with a message by a repository or a command handler. */
    | Thrown(message: string)
    /** A failure reported by the database or by a collaborator that is not modelled. */
    | Storage(cause: string)
}
