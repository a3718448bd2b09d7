/** The four kinds of failure the store and the service report, with the
    text each one prints as a Go `error`. */
module Errors {
  import opened Decimal

  datatype Error =
    | NotFound(id: int)            // no file for the id
    | AlreadyExists(id: int)       // create over an existing file
    | Unauthorized                 // the record belongs to another seller
    | StorageError(message: string) // any other read, write, delete or codec failure

  /** The result of an operation that returns only an `error`. */
  datatype Status = Success | Failure(error: Error)

  /** `err.Error()` for each kind. */
  function Message(e: Error): string
  {
    match e
    case NotFound(id) => "product with ID " + IntToString(id) + " does not exist"
    case AlreadyExists(id) => "product with ID " + IntToString(id) + " already exists"
    case Unauthorized => "unauthorized: you do not own this product"
    case StorageError(m) => m
  }

  predicate OccursAt(s: string, sub: string, i: nat)
  {
    i + |sub| <= |s| && s[i..i + |sub|] == sub
  }

  /** Go's `strings.Contains`. */
  predicate Contains(s: string, sub: string)
  {
    exists i: nat | i <= |s| :: OccursAt(s, sub, i)
  }

  /** The test the service applies to an error from a lookup to decide that
      the record is missing. */
  predicate LooksNotFound(e: Error)
  {
    Contains(Message(e), "does not exist")
  }

  /** The store's not-found error always passes the service's test. */
  lemma NotFoundIsRecognised(id: int)
    ensures LooksNotFound(NotFound(id))
  {
    var head := "product with ID " + IntToString(id) + " ";
    var s := Message(NotFound(id));
    assert s == head + "does not exist";
    assert OccursAt(s, "does not exist", |head|);
  }
}
