/**
 * The error taxonomy of the etcd v2 client layer: the store's own coded
 * errors, every other failure of a store call, and the layer's sentinel errors.
 */
module Errors {
  import opened Wrappers

  /** Codes of the store's structured errors (the etcd v2 error codes 100, 102, 104, 105, 107). */
  datatype Code =
    | KeyNotFound
    | NotAFile
    | NotADir
    | NodeExist
    | RootReadOnly

  datatype Error =
    | StoreError(code: Code)  // a structured error reported by the store
    | Unavailable             // any other failure of a store call: transport, per-call timeout, cancelled context
    | ErrClosedClient         // "use of closed etcd client"
    | ErrNotDir               // "etcd: not a dir"
    | ErrNotFile              // "etcd: not a file"
    | ErrInvalidAuth          // "invalid auth", from New

  /** Recognises the store's key-not-found error and nothing else (nil included). */
  function IsErrNoNode(err: Option<Error>): (b: bool)
    ensures b <==> err == Some(StoreError(KeyNotFound))
  {
    match err
    case None => false
    case Some(e) => e.StoreError? && e.code == KeyNotFound
  }

  /** Recognises the store's node-already-exists error and nothing else (nil included). */
  function IsErrNodeExists(err: Option<Error>): (b: bool)
    ensures b <==> err == Some(StoreError(NodeExist))
  {
    match err
    case None => false
    case Some(e) => e.StoreError? && e.code == NodeExist
  }
}
