/** Result codes of the store (common/kv_interface.h:12-22). */
module Status {
  datatype Status =
    | Finished
    | LinkError
    | UserError   // the user has no folder
    | KeyError    // the user has no such key
    | ValueError  // a compare-and-put found another value
    | SeqError    // an operation came out of sequence
    | LogError
    | RecError    // replaying the log failed
    | SyncError   // synchronising with the primary failed
    | Crashed     // an exception nobody catches ends the process
}
