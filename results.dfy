/** Outcomes of operations that can stop the CLI.

    `Fail(msg)` stands for both ways the tool ends a command early: the
    `fail` helper that prints a marked line and calls `process.exit(1)`,
    and an exception thrown by a Node API (an errno code such as "ENOENT"
    is kept as the message). Neither has a recovery path. */
module Results {

  datatype Option<T> = None | Some(value: T)

  /** The result of a read that can throw. */
  datatype Result<T> = Value(value: T) | Error(msg: string)

  /** How a command, or one step of it, finishes. */
  datatype Outcome = Ok | Fail(msg: string)
}
