/** Datatypes shared by the whole model: optional values, results, and the
    exceptions MagickLite throws, one constructor per kind of failure. */
module Common {

  datatype Option<T> = None | Some(value: T)

  /** A value, or the exception the PHP code would have thrown instead. */
  datatype Result<T> = Success(value: T) | Failure(error: Error)

  /** The outcome of an operation that returns no value (PHP returns `$this`). */
  datatype Outcome = Pass | Fail(error: Error)

  /** Why an `InvalidArgumentException` was thrown. */
  datatype ArgumentProblem =
    | MissingSource               // first constructor argument empty or not a string
    | BadKind                     // option `type` other than 'file' or 'data'
    | FileNotFound(path: string)  // `type` is 'file' and the file does not exist
    | BadPrefer                   // truthy option `prefer` the pattern rejects
    | BadChangeImage              // composite: change image missing or not a string
    | ChangeImageNotFound(path: string)

  datatype Error =
    | InvalidArgument(problem: ArgumentProblem)
    | ToolNotFound                            // neither `gm` nor `identify` on the PATH
    | SpawnFailed(shell: string)              // proc_open did not give a process
    | BadExit(code: int, message: string)     // the tool exited with a non-zero status
    | ParseFailed(output: string, command: string) // identify output did not match
}
