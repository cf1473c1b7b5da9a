/**
 * What the splitter sees of Python's runtime: a file system reduced to a map
 * from path to content, the state of the `f_out` file object, and the two
 * exceptions the dispatch loop can raise.
 */
module FileModel {

  datatype Option<T> = None | Some(value: T)

  /**
   * The `f_out` variable: never assigned, bound to a file object that is
   * open for writing, or bound to one that has been closed.
   */
  datatype Handle = Unbound | Open(path: string) | Closed(path: string)

  /** The loop variables whose use before assignment raises `NameError`. */
  datatype Variable = FOut | FFilename | ProtFilename

  datatype Fault =
    | NameError(variable: Variable)   // a variable read before any branch bound it
    | WriteToClosed(path: string)     // `ValueError: I/O operation on closed file`

  datatype Outcome = Ok | Fail(fault: Fault)

  /** `dir / name` on a `pathlib.Path`, without normalisation. */
  function JoinPath(dir: string, name: string): string {
    dir + "/" + name
  }
}
