/**
 Shared result shapes for the bump model.

 A Go function of this program either returns a value, returns an `error`,
 or panics (an index out of range). `Result` keeps the three apart, and is
 failure-compatible so that `:-` propagates the first failure exactly as the
 Go code's `if err != nil { return err }` chains do.

 The version file is an abstract `File`: `None` when it does not exist,
 `Some(content)` otherwise. A command that succeeds yields an `Effect`: the
 file afterwards and everything it printed on standard output. A command
 that fails yields no `Effect` at all, so a failure never writes the file
 and never prints.
 */
module Outcomes {

  datatype Option<+T> = None | Some(value: T)

  /** The errors the modelled code can return. */
  datatype Error =
    | SyntaxError(num: string)       // strconv.Atoi: invalid syntax, carrying the rejected text
    | InvalidVersionType(t: int)     // Version.up given a kind other than MAJOR, MINOR or PATCH
    | NotFound                       // reading a version file that does not exist

  datatype Result<+T> =
    | Ok(value: T)
    | Err(error: Error)
    | Panic(index: nat, length: nat) // runtime panic: index out of range [index] with length length
  {
    predicate IsFailure() {
      !Ok?
    }

    function PropagateFailure<U>(): (r: Result<U>)
      requires !Ok?
      ensures !r.Ok?
    {
      match this
      case Err(e) => Err(e)
      case Panic(i, n) => Panic(i, n)
    }

    function Extract(): T
      requires Ok?
    {
      value
    }
  }

  /** The version file: absent, or present with its whole content. */
  type File = Option<string>

  /** What a successful command leaves behind. */
  datatype Effect = Effect(file: File, stdout: string)
}
