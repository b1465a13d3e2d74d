/**
 * Option and Result, used wherever the TypeScript code returns `null`/`undefined` or an error
 * value, and the parsed-URL view shared by the modules that call `new URL`.
 */
module Common {

  datatype Option<T> = None | Some(value: T) {
    /** The `??` operator: the value, or `default` when absent. */
    function GetOr(default: T): T {
      if Some? then value else default
    }
  }

  datatype Result<T, E> = Ok(value: T) | Err(error: E)

  /** The parts of a parsed URL that the core reads. */
  datatype Url = Url(hostname: string, pathname: string)

  /** `new URL(s)`: a parsed URL, or `None` where the constructor throws. */
  type UrlParser = string -> Option<Url>
}
