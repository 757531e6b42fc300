/** What the modelled procedures see of the process they run in: Python
    exceptions and the outcome of a call into code that is not modelled. */
module Host {
  datatype Option<T> = None | Some(value: T)

  function OrElse<T>(o: Option<T>, default: T): T {
    match o
    case Some(v) => v
    case None => default
  }

  /** The exceptions the modelled code raises or tells apart. */
  datatype Exception =
    | FileNotFoundError(msg: string)
    | HttpError(msg: string)      // googleapiclient.errors.HttpError
    | KeyError(key: string)       // a dictionary lookup of a missing key
    | OtherError(msg: string)     // any other exception

  /** `str(e)`. For a KeyError Python shows the key in quotes. */
  function Str(e: Exception): (s: string)
    ensures !e.KeyError? ==> s == e.msg
    ensures e.KeyError? ==> |s| == |e.key| + 2 && s[0] == '\'' && s[|s| - 1] == '\'' && s[1..|s| - 1] == e.key
  {
    match e
    case FileNotFoundError(m) => m
    case HttpError(m) => m
    case KeyError(k) => "'" + k + "'"
    case OtherError(m) => m
  }

  /** The outcome of a call into a library: a value, or the exception it raised. */
  datatype Call<T> = Returns(value: T) | Raises(exc: Exception)
}
