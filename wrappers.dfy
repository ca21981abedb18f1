/** Failure-carrying values shared by every module of the model. */
module Wrappers {

  /** Python's `Optional[T]`: `None` or a present value. */
  datatype Option<+T> = None | Some(value: T)

  /** An operation that either produces a value or fails with an error. */
  datatype Result<+T, +E> = Ok(value: T) | Err(error: E)

  /** A raised Python exception: its class name and its message. */
  datatype Exception = Exception(kind: string, message: string)

  /** The text `f"{type(e).__name__}: {e}"` that the scheduler reports for a caught exception. */
  function ErrorText(e: Exception): (s: string)
    ensures |s| == |e.kind| + 2 + |e.message|
    ensures s[..|e.kind|] == e.kind && s[|e.kind|..|e.kind| + 2] == ": "
    ensures s[|e.kind| + 2..] == e.message
  {
    e.kind + ": " + e.message
  }

  /** `d.get(key, default)` on a string dictionary. */
  function GetOr(d: map<string, string>, key: string, default: string): (v: string)
    ensures key in d ==> v == d[key]
    ensures key !in d ==> v == default
  {
    if key in d then d[key] else default
  }
}
