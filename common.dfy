/** Values shared by every part of the orchestrator: optional values, results,
    the Python exception kinds the core raises or lets through, and the way an
    exception turns into the text `str(e)` that ends up in a deployment result. */
module Common {

  datatype Option<+T> = None | Some(value: T)

  datatype Result<+T, +E> = Ok(value: T) | Err(error: E)

  /** A step that produces no value: it passes or fails with an error. */
  datatype Outcome<+E> = Pass | Fail(error: E)

  /** The exception classes the core raises or propagates. */
  datatype ErrorKind =
    | GenericException                          // `raise Exception(...)`
    | HttpResponseError(status: Option<int>)    // re-raised SDK error; the status may be absent
    | KeyError
    | TypeError                                 // indexing a value that is not a mapping
    | ValueError
    | FileNotFoundError
    | YamlError                                 // a malformed configuration file

  /** An exception: its class and the argument it was raised with. */
  datatype Error = Error(kind: ErrorKind, message: string)

  /** Python truthiness of an optional string: both `None` and `""` are false. */
  predicate Truthy(s: Option<string>)
  {
    s.Some? && s.value != ""
  }

  /** `repr` of a string for the quoting rule only: double quotes when the text
      holds a single quote and no double quote, single quotes otherwise. */
  function QuotedRepr(s: string): (r: string)
    ensures |r| == |s| + 2
    ensures r[1..|r| - 1] == s
    ensures r[0] == r[|r| - 1] && (r[0] == '"' <==> ('\'' in s && '"' !in s))
  {
    if '\'' in s && '"' !in s then "\"" + s + "\"" else "'" + s + "'"
  }

  /** `str(e)`: the argument itself, except that a KeyError shows the `repr` of it. */
  function ExceptionText(e: Error): (text: string)
    ensures !e.kind.KeyError? ==> text == e.message
    ensures e.kind.KeyError? ==> |text| == |e.message| + 2 && text[1..|text| - 1] == e.message
  {
    if e.kind.KeyError? then QuotedRepr(e.message) else e.message
  }
}
