/** Values, failures and optional results shared by every component of the model. */
module Common {

  datatype Option<+T> = None | Some(value: T)

  datatype Result<+T> = Ok(value: T) | Err(error: Error)

  /** The sentinel errors a caller can test for; message text is not modelled. */
  datatype Error =
    // scatter.go
    | UnknownScatterMethod
    | NoScatterKeys
    | DuplicateScatterKey
    | ScatterInputMissing
    | ScatterInputNotArray
    | DotproductLength
    | ScatterOutputIndex
    | ScatterShape
    | IndexPanic             // an out-of-range index expression: the Go program panics
    // plan.go
    | UnknownSource
    | DuplicateStep
    | Cycle
    // inputs.go, result.go, runstate.go, outputtype.go
    | Incomplete
    | NoSuspension
    | ResumedStatus
    | StateMismatch
    | StateVersion
    | UndeclaredResumedOutput
    | Cancelled
    // expression_scan.go
    | ExpressionSyntax
    // flatten.go
    | ExtendsCycle
    | UndefinedBase
    | MalformedFields
    // any failure of an expression, a handler, a resource selector or a type check
    | Failed

  /** A CWL value as the engine holds it: the JSON data model. */
  datatype Value =
    | Null
    | Bool(b: bool)
    | Int(i: int)
    | Str(text: string)
    | List(items: seq<Value>)
    | Object(fields: Obj)

  type Obj = map<string, Value>

  /** A Go map read: a missing key reads as nil. */
  function Lookup(record: Obj, key: string): Value {
    if key in record then record[key] else Null
  }
}
