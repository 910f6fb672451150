/** The few pieces of the Python runtime the model needs: optional values,
    raised exceptions as a result type, and the dynamically typed arguments
    the library checks before using them. */
module Py {

  datatype Option<+T> = None | Some(value: T)

  /** The exceptions the library raises, with their messages. */
  datatype Error =
    | TypeError(message: string)
    | AttributeError(message: string)
    | IndexError(message: string)
    | KeyError(key: string)

  /** Messages of the errors the interpreter itself raises. */
  const NoneGroupMessage := "'NoneType' object has no attribute 'group'"
  const NoneSessionMessage := "'NoneType' object has no attribute '_session'"
  const HttpSessionMessage := "'Session' object has no attribute '_session'"
  const IndexMessage := "list index out of range"

  /** A call either returns a value or raises. */
  datatype Result<+T> = Ok(value: T) | Err(error: Error)

  /** A Python argument whose type the library inspects at run time. */
  datatype Value =
    | NoneValue
    | IntValue(i: int)
    | StrValue(s: string)
    | DictValue(entries: map<string, string>)
    | ListValue(items: seq<string>)
}
