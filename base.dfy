/** Values, results and exception kinds shared by every part of the model.

    The program is written in a dynamically typed language: configuration
    tables, context variables and metadata hold arbitrary values, and errors
    travel as exceptions. Here a value is the closed datatype `Value` and an
    exception is an `Exc`, carried in a `Result`. */
module Base {

  datatype Option<+T> = None | Some(value: T)

  datatype Result<+T, +E> = Success(value: T) | Failure(error: E) {
    predicate IsFailure() { Failure? }

    function PropagateFailure<U>(): Result<U, E>
      requires Failure?
    {
      Failure(error)
    }

    function Extract(): T
      requires Success?
    {
      value
    }
  }

  /** A dynamically typed value as read from a TOML table or stored in a
      context: strings, booleans, integers, lists and string-keyed tables. */
  datatype Value =
    | VStr(s: string)
    | VBool(b: bool)
    | VInt(i: int)
    | VList(items: seq<Value>)
    | VMap(m: map<string, Value>)
    | VNone

  /** The interpreter's truth test (`if x:` / `not x`): empty strings, zero,
      `False`, `None` and empty containers are false, everything else true. */
  predicate Truthy(v: Value) {
    match v
    case VStr(s) => s != []
    case VBool(b) => b
    case VInt(i) => i != 0
    case VList(items) => items != []
    case VMap(m) => m != map[]
    case VNone => false
  }

  /** `d.get(key, default)` on a table. */
  function Get(d: map<string, Value>, key: string, default: Value): Value
  {
    if key in d then d[key] else default
  }

  /** The exceptions the modelled code raises, catches or wraps. */
  datatype Exc =
    /** The message names the path that was looked for. */
    | FileNotFoundError(msg: string)
    /** "La variable '<name>' se usa antes de ser definida (línea <line>)." */
    | UndefinedVariableError(name: string, line: nat)
    /** The interpreter's recursion limit, reached by a cyclic or too deep
        chain of `@`/`@@` inclusions. */
    | RecursionError
    | KeyError(key: string)
    | ValueError(msg: string)
    /** `.get` called on something that is not a table. */
    | AttributeError
    /** A module that cannot be imported, or a function missing from it. */
    | ImportError(name: string)
    /** Iterating over something that is not a sequence. */
    | TypeError(msg: string)
    /** "Error en plugin '<plugin>': <inner>" raised by the pipeline. */
    | PluginFailure(plugin: string, inner: Exc)
}
