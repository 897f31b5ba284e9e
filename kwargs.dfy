/** Python keyword arguments, as the decorations read and rewrite them. */
module Kwargs {
  /** A keyword-argument value: None, a string or a boolean. */
  datatype Arg = NoneArg | Str(s: string) | Bool(b: bool)

  /** Python truthiness: None, the empty string and False are falsy. */
  predicate Truthy(a: Arg)
  {
    match a
    case NoneArg => false
    case Str(s) => s != ""
    case Bool(b) => b
  }

  /** The `**kwargs` dictionary of a call. */
  type Kwargs = map<string, Arg>

  /** `kwargs.get(key, default)` */
  function Get(kwargs: Kwargs, key: string, default: Arg): Arg
  {
    if key in kwargs then kwargs[key] else default
  }
}
