/**
 * The shapes of JavaScript value the server hands to its libraries. Only the
 * distinctions the libraries act on are kept: bcryptjs and jwt-simple both
 * inspect the type of their argument before doing anything else.
 */
module Js {

  datatype Value =
    | Undefined
    | Number(n: int)
    | Str(s: string)
    | Array(items: seq<string>)

  /** What JavaScript's `typeof` answers for the value. */
  function TypeOf(v: Value): string
  {
    match v
    case Undefined => "undefined"
    case Number(_) => "number"
    case Str(_) => "string"
    case Array(_) => "object"
  }

  /** Indexing a list of strings: `xs[i]`, which is `undefined` past the end. */
  function Element(xs: seq<string>, i: nat): (v: Value)
    ensures v.Str? <==> i < |xs|
    ensures v.Str? ==> v.s == xs[i]
  {
    if i < |xs| then Str(xs[i]) else Undefined
  }
}
