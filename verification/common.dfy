/**
 Values as they reach the route handlers: optional request fields, JavaScript
 truthiness and string rendering, the result of `Number()`, the outcome of an
 awaited call into a foreign service, and the HTTP reply a handler sends.
 */
module Common {

  /** A request field that may be `undefined`. */
  datatype Option<+T> = None | Some(value: T)

  /** An awaited call (image upload, document save) resolves with a value or
      rejects with an error whose message the handler's catch-all sends back. */
  datatype Attempt<+T> = Done(value: T) | Thrown(message: string)

  /** A JSON reply: status 200 with a body, or an error status with `{ message }`. */
  datatype Reply<+T> = Ok(body: T) | Error(status: nat, message: string)

  /** A handler's reply together with the record store it leaves behind. */
  datatype Outcome<+T, +S> = Outcome(reply: Reply<T>, store: S)

  /** The opaque upload result the image host hands back. */
  datatype ImageRef = ImageRef(handle: string)

  /** What `Number(...)` yields: not-a-number, or a (here integral) number. */
  datatype Num = NaN | Num(n: int)

  /** The message of every 401 reply. */
  const Unauthorized := "Unauthorized."

  /** JavaScript truthiness of a possibly undefined string: defined and non-empty. */
  predicate Truthy(field: Option<string>)
  {
    field.Some? && field.value != ""
  }

  /** A possibly undefined string as `+` concatenates it: `undefined` becomes "undefined". */
  function Render(field: Option<string>): string
  {
    match field
    case None => "undefined"
    case Some(s) => s
  }

  /** `findOne`: the position of the first element, in natural order, that satisfies `p`. */
  function FindFirst<T>(xs: seq<T>, p: T -> bool): (r: Option<nat>)
    ensures r.Some? ==> r.value < |xs| && p(xs[r.value])
    ensures r.Some? ==> forall j :: 0 <= j < r.value ==> !p(xs[j])
    ensures r.None? <==> forall j :: 0 <= j < |xs| ==> !p(xs[j])
  {
    if |xs| == 0 then None
    else if p(xs[0]) then Some(0)
    else
      match FindFirst(xs[1..], p)
      case None => None
      case Some(i) => Some(i + 1)
  }
}
