/** JavaScript values as the seed utilities, the controllers and the error
    handlers see them: plain data, compared by value. */
module Js {

  /** A JavaScript value. Numbers are finite reals plus NaN; `Date(arg)` is the
      object built by `new Date(arg)`, kept opaque (no date arithmetic). */
  datatype Value =
    | Undefined
    | Null
    | Bool(b: bool)
    | Num(n: real)
    | NaN
    | Str(s: string)
    | Arr(elems: seq<Value>)
    | Obj(props: Record)
    | Date(arg: Value)

  /** A plain object: its own enumerable properties. */
  type Record = map<string, Value>

  /** JavaScript truthiness: `undefined`, `null`, `false`, `0`, `NaN` and `""`
      are falsy; every object (arrays and dates included) is truthy. */
  predicate Truthy(v: Value) {
    match v
    case Undefined => false
    case Null => false
    case Bool(b) => b
    case Num(n) => n != 0.0
    case NaN => false
    case Str(s) => s != ""
    case _ => true
  }

  /** `typeof v === "number"`. */
  predicate IsNumber(v: Value) {
    v.Num? || v.NaN?
  }

  /** `rec[key]`: a missing property reads as `undefined`. */
  function Get(rec: Record, key: string): Value {
    if key in rec then rec[key] else Undefined
  }

  /** Reading a property of `null` or `undefined` throws a TypeError. */
  predicate AccessThrows(v: Value) {
    v == Undefined || v == Null
  }

  /** `v.key` for a value whose property access does not throw. Primitives,
      arrays and dates carry none of the property names used here. */
  function Prop(v: Value, key: string): Value {
    match v
    case Obj(props) => Get(props, key)
    case _ => Undefined
  }
}

/** The HTTP side of a request: path parameters, the response a handler sends,
    and how a handler finishes. */
module Http {
  import opened Js

  /** `res.status(status).send(body)`; the status is whatever value was passed. */
  datatype Response = Response(status: Value, body: Record)

  /** How a handler ends: it sends a response, it passes an error to `next`,
      or a rejection nobody handles leaves the request without a response
      (and, under Node's default for unhandled rejections, ends the process). */
  datatype Handled = Reply(response: Response) | Forward(err: Value) | Unhandled

  /** `req.params`: Express path parameters are strings. */
  type Params = map<string, string>

  /** `req.params[name]`, `undefined` when the route has no such parameter. */
  function Param(params: Params, name: string): Value {
    if name in params then Str(params[name]) else Undefined
  }

  /** `isNaN(req.params[name])`. The string-to-number rule is the parameter
      `isNaNText`; `isNaN(undefined)` is true. */
  predicate ParamIsNaN(params: Params, name: string, isNaNText: string -> bool) {
    name !in params || isNaNText(params[name])
  }

  /** `res.status(code).send({ [key]: v })`. */
  function Send(code: int, key: string, v: Value): Response {
    Response(Num(code as real), map[key := v])
  }

  /** `res.status(code).send({ msg: text })`. */
  function Msg(code: int, text: string): Response {
    Send(code, "msg", Str(text))
  }

  const BadRequest: Response := Msg(400, "Bad request")
}

/** The database-facing model functions, seen from the controllers as opaque
    calls whose promises settle one way or the other. */
module Models {
  import opened Js
  import opened Http

  /** One call into the model layer, with the arguments it was given. */
  datatype Call =
    | SelectArticles
    | SelectArticleById(articleId: Value)
    | UpdateArticleVotes(articleId: Value, incVotes: Value)
    | SelectCommentsByArticleId(articleId: Value)
    | CheckArticleExists(articleId: Value)
    | InsertCommentByArticleId(articleId: Value, username: Value, body: Value)

  /** How the promise a model call returns settles. */
  datatype Settled = Resolved(value: Value) | Rejected(reason: Value)

  /** The database, as far as a handler can tell: each call's outcome. */
  type Store = Call -> Settled

  /** What a handler did: the model calls it issued, in order, and how it ended. */
  datatype Handling = Handling(calls: seq<Call>, result: Handled)

  /** `.then(v => res.status(code).send({ [key]: v })).catch(next)`. */
  function SendOrForward(s: Settled, code: int, key: string): (h: Handled)
    ensures s.Resolved? ==> h == Reply(Send(code, key, s.value))
    ensures s.Rejected? ==> h == Forward(s.reason)
  {
    match s
    case Resolved(v) => Reply(Send(code, key, v))
    case Rejected(e) => Forward(e)
  }

  /** A forwarded error is the rejection reason of one of the calls issued. */
  ghost predicate ForwardsOnlyRejections(h: Handling, store: Store) {
    h.result.Forward? ==>
      exists i :: 0 <= i < |h.calls| && store(h.calls[i]) == Rejected(h.result.err)
  }

  /** A reply with a 2xx status is sent only when every issued call resolved. */
  ghost predicate SucceedsOnlyOnResolution(h: Handling, store: Store) {
    h.result.Reply? && h.result.response.status.Num? &&
    200.0 <= h.result.response.status.n < 300.0 ==>
      forall i :: 0 <= i < |h.calls| ==> store(h.calls[i]).Resolved?
  }
}
