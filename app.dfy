/** The Express application: one registered route, a catch-all 404, and three
    error-handling middlewares tried in order on any error passed to `next`. */
module App {
  import opened Js
  import opened Http

  datatype Request = Request(verb: string, path: string)

  /** The routes the application registers. */
  datatype Route = GetTopics

  /** The route table: only `GET /api/topics`. */
  function MatchRoute(req: Request): (r: Option<Route>)
    ensures r.Some? <==> req.verb == "GET" && req.path == "/api/topics"
  {
    if req.verb == "GET" && req.path == "/api/topics" then Some(GetTopics) else None
  }

  datatype Option<T> = None | Some(value: T)

  const RouteNotFound: Response := Msg(404, "Route not found")
  const InternalServerError: Response := Msg(500, "Internal Server Error")

  /** The three error middlewares, in the order they are registered. */
  datatype ErrorMiddleware = StatusAndMsg | InvalidTextRepresentation | CatchAll

  /** What one error middleware does: respond, or hand the error on. */
  datatype Step = Sent(response: Response) | Next(err: Value)

  function Apply(m: ErrorMiddleware, err: Value): Step {
    match m
    case StatusAndMsg =>
      if Truthy(err) && Truthy(Prop(err, "status")) && Truthy(Prop(err, "msg"))
      then Sent(Response(Prop(err, "status"), map["msg" := Prop(err, "msg")]))
      else Next(err)
    case InvalidTextRepresentation =>
      if Truthy(err) && Prop(err, "code") == Str("22P02") then Sent(BadRequest) else Next(err)
    case CatchAll =>
      Sent(InternalServerError)
  }

  const ErrorStack: seq<ErrorMiddleware> := [StatusAndMsg, InvalidTextRepresentation, CatchAll]

  /** Runs the error middlewares in order; `None` when all of them pass the
      error on. */
  function RunErrorStack(stack: seq<ErrorMiddleware>, err: Value): Option<Response> {
    if stack == [] then None
    else
      match Apply(stack[0], err)
      case Sent(r) => Some(r)
      case Next(e) => RunErrorStack(stack[1..], e)
  }

  /** The error carries its own status and message, both truthy. */
  predicate HasStatusAndMsg(err: Value) {
    Truthy(err) && Truthy(Prop(err, "status")) && Truthy(Prop(err, "msg"))
  }

  /** PostgreSQL's "invalid text representation" error, code 22P02. */
  predicate IsInvalidText(err: Value) {
    Truthy(err) && Prop(err, "code") == Str("22P02")
  }

  /** The classification the error middlewares implement, as a decision table:
      explicit status and message first, then 22P02, then an opaque 500. */
  function Classify(err: Value): (r: Response)
    ensures HasStatusAndMsg(err) ==>
      r.status == Prop(err, "status") && r.body == map["msg" := Prop(err, "msg")]
    ensures !HasStatusAndMsg(err) && IsInvalidText(err) ==>
      r.status == Num(400.0) && r.body == map["msg" := Str("Bad request")]
    ensures !HasStatusAndMsg(err) && !IsInvalidText(err) ==>
      r.status == Num(500.0) && r.body == map["msg" := Str("Internal Server Error")]
  {
    if HasStatusAndMsg(err) then Response(Prop(err, "status"), map["msg" := Prop(err, "msg")])
    else if IsInvalidText(err) then BadRequest
    else InternalServerError
  }

  /** The registered middleware chain always responds, and responds as the
      decision table says. */
  lemma {:induction false} ErrorStackIsClassify(err: Value)
    ensures RunErrorStack(ErrorStack, err) == Some(Classify(err))
  {
    var rest := [InvalidTextRepresentation, CatchAll];
    assert ErrorStack[1..] == rest && rest[1..] == [CatchAll] && [CatchAll][1..] == [];
    if !HasStatusAndMsg(err) {
      assert RunErrorStack(ErrorStack, err) == RunErrorStack(rest, err);
      if !IsInvalidText(err) {
        assert RunErrorStack(rest, err) == RunErrorStack([CatchAll], err);
      }
    }
  }

  /** Any error with a truthy status and message is sent verbatim, whatever
      storage code it also carries. */
  lemma StatusAndMsgWinsOverCode(status: Value, msg: Value, code: Value)
    requires Truthy(status) && Truthy(msg)
    ensures var err := Obj(map["status" := status, "msg" := msg, "code" := code]);
      Classify(err) == Response(status, map["msg" := msg])
  {
  }

  /** An error with only one of status and message is never sent verbatim. */
  lemma HalfExplicitFallsThrough(err: Value)
    requires Truthy(err)
    requires Truthy(Prop(err, "status")) != Truthy(Prop(err, "msg"))
    ensures Classify(err) == BadRequest || Classify(err) == InternalServerError
  {
  }

  /** A 500 reveals nothing about the error: any two errors that reach the
      catch-all get the same response. */
  lemma InternalErrorIsOpaque(e1: Value, e2: Value)
    requires !HasStatusAndMsg(e1) && !IsInvalidText(e1)
    requires !HasStatusAndMsg(e2) && !IsInvalidText(e2)
    ensures Classify(e1) == Classify(e2) == InternalServerError
  {
  }

  /** How a request that reached a handler ends: a sent response, an error
      classified by the middleware chain, or no response at all. Express
      treats a falsy value passed to `next` as no error at all, so it skips
      the error middlewares and reaches the catch-all 404 instead. */
  function Finish(h: Handled): (r: Option<Response>)
    ensures h.Reply? ==> r == Some(h.response)
    ensures h.Forward? && Truthy(h.err) ==> r == Some(Classify(h.err))
    ensures h.Forward? && !Truthy(h.err) ==> r == Some(RouteNotFound)
    ensures h.Unhandled? ==> r == None
  {
    match h
    case Reply(resp) => Some(resp)
    case Forward(err) =>
      if !Truthy(err) then Some(RouteNotFound)
      else ErrorStackIsClassify(err); RunErrorStack(ErrorStack, err)
    case Unhandled => None
  }

  /** The application end to end: the topics handler (not part of this model)
      ends as `getTopics`; every other request, whatever its method, gets the
      catch-all 404. */
  function Serve(req: Request, getTopics: Handled): (r: Option<Response>)
    ensures MatchRoute(req).None? ==> r == Some(RouteNotFound)
    ensures MatchRoute(req).Some? ==> r == Finish(getTopics)
  {
    match MatchRoute(req)
    case Some(GetTopics) => Finish(getTopics)
    case None => Some(RouteNotFound)
  }

  /** An unknown path, or a known path with another method, is a 404 with
      `{ msg: "Route not found" }`. */
  lemma UnmatchedRouteIs404(verb: string, path: string, getTopics: Handled)
    requires verb != "GET" || path != "/api/topics"
    ensures Serve(Request(verb, path), getTopics) ==
      Some(Response(Num(404.0), map["msg" := Str("Route not found")]))
  {
  }
}
