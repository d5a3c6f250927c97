/** The comment handlers: list an article's comments, and post a comment with
    its request checks and the translation of the foreign-key violation. */
module CommentsController {
  import opened Js
  import opened Http
  import opened Models
  import App

  /** `getCommentsByArticleId`: a non-numeric id is a 400 with no model call;
      otherwise the comments query and the existence check are both issued,
      the reply holds the comments only, and a rejection of either is passed
      on. When both reject, which reason wins depends on timing; the contract
      only promises that it is one of them. */
  function GetCommentsByArticleId(params: Params, isNaNText: string -> bool, store: Store)
    : (h: Handling)
    ensures ParamIsNaN(params, "article_id", isNaNText) ==> h == Handling([], Reply(BadRequest))
    ensures !ParamIsNaN(params, "article_id", isNaNText) ==>
      var id := Param(params, "article_id");
      var comments, found := store(SelectCommentsByArticleId(id)), store(CheckArticleExists(id));
      && h.calls == [SelectCommentsByArticleId(id), CheckArticleExists(id)]
      && (comments.Resolved? && found.Resolved? ==>
            h.result == Reply(Send(200, "comments", comments.value)))
      && (comments.Rejected? || found.Rejected? ==>
            h.result.Forward? &&
            ((comments.Rejected? && h.result.err == comments.reason) ||
             (found.Rejected? && h.result.err == found.reason)))
    ensures ForwardsOnlyRejections(h, store) && SucceedsOnlyOnResolution(h, store)
  {
    if ParamIsNaN(params, "article_id", isNaNText) then Handling([], Reply(BadRequest))
    else
      var id := Param(params, "article_id");
      var calls := [SelectCommentsByArticleId(id), CheckArticleExists(id)];
      match (store(calls[0]), store(calls[1]))
      case (Rejected(e), _) => Handling(calls, Forward(e))
      case (_, Rejected(e)) => Handling(calls, Forward(e))
      case (Resolved(comments), Resolved(_)) => Handling(calls, Reply(Send(200, "comments", comments)))
  }

  const MissingRequiredFields: Response := Msg(400, "Missing required fields")
  const UserOrArticleNotFound: Response := Msg(404, "User or Article not found")

  /** The `.catch` of `postCommentByArticleId`: the foreign-key violation 23503
      becomes a 404, any other error goes to `next`. Reading `code` off a
      `null` or `undefined` rejection throws inside the handler, and that
      rejection is left unhandled: no response is sent, and under Node's
      default for unhandled rejections the whole process exits. */
  function CatchPostError(err: Value): (h: Handled)
    ensures AccessThrows(err) ==> h == Unhandled
    ensures !AccessThrows(err) && Prop(err, "code") == Str("23503") ==>
      h == Reply(Response(Num(404.0), map["msg" := Str("User or Article not found")]))
    ensures !AccessThrows(err) && Prop(err, "code") != Str("23503") ==> h == Forward(err)
  {
    if AccessThrows(err) then Unhandled
    else if Prop(err, "code") == Str("23503") then Reply(UserOrArticleNotFound)
    else Forward(err)
  }

  /** Both required body fields are truthy. */
  predicate HasRequiredFields(body: Record) {
    Truthy(Get(body, "username")) && Truthy(Get(body, "body"))
  }

  /** `postCommentByArticleId`: the id check comes first, then the two required
      fields; the insert is issued only once the existence check resolved, and
      any rejection of either goes through `CatchPostError`. */
  function PostCommentByArticleId(params: Params, body: Record, isNaNText: string -> bool,
                                  store: Store): (h: Handling)
    ensures ParamIsNaN(params, "article_id", isNaNText) ==> h == Handling([], Reply(BadRequest))
    ensures !ParamIsNaN(params, "article_id", isNaNText) && !HasRequiredFields(body) ==>
      h == Handling([], Reply(Response(Num(400.0), map["msg" := Str("Missing required fields")])))
    ensures !ParamIsNaN(params, "article_id", isNaNText) && HasRequiredFields(body) ==>
      var id := Param(params, "article_id");
      var check := CheckArticleExists(id);
      var insert := InsertCommentByArticleId(id, Get(body, "username"), Get(body, "body"));
      && (store(check).Rejected? ==>
            h == Handling([check], CatchPostError(store(check).reason)))
      && (store(check).Resolved? && store(insert).Resolved? ==>
            h == Handling([check, insert], Reply(Send(201, "comment", store(insert).value))))
      && (store(check).Resolved? && store(insert).Rejected? ==>
            h == Handling([check, insert], CatchPostError(store(insert).reason)))
    ensures ForwardsOnlyRejections(h, store) && SucceedsOnlyOnResolution(h, store)
  {
    var id := Param(params, "article_id");
    var username, text := Get(body, "username"), Get(body, "body");
    if ParamIsNaN(params, "article_id", isNaNText) then Handling([], Reply(BadRequest))
    else if !Truthy(username) || !Truthy(text) then Handling([], Reply(MissingRequiredFields))
    else
      var check := CheckArticleExists(id);
      match store(check)
      case Rejected(e) =>
        var h := Handling([check], CatchPostError(e));
        assert h.calls[0] == check;
        h
      case Resolved(_) =>
        var insert := InsertCommentByArticleId(id, username, text);
        match store(insert)
        case Resolved(comment) => Handling([check, insert], Reply(Send(201, "comment", comment)))
        case Rejected(e) =>
          var h := Handling([check, insert], CatchPostError(e));
          assert h.calls[1] == insert;
          h
  }

  /** The insert never runs for a request that fails a check or names an
      article the existence check rejects; when it runs it carries the id,
      username and body exactly as received. */
  lemma InsertOnlyAfterChecks(params: Params, body: Record, isNaNText: string -> bool,
                              store: Store, i: nat)
    requires var h := PostCommentByArticleId(params, body, isNaNText, store);
      i < |h.calls| && h.calls[i].InsertCommentByArticleId?
    ensures !ParamIsNaN(params, "article_id", isNaNText) && HasRequiredFields(body)
    ensures store(CheckArticleExists(Param(params, "article_id"))).Resolved?
    ensures PostCommentByArticleId(params, body, isNaNText, store).calls[i] ==
      InsertCommentByArticleId(Param(params, "article_id"), Get(body, "username"), Get(body, "body"))
  {
  }

  /** End to end: a valid post naming an article the existence check rejects
      with its own status and message (and no storage code) gets that status
      and message from the error pipeline, not "User or Article not found". */
  lemma PostToMissingArticle(params: Params, body: Record, isNaNText: string -> bool,
                             store: Store, status: Value, msg: Value)
    requires !ParamIsNaN(params, "article_id", isNaNText) && HasRequiredFields(body)
    requires Truthy(status) && Truthy(msg)
    requires store(CheckArticleExists(Param(params, "article_id"))) ==
      Rejected(Obj(map["status" := status, "msg" := msg]))
    ensures App.Finish(PostCommentByArticleId(params, body, isNaNText, store).result) ==
      App.Some(Response(status, map["msg" := msg]))
  {
  }
}
