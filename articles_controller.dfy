/** The article handlers: list, fetch by id, and the vote update with its two
    request checks. Each handler is a function of the request, the
    string-to-number rule behind `isNaN`, and the store answering its calls. */
module ArticlesController {
  import opened Js
  import opened Http
  import opened Models

  /** `getArticles`: one unfiltered query; its rows are sent as they are. */
  function GetArticles(store: Store): (h: Handling)
    ensures h.calls == [SelectArticles]
    ensures h.result == SendOrForward(store(SelectArticles), 200, "articles")
    ensures ForwardsOnlyRejections(h, store) && SucceedsOnlyOnResolution(h, store)
  {
    var h := Handling([SelectArticles], SendOrForward(store(SelectArticles), 200, "articles"));
    assert h.calls[0] == SelectArticles;
    h
  }

  /** `getArticleById`: no check of its own; the id goes to the model as given. */
  function GetArticleById(params: Params, store: Store): (h: Handling)
    ensures h.calls == [SelectArticleById(Param(params, "article_id"))]
    ensures h.result == SendOrForward(store(h.calls[0]), 200, "article")
    ensures ForwardsOnlyRejections(h, store) && SucceedsOnlyOnResolution(h, store)
  {
    var call := SelectArticleById(Param(params, "article_id"));
    Handling([call], SendOrForward(store(call), 200, "article"))
  }

  /** The two checks `patchArticleById` makes before calling the model. */
  predicate PatchIsValid(params: Params, body: Record, isNaNText: string -> bool) {
    !ParamIsNaN(params, "article_id", isNaNText) && IsNumber(Get(body, "inc_votes"))
  }

  /** `patchArticleById`: a non-numeric id, or an `inc_votes` that is missing or
      not a number, is a 400 with no model call; otherwise the vote update is
      called once with the id and increment as received. */
  function PatchArticleById(params: Params, body: Record, isNaNText: string -> bool, store: Store)
    : (h: Handling)
    ensures !PatchIsValid(params, body, isNaNText) ==> h == Handling([], Reply(BadRequest))
    ensures PatchIsValid(params, body, isNaNText) ==>
      && h.calls == [UpdateArticleVotes(Param(params, "article_id"), Get(body, "inc_votes"))]
      && h.result == SendOrForward(store(h.calls[0]), 200, "article")
    ensures ForwardsOnlyRejections(h, store) && SucceedsOnlyOnResolution(h, store)
  {
    var articleId := Param(params, "article_id");
    var incVotes := Get(body, "inc_votes");
    if ParamIsNaN(params, "article_id", isNaNText) then Handling([], Reply(BadRequest))
    else if incVotes == Undefined || !IsNumber(incVotes) then Handling([], Reply(BadRequest))
    else
      var call := UpdateArticleVotes(articleId, incVotes);
      Handling([call], SendOrForward(store(call), 200, "article"))
  }
}
