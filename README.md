# nc_news REST API: seed transforms, request checks and the error pipeline

This project models three database-free parts of a small news-aggregator REST
API built on Express and PostgreSQL, and proves what they promise.

- **Seed-data transforms** (`SeedUtils`). `convertTimestampToDate` turns a
  truthy `created_at` into a date and drops a falsy or missing one.
  `createArticleRef` builds a title-to-`article_id` lookup from the inserted
  article rows. `makeCommentsWithArticleId` replaces each comment's
  `article_title` with the `article_id` found in that lookup. Records are
  finite maps from property name to a JavaScript value (`Js.Value`). A
  `new Date(v)` is the opaque value `Date(v)`.
- **Routing and the error pipeline** (`App`). The route table holds only
  `GET /api/topics`. Every other request falls through to the catch-all 404
  `{ msg: "Route not found" }`. A truthy error passed to `next` goes through three
  middlewares in registration order. The first sends an explicit `status` and
  `msg` as they are. The second turns PostgreSQL code `22P02` into 400
  `Bad request`. The third answers 500 `Internal Server Error`. The chain
  is modelled as a list of middlewares run in order (`RunErrorStack`). It is
  proved equal to a decision table (`Classify`).
- **Request handlers** (`ArticlesController`, `CommentsController`). Each
  handler is a pure function of four things: the path parameters, the request
  body, the string-to-number rule behind `isNaN` (a parameter
  `isNaNText: string -> bool`), and a `Store`. The store maps each model call
  to how its promise settles. A handler returns the model calls it issued, in
  order, together with how it ended: a response, an error forwarded to
  `next`, or a rejection left unhandled. "The model is not called" is
  therefore `calls == []`. Every handler is proved to forward only the
  rejection reason of a call it issued. Every handler is proved to send a 2xx
  only when all its calls resolved.

The application's own endpoint map (`controllers/api.controller.js:2-10`)
lists nine endpoints, but `app.js:6` registers only `GET /api/topics`, so the
route table has that one route. The article and comment handlers are
modelled as functions, and `App.Finish` shows what the pipeline would do
with their results. The endpoint map says `GET /api/articles` supports
`sort_by`, `order` and `topic`, but `getArticles` calls `selectArticles()`
with no arguments (`controllers/articles.controller.js:4`); the model follows
the code. `getArticleById` passes `article_id` to `selectArticleById`
unchecked (`controllers/articles.controller.js:12-13`).

## Model

| member | source | states |
|---|---|---|
| SeedUtils.ConvertTimestampToDate | db/seeds/utils.js:3-6 | `created_at` is in the result exactly when the input's `created_at` is truthy, and then it is `Date(created_at)`; every other key is present exactly when it was, with the same value |
| SeedUtils.CreateArticleRef | db/seeds/utils.js:9-14 | the loop that fills the accumulator row by row returns the left fold `ArticleRef(rows)`; from `[]` it returns the empty map |
| SeedUtils.ArticleRefKeys | db/seeds/utils.js:10-13 | the lookup's keys are exactly the titles carried by the rows |
| SeedUtils.ArticleRefLast | db/seeds/utils.js:10-13 | a title maps to the `article_id` of the last row that carries it |
| SeedUtils.WithArticleId | db/seeds/utils.js:18-28 | an output comment has no `article_title`; it always has `article_id`, equal to the lookup of its title or `undefined`, overriding any incoming id; its `created_at` is converted as above; every other key and value is kept |
| SeedUtils.MakeCommentsWithArticleId | db/seeds/utils.js:17-30 | same length, same order, element i is comment i rewritten; `[]` gives `[]` |
| SeedUtils.SeedLinksComments | db/seeds/seed.js:107-109 | chaining the lookup and the rewrite links each comment to the id of the last inserted row with its title, and to `undefined` when no row has that title |
| App.MatchRoute | app.js:6 | a request matches a route exactly when it is `GET /api/topics` |
| App.Serve | app.js:6-10 | a matched request ends as the topics handler ends; any other request gets the 404 |
| App.UnmatchedRouteIs404 | app.js:8-10 | any method on any other path, or any other method on `/api/topics`, gets 404 `{ msg: "Route not found" }` |
| App.Classify | app.js:12-29 | a truthy error with truthy `status` and `msg` gets that status and `{ msg }`; otherwise a truthy error with code `"22P02"` gets 400 `Bad request`; everything else gets 500 `Internal Server Error` |
| App.ErrorStackIsClassify | app.js:12-29 | the three registered middlewares, run in order, always send a response, and it is the one `Classify` gives |
| App.StatusAndMsgWinsOverCode | app.js:12-24 | an error with truthy `status` and `msg` is sent verbatim even when its code is `"22P02"` |
| App.HalfExplicitFallsThrough | app.js:13-16 | an error with only one of `status` and `msg` truthy is not sent verbatim; it ends as 400 or 500 |
| App.InternalErrorIsOpaque | app.js:27-29 | any two errors that reach the catch-all get the identical 500, so nothing of the error reaches the client |
| App.Finish | app.js:8-29 | a sent response is kept; a truthy forwarded error ends as `Classify` says; a falsy one skips the error middlewares and gets the catch-all 404; an unhandled rejection gets no response |
| Models.SendOrForward | controllers/articles.controller.js:5-8 | a resolved call gives the status with `{ key: value }` holding the value unchanged; a rejected call forwards its reason unchanged |
| ArticlesController.GetArticles | controllers/articles.controller.js:3-9 | one `selectArticles` call; 200 `{ articles }` with the model's rows as they are, or the rejection forwarded |
| ArticlesController.GetArticleById | controllers/articles.controller.js:11-18 | no check of its own: exactly one `selectArticleById` call with `article_id` as received; 200 `{ article }` or the rejection forwarded |
| ArticlesController.PatchArticleById | controllers/articles.controller.js:20-32 | a non-numeric id or an `inc_votes` that is missing or not a number gives 400 `Bad request` with no model call; only when both checks pass is `updateArticleVotes` called once, with the id and increment unchanged; then 200 `{ article }` or the rejection forwarded |
| CommentsController.GetCommentsByArticleId | controllers/comments.controller.js:4-19 | a non-numeric id gives 400 with no model call; otherwise both the comments query and the existence check are issued; 200 `{ comments }` holds the comments query's result only; if either rejects, one of the rejection reasons is forwarded |
| CommentsController.CatchPostError | controllers/comments.controller.js:38-43 | code `"23503"` gives 404 `User or Article not found`; any other error is forwarded unchanged; a `null` or `undefined` rejection makes the handler throw and leaves the request unanswered (and, by Node's default for unhandled rejections, the process exits) |
| CommentsController.PostCommentByArticleId | controllers/comments.controller.js:21-44 | the id check comes first (400 `Bad request`), then the fields (falsy `username` or `body` gives 400 `Missing required fields`), neither with a model call; the insert is issued only after the existence check resolved; a resolved insert gives 201 `{ comment }` with the row as returned; every rejection goes through `CatchPostError` |
| CommentsController.InsertOnlyAfterChecks | controllers/comments.controller.js:25-34 | whenever an insert call was issued, both checks passed, the existence check resolved, and the insert carries the id, username and body as received |
| CommentsController.PostToMissingArticle | controllers/comments.controller.js:33-43 | an existence check that rejects with its own status and message and no code ends, through the error pipeline, as exactly that status and message |

## Left out

- Key order of JavaScript objects: records are maps, so the model does not say that `created_at` comes first, or that `article_id` comes last unless the comment already had one (then it keeps its earlier position).
- Property-key coercion: the title lookup is keyed by title values, but a JavaScript object turns keys into strings. The model does not capture that `1` and `"1"`, or `undefined` and `"undefined"`, would collide. It also leaves out inherited properties such as `constructor`.
- Mutation and freshness: records and sequences are values here. "The input is not mutated" and "the outputs are fresh objects" hold because of those value semantics, and no separate proof states them.
- The default arguments (`articleRows = []`, `comments = []`, `articleRef = {}`): the model's parameters are always given.
- JavaScript dates beyond the opaque `Date(v)`, numbers beyond finite reals and `NaN` (no infinities), and the exact `isNaN` string rules. `isNaN` on a string is the parameter `isNaNText`.
- Express dispatch: path matching is exact string equality. Express's case-insensitive matching, its tolerance of a trailing slash, and `HEAD` served by a `GET` route are not modelled. The special values `next("route")` and `next("router")` are not modelled. A falsy value passed to `next` (`undefined`, `null`, `0`, `""`) is modelled as Express treats it: it skips the error middlewares and gets the 404. `Classify` itself reads the middleware code as written for any value.
- The request body is always a parsed record. `app.js` registers no body parser, so if the article and comment handlers were mounted as written, `req.body` would be `undefined` and the destructuring at `controllers/articles.controller.js:22` and `controllers/comments.controller.js:23` would throw before the `isNaN` check. The modelled gates assume a parsed body; that TypeError is not modelled.
- CommentsController.GetCommentsByArticleId: when both calls reject, the contract promises only that one of the two reasons is forwarded, because which one `Promise.all` reports depends on timing. The function picks the comments query's reason; the contract is deliberately weaker than that choice.
- The model layer (`models/*.js`), the existence checker, the seeder's table creation and inserts (`db/seeds/seed.js`), the reporting script (`db/query.js`), process bootstrap (`listen.js`) and the constant endpoint map (`controllers/api.controller.js`): these are SQL and I/O. Model calls are opaque outcomes given by the `Store` parameter.
- The topics handler (`controllers/topics.controller.js`) is not part of this model. `App.Serve` takes how it ends as a parameter.
- Errors thrown while sending a response, and the database's row-level behaviour (sorting, joins, counts, vote arithmetic).
