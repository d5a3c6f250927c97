/** The record-reshaping helpers the seeder runs over the fixture data before
    inserting it: timestamp conversion, the title-to-id lookup built from the
    inserted articles, and the comments rewritten to point at article ids.
    Records are values, so no helper can change the records it is given. */
module SeedUtils {
  import opened Js

  const CreatedAt: string := "created_at"
  const Title: string := "title"
  const ArticleId: string := "article_id"
  const ArticleTitle: string := "article_title"

  /** `convertTimestampToDate`: a truthy `created_at` becomes a date, a falsy
      or missing one is dropped; every other property is kept as it is. */
  function ConvertTimestampToDate(rec: Record): (r: Record)
    ensures CreatedAt in r <==> Truthy(Get(rec, CreatedAt))
    ensures CreatedAt in r ==> CreatedAt in rec && r[CreatedAt] == Date(rec[CreatedAt])
    ensures forall k :: k != CreatedAt ==> (k in r <==> k in rec)
    ensures forall k :: k in r && k != CreatedAt ==> r[k] == rec[k]
  {
    var others := rec - {CreatedAt};
    if !Truthy(Get(rec, CreatedAt)) then others
    else others[CreatedAt := Date(rec[CreatedAt])]
  }

  /** The title-to-id lookup: keyed by the title value itself. */
  type Ref = map<Value, Value>

  /** The lookup the reduce in `createArticleRef` accumulates, row by row from
      the left: each row sets its title to its id, later rows overwriting. */
  function ArticleRef(rows: seq<Record>): Ref
    decreases |rows|
  {
    if rows == [] then map[]
    else
      var last := rows[|rows| - 1];
      ArticleRef(rows[..|rows| - 1])[Get(last, Title) := Get(last, ArticleId)]
  }

  /** The titles the rows carry (a missing title reads as `undefined`). */
  function Titles(rows: seq<Record>): set<Value> {
    set i | 0 <= i < |rows| :: Get(rows[i], Title)
  }

  /** The lookup's keys are exactly the titles of the rows. */
  lemma {:induction false} ArticleRefKeys(rows: seq<Record>)
    ensures ArticleRef(rows).Keys == Titles(rows)
    decreases |rows|
  {
    if rows != [] {
      var init := rows[..|rows| - 1];
      ArticleRefKeys(init);
      forall t | t in Titles(rows) ensures t in ArticleRef(rows).Keys {
        var i :| 0 <= i < |rows| && Get(rows[i], Title) == t;
        if i < |rows| - 1 {
          assert init[i] == rows[i];
        }
      }
      forall t | t in ArticleRef(rows).Keys ensures t in Titles(rows) {
        if t != Get(rows[|rows| - 1], Title) {
          assert t in Titles(init);
          var i :| 0 <= i < |init| && Get(init[i], Title) == t;
          assert rows[i] == init[i];
        }
      }
    }
  }

  /** Row `i` is the last of the rows whose title is `t`. */
  predicate IsLastWithTitle(rows: seq<Record>, i: int, t: Value) {
    && 0 <= i < |rows|
    && Get(rows[i], Title) == t
    && forall j :: i < j < |rows| ==> Get(rows[j], Title) != t
  }

  /** A title maps to the id of the last row that carries it. */
  lemma {:induction false} ArticleRefLast(rows: seq<Record>, i: int, t: Value)
    requires IsLastWithTitle(rows, i, t)
    ensures t in ArticleRef(rows) && ArticleRef(rows)[t] == Get(rows[i], ArticleId)
    decreases |rows|
  {
    if i < |rows| - 1 {
      var init := rows[..|rows| - 1];
      assert init[i] == rows[i];
      forall j | i < j < |init| ensures Get(init[j], Title) != t {
        assert init[j] == rows[j];
      }
      ArticleRefLast(init, i, t);
    }
  }

  /** `createArticleRef`: fills the accumulator one row at a time. */
  method CreateArticleRef(rows: seq<Record>) returns (acc: Ref)
    ensures acc == ArticleRef(rows)
  {
    acc := map[];
    var i := 0;
    while i < |rows|
      invariant 0 <= i <= |rows|
      invariant acc == ArticleRef(rows[..i])
    {
      assert rows[..i + 1][..i] == rows[..i];
      acc := acc[Get(rows[i], Title) := Get(rows[i], ArticleId)];
      i := i + 1;
    }
    assert rows[..|rows|] == rows;
  }

  /** `articleRef[title]`: `undefined` for a title the lookup lacks. */
  function Lookup(ref: Ref, title: Value): Value {
    if title in ref then ref[title] else Undefined
  }

  /** One comment as `makeCommentsWithArticleId` rewrites it: `article_title`
      goes, `article_id` is always set from the lookup (overriding one the
      comment had), `created_at` is converted, everything else stays. */
  function WithArticleId(comment: Record, ref: Ref): (r: Record)
    ensures ArticleTitle !in r
    ensures ArticleId in r && r[ArticleId] == Lookup(ref, Get(comment, ArticleTitle))
    ensures CreatedAt in r <==> Truthy(Get(comment, CreatedAt))
    ensures CreatedAt in r ==> CreatedAt in comment && r[CreatedAt] == Date(comment[CreatedAt])
    ensures forall k :: k != ArticleTitle && k != ArticleId && k != CreatedAt ==>
      (k in r <==> k in comment)
    ensures forall k :: k in r && k != ArticleId && k != CreatedAt ==> r[k] == comment[k]
  {
    var rest := comment - {ArticleTitle, CreatedAt};
    var converted := ConvertTimestampToDate(rest[CreatedAt := Get(comment, CreatedAt)]);
    converted[ArticleId := Lookup(ref, Get(comment, ArticleTitle))]
  }

  /** `makeCommentsWithArticleId`: the comments rewritten one by one, in order. */
  function MakeCommentsWithArticleId(comments: seq<Record>, ref: Ref): (r: seq<Record>)
    ensures |r| == |comments|
    ensures forall i :: 0 <= i < |comments| ==> r[i] == WithArticleId(comments[i], ref)
    decreases |comments|
  {
    if comments == [] then []
    else [WithArticleId(comments[0], ref)] + MakeCommentsWithArticleId(comments[1..], ref)
  }

  /** What the seeder gets by chaining the two: a comment whose title some
      inserted row carries is linked to the id of the last such row, and a
      comment whose title no row carries gets `article_id: undefined`. */
  lemma SeedLinksComments(rows: seq<Record>, comments: seq<Record>, c: nat)
    requires c < |comments|
    ensures var out := MakeCommentsWithArticleId(comments, ArticleRef(rows));
      var title := Get(comments[c], ArticleTitle);
      && ArticleId in out[c]
      && (title !in Titles(rows) ==> out[c][ArticleId] == Undefined)
      && (forall i :: IsLastWithTitle(rows, i, title) ==> out[c][ArticleId] == Get(rows[i], ArticleId))
  {
    var title := Get(comments[c], ArticleTitle);
    ArticleRefKeys(rows);
    forall i | IsLastWithTitle(rows, i, title)
      ensures Lookup(ArticleRef(rows), title) == Get(rows[i], ArticleId)
    {
      ArticleRefLast(rows, i, title);
    }
  }
}
