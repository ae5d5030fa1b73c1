/** Row shapes of the four tables (types.ts) and the per-article aggregate
    that the article queries compute with `LEFT JOIN comments ... GROUP BY
    article_id` and `COUNT(comment_id)`. Ids and `created_at` are integers. */
module Rows {
  import opened Outcomes
  import opened Relational

  datatype Article = Article(
    article_id: int, title: string, topic: string, author: string, body: string,
    votes: int, article_img_url: string, created_at: int)

  datatype Comment = Comment(
    comment_id: int, body: string, author: string, article_id: int,
    votes: int, created_at: int)

  datatype Topic = Topic(slug: string, description: string)

  datatype User = User(username: string, name: string, avatar_url: string)

  /** `SELECT articles.*, ... AS comment_count`: a whole row and its count. */
  datatype ArticleWithCount = ArticleWithCount(article: Article, comment_count: int)

  /** A row of the article listing: every column but `body`, and the count. */
  datatype ArticleSummary = ArticleSummary(
    author: string, title: string, article_id: int, topic: string,
    created_at: int, votes: int, article_img_url: string, comment_count: int)

  /** `comments WHERE article_id = id`, in table order. */
  function CommentsOf(comments: seq<Comment>, id: int): (r: seq<Comment>)
    ensures forall c :: c in r <==> c in comments && c.article_id == id
  {
    Filter(comments, (c: Comment) => c.article_id == id)
  }

  /** The comment side of an article's rows in `articles LEFT JOIN comments ON
      articles.article_id = comments.article_id`: one row per matching
      comment, or a single row of NULLs when none matches. */
  function LeftJoinedComments(a: Article, comments: seq<Comment>): (r: seq<Option<Comment>>)
    ensures |r| >= 1
  {
    var m := CommentsOf(comments, a.article_id);
    if m == [] then [None] else seq(|m|, i requires 0 <= i < |m| => Some(m[i]))
  }

  /** `COUNT(comment_id)`: the rows whose comment column is not NULL. */
  function CountNonNull<T>(rows: seq<Option<T>>): nat
  {
    if rows == [] then 0 else (if rows[0].Some? then 1 else 0) + CountNonNull(rows[1..])
  }

  lemma {:induction false} CountNonNullAllPresent<T>(rows: seq<Option<T>>)
    requires forall i :: 0 <= i < |rows| ==> rows[i].Some?
    ensures CountNonNull(rows) == |rows|
  {
    if rows != [] {
      CountNonNullAllPresent(rows[1..]);
    }
  }

  /** The aggregate of one article group. */
  function GroupCommentCount(a: Article, comments: seq<Comment>): nat
  {
    CountNonNull(LeftJoinedComments(a, comments))
  }

  /** The left join counts exactly the article's comments, and gives 0 (not
      NULL, not a missing row) when it has none. */
  lemma CommentCountIsMatchCount(a: Article, comments: seq<Comment>)
    ensures GroupCommentCount(a, comments) == |CommentsOf(comments, a.article_id)|
    ensures GroupCommentCount(a, comments) == 0 <==> forall c :: c in comments ==> c.article_id != a.article_id
  {
    var m := CommentsOf(comments, a.article_id);
    if m != [] {
      CountNonNullAllPresent(seq(|m|, i requires 0 <= i < |m| => Some(m[i])));
      assert m[0] in comments;
    } else {
      var nulls: seq<Option<Comment>> := [None];
      assert nulls[1..] == [];
    }
  }

  function WithCount(a: Article, comments: seq<Comment>): ArticleWithCount
  {
    ArticleWithCount(a, GroupCommentCount(a, comments))
  }

  /** The listing columns of an article group. */
  function Summarize(a: Article, comments: seq<Comment>): ArticleSummary
  {
    ArticleSummary(a.author, a.title, a.article_id, a.topic, a.created_at, a.votes,
                   a.article_img_url, GroupCommentCount(a, comments))
  }

  /** The summary carries each listed column of its article unchanged. */
  ghost predicate SummaryOf(r: ArticleSummary, a: Article, comments: seq<Comment>)
  {
    && r.article_id == a.article_id && r.title == a.title && r.topic == a.topic
    && r.author == a.author && r.created_at == a.created_at && r.votes == a.votes
    && r.article_img_url == a.article_img_url
    && r.comment_count == |CommentsOf(comments, a.article_id)|
  }

  /** One listing row per selected article, in table order. */
  function Summaries(selected: seq<Article>, comments: seq<Comment>): (r: seq<ArticleSummary>)
    ensures |r| == |selected|
    ensures forall i :: 0 <= i < |r| ==> SummaryOf(r[i], selected[i], comments)
  {
    var r := seq(|selected|, i requires 0 <= i < |selected| => Summarize(selected[i], comments));
    assert forall i :: 0 <= i < |r| ==> SummaryOf(r[i], selected[i], comments) by {
      forall i | 0 <= i < |r| ensures SummaryOf(r[i], selected[i], comments) {
        CommentCountIsMatchCount(selected[i], comments);
      }
    }
    r
  }
}
