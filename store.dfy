/** The data layer of the four model files (articles, comments, topics, users) over an in-memory database: the four
    tables as sequences of rows, the SERIAL counters that hand out article and
    comment ids, and the constraints the queries run into (primary keys and
    the foreign keys from articles and comments). Each model function becomes
    a function (a read) or a method (a write) of `Database`; what the
    promise resolves with is the result, what it rejects with is a `Failure`. */
module Store {
  import opened Outcomes
  import opened Keys
  import opened Relational
  import opened Rows
  import opened ArticleQuery

  const DefaultArticleImage: string :=
    "https://images.pexels.com/photos/97050/pexels-photo-97050.jpeg?w=700&h=700"

  // Keys of the four tables.
  function ArticleKey(a: Article): int { a.article_id }
  function CommentKey(c: Comment): int { c.comment_id }
  function TopicKey(t: Topic): string { t.slug }
  function UserKey(u: User): string { u.username }

  function ArticleIds(s: seq<Article>): set<int> { set a | a in s :: a.article_id }
  function TopicSlugs(s: seq<Topic>): set<string> { set t | t in s :: t.slug }
  function Usernames(s: seq<User>): set<string> { set u | u in s :: u.username }

  /** The database's constraints: primary keys are unique, ids are below their
      SERIAL counter, and every article and comment references rows that
      exist. */
  ghost predicate Consistent(
    articles: seq<Article>, comments: seq<Comment>, topics: seq<Topic>, users: seq<User>,
    nextArticleId: int, nextCommentId: int)
  {
    && Unique(articles, ArticleKey) && Unique(comments, CommentKey)
    && Unique(topics, TopicKey) && Unique(users, UserKey)
    && (forall a :: a in articles ==>
          a.article_id < nextArticleId && a.topic in TopicSlugs(topics) && a.author in Usernames(users))
    && (forall c :: c in comments ==>
          c.comment_id < nextCommentId && c.article_id in ArticleIds(articles) && c.author in Usernames(users))
  }

  // Row predicates of the WHERE clauses.
  function HasArticleId(id: int): Article -> bool { KeyIs(ArticleKey, id) }
  function NotArticleId(id: int): Article -> bool { (a: Article) => a.article_id != id }
  function HasCommentId(id: int): Comment -> bool { KeyIs(CommentKey, id) }
  function NotCommentId(id: int): Comment -> bool { (c: Comment) => c.comment_id != id }
  function NotOnArticle(id: int): Comment -> bool { (c: Comment) => c.article_id != id }
  function HasUsername(name: string): User -> bool { (u: User) => u.username == name }

  /** `WHERE a.topic = $1` when a topic is bound, no WHERE otherwise. */
  function TopicFilter(bound: Option<string>): Article -> bool
  {
    (a: Article) => bound.None? || a.topic == bound.value
  }

  /** What the database binds to `$1` for a plan: by the contract of
      `PlanListQuery`, the request's topic when it is truthy. */
  function BoundTopic(plan: ListPlan): Option<string>
  {
    if plan.filterByTopic && |plan.params| == 1 then Some(plan.params[0]) else None
  }

  /** The key `ORDER BY <column>` sorts listing rows on. */
  function SortKey(column: SortColumn): ArticleSummary -> Key
  {
    match column
    case Title => (r: ArticleSummary) => StrKey(r.title)
    case CreatedAt => (r: ArticleSummary) => IntKey(r.created_at)
    case Author => (r: ArticleSummary) => StrKey(r.author)
    case ArticleId => (r: ArticleSummary) => IntKey(r.article_id)
    case Votes => (r: ArticleSummary) => IntKey(r.votes)
    case CommentCount => (r: ArticleSummary) => IntKey(r.comment_count)
  }

  function CreatedAtKey(c: Comment): Key { IntKey(c.created_at) }

  /** `{ total_count, articles }`. */
  datatype ArticlePage = ArticlePage(total_count: int, articles: seq<ArticleSummary>)

  /** The listing rows a filter selects, one per article group. */
  function Listing(articles: seq<Article>, comments: seq<Comment>, bound: Option<string>): seq<ArticleSummary>
  {
    Summaries(Filter(articles, TopicFilter(bound)), comments)
  }

  /** The two queries of an admitted plan, run against the tables. */
  function RunListPlan(articles: seq<Article>, comments: seq<Comment>, plan: ListPlan): Result<ArticlePage>
  {
    var selected := Filter(articles, TopicFilter(BoundTopic(plan)));
    var listing := Summaries(selected, comments);
    var page := LimitOffset(OrderBy(listing, SortKey(plan.sortBy), plan.direction == Desc), plan.limit, plan.offset);
    match page
    case Failure(e) => Failure(e)
    case Success(rows) => Success(ArticlePage(|selected|, rows))
  }

  /** The change `SET votes = votes + inc` makes to a row. */
  function ArticleVotes(inc: int): Article -> Article { (a: Article) => a.(votes := a.votes + inc) }
  function CommentVotes(inc: int): Comment -> Comment { (c: Comment) => c.(votes := c.votes + inc) }

  /** The vote update keeps every other column, so it keeps the constraints
      on them and the set of ids. */
  lemma ArticleVotesKeepColumns(s: seq<Article>, id: int, inc: int, bound: int, slugs: set<string>, names: set<string>)
    requires forall a :: a in s ==> a.article_id < bound && a.topic in slugs && a.author in names
    ensures var t := UpdateWhere(s, ArticleKey, id, ArticleVotes(inc));
      && (forall a :: a in t ==> a.article_id < bound && a.topic in slugs && a.author in names)
      && ArticleIds(t) == ArticleIds(s)
  {
    var t := UpdateWhere(s, ArticleKey, id, ArticleVotes(inc));
    forall a | a in t ensures a.article_id < bound && a.topic in slugs && a.author in names {
      var k :| 0 <= k < |t| && t[k] == a;
      assert s[k] in s;
    }
    forall x | x in ArticleIds(s) ensures x in ArticleIds(t) {
      var a :| a in s && a.article_id == x;
      var k :| 0 <= k < |s| && s[k] == a;
      assert t[k] in t && ArticleKey(t[k]) == x;
    }
    forall x | x in ArticleIds(t) ensures x in ArticleIds(s) {
      var a :| a in t && a.article_id == x;
      var k :| 0 <= k < |t| && t[k] == a;
      assert s[k] in s && ArticleKey(s[k]) == x;
    }
  }

  lemma CommentVotesKeepColumns(s: seq<Comment>, id: int, inc: int, bound: int, ids: set<int>, names: set<string>)
    requires forall c :: c in s ==> c.comment_id < bound && c.article_id in ids && c.author in names
    ensures forall c :: c in UpdateWhere(s, CommentKey, id, CommentVotes(inc)) ==>
      c.comment_id < bound && c.article_id in ids && c.author in names
  {
    var t := UpdateWhere(s, CommentKey, id, CommentVotes(inc));
    forall c | c in t ensures c.comment_id < bound && c.article_id in ids && c.author in names {
      var k :| 0 <= k < |t| && t[k] == c;
      assert s[k] in s;
    }
  }

  /** A new comment joins the comments of its own article, at the end. */
  lemma CommentsOfAppend(comments: seq<Comment>, row: Comment)
    ensures CommentsOf(comments + [row], row.article_id) == CommentsOf(comments, row.article_id) + [row]
  {
    var keep := (c: Comment) => c.article_id == row.article_id;
    FilterConcat(comments, [row], keep);
    assert [row][1..] == [];
  }

  /** Appending a comment with the next SERIAL id and existing references
      keeps the database consistent. */
  lemma AppendComment(
    articles: seq<Article>, comments: seq<Comment>, topics: seq<Topic>, users: seq<User>,
    nextArticleId: int, nextCommentId: int, row: Comment)
    requires Consistent(articles, comments, topics, users, nextArticleId, nextCommentId)
    requires row.comment_id == nextCommentId
    requires row.article_id in ArticleIds(articles) && row.author in Usernames(users)
    ensures Consistent(articles, comments + [row], topics, users, nextArticleId, nextCommentId + 1)
    ensures CommentsOf(comments + [row], row.article_id) == CommentsOf(comments, row.article_id) + [row]
  {
    AppendUnique(comments, row, CommentKey);
    CommentsOfAppend(comments, row);
  }

  /** Appending a row whose key no row has keeps the keys unique. */
  lemma AppendUnique<T, K>(s: seq<T>, x: T, key: T -> K)
    requires Unique(s, key)
    requires forall y :: y in s ==> key(y) != key(x)
    ensures Unique(s + [x], key)
  {
    var r := s + [x];
    forall i, j | 0 <= i < j < |r| ensures key(r[i]) != key(r[j]) {
      if j == |s| { assert r[i] in s; } else { assert r[i] == s[i] && r[j] == s[j]; }
    }
  }

  /** With one cats article among others, `topic=cats&limit=1&p=1` lists
      that article alone and counts one match. */
  lemma CatsScenario(other: Article, cats: Article)
    requires other.topic != "cats" && cats.topic == "cats"
    ensures var req := ListRequest("cats", None, None, Some(Numeric(1)), Some(Numeric(1)));
      && PlanListQuery(req).Success?
      && RunListPlan([other, cats], [], PlanListQuery(req).value)
         == Success(ArticlePage(1, [Summarize(cats, [])]))
  {
    var req := ListRequest("cats", None, None, Some(Numeric(1)), Some(Numeric(1)));
    var plan := PlanListQuery(req).value;
    assert BoundTopic(plan) == Some("cats");
    var selected := Filter([other, cats], TopicFilter(Some("cats")));
    assert !TopicFilter(Some("cats"))(other);
    assert [other, cats][1..] == [cats] && [cats][1..] == [];
    assert Filter([cats], TopicFilter(Some("cats"))) == [cats];
    assert selected == [cats];
    var listing := Summaries(selected, []);
    assert listing == [Summarize(cats, [])];
    assert PlanListQuery(req).Success?;
    assert plan.limit == 1 && plan.offset == 0 && plan.direction == Desc;
    assert OrderBy(listing, SortKey(plan.sortBy), true) == listing;
    assert Window(listing, 0, 1) == listing;
    assert LimitOffset(listing, 1, 0) == Success(listing);
  }

  class Database {
    var articles: seq<Article>
    var comments: seq<Comment>
    var topics: seq<Topic>
    var users: seq<User>
    var nextArticleId: int
    var nextCommentId: int

    ghost predicate Valid()
      reads this
    {
      Consistent(articles, comments, topics, users, nextArticleId, nextCommentId)
    }

    /** A database holding the given (consistent) tables, as a seed leaves it. */
    constructor (
      articles0: seq<Article>, comments0: seq<Comment>, topics0: seq<Topic>, users0: seq<User>,
      nextArticleId0: int, nextCommentId0: int)
      requires Consistent(articles0, comments0, topics0, users0, nextArticleId0, nextCommentId0)
      ensures Valid()
      ensures articles == articles0 && comments == comments0 && topics == topics0 && users == users0
      ensures nextArticleId == nextArticleId0 && nextCommentId == nextCommentId0
    {
      articles, comments, topics, users := articles0, comments0, topics0, users0;
      nextArticleId, nextCommentId := nextArticleId0, nextCommentId0;
    }

    // -------------------------------------------------------------------
    // models/articles.model.ts

    /** `selectArticleById`: the article with its comment count, or a 404
        rejection when no row has that id. */
    function SelectArticleById(id: int): (r: Result<ArticleWithCount>)
      reads this
      ensures r.Success? <==> id in ArticleIds(articles)
      ensures r.Success? ==>
        && r.value.article in articles && r.value.article.article_id == id
        && r.value.comment_count == |CommentsOf(comments, id)|
      ensures r.Failure? ==> r.error == Rejection(404, "Article not found")
    {
      var rows := Filter(articles, HasArticleId(id));
      assert HasArticleId(id) == KeyIs(ArticleKey, id);
      if rows == [] then
        assert forall a :: a in articles ==> !HasArticleId(id)(a);
        Failure(Rejection(404, "Article not found"))
      else
        assert HasArticleId(id)(rows[0]) && rows[0] in articles;
        CommentCountIsMatchCount(rows[0], comments);
        Success(WithCount(rows[0], comments))
    }

    /** `selectArticles`: the gate, then the count query and the page query.
        The result is the number of matching articles and one page of some
        ordering of their listing rows by the requested column. */
    function SelectArticles(req: ListRequest): (r: Result<ArticlePage>)
      reads this
      ensures GateRejects(req) ==> r == Failure(BadRequest)
      ensures !GateRejects(req) ==>
        var plan := PlanListQuery(req).value;
        var inRange := InBigintRange(plan.limit) && InBigintRange(plan.offset);
        && (!inRange ==> r == Failure(DbError(NumericValueOutOfRange)))
        && (inRange && plan.offset < 0 ==> r == Failure(DbError(InvalidRowCountInResultOffsetClause)))
        && (inRange && plan.offset >= 0 && plan.limit < 0 ==> r == Failure(DbError(InvalidRowCountInLimitClause)))
        && (inRange && plan.offset >= 0 && plan.limit >= 0 ==> r.Success?)
      ensures r.Success? ==>
        var plan := PlanListQuery(req).value;
        && !GateRejects(req) && InBigintRange(plan.limit) && InBigintRange(plan.offset)
        && plan.offset >= 0 && plan.limit >= 0
        && r.value.total_count == |Filter(articles, TopicFilter(BoundTopic(plan)))|
        && |r.value.articles| <= plan.limit
        && exists ordered :: IsOrdering(ordered, Listing(articles, comments, BoundTopic(plan)),
                                        SortKey(plan.sortBy), plan.direction == Desc)
                          && r.value.articles == Window(ordered, plan.offset, plan.limit)
    {
      match PlanListQuery(req)
      case Failure(e) => Failure(e)
      case Success(plan) =>
        RunListPlan(articles, comments, plan)
    }

    /** `selectArticleCommentsById`: a 400 rejection for a non-numeric `p` or
        `limit`; otherwise one page of the article's comments, newest first.
        It does not check that the article exists. */
    function SelectArticleCommentsById(id: int, p: Option<Num>, limit: Option<Num>): (r: Result<seq<Comment>>)
      reads this
      ensures PageOrDefault(p).NotANumber? || LimitOrDefault(limit).NotANumber? ==> r == Failure(BadRequest)
      ensures PageOrDefault(p).Numeric? && LimitOrDefault(limit).Numeric? ==>
        var l, o := LimitOrDefault(limit).n, (PageOrDefault(p).n - 1) * LimitOrDefault(limit).n;
        var inRange := InBigintRange(l) && InBigintRange(o);
        && (!inRange ==> r == Failure(DbError(NumericValueOutOfRange)))
        && (inRange && o < 0 ==> r == Failure(DbError(InvalidRowCountInResultOffsetClause)))
        && (inRange && o >= 0 && l < 0 ==> r == Failure(DbError(InvalidRowCountInLimitClause)))
        && (inRange && o >= 0 && l >= 0 ==>
              && r.Success? && |r.value| <= l
              && (forall c :: c in r.value ==> c in comments && c.article_id == id)
              && exists ordered :: IsOrdering(ordered, CommentsOf(comments, id), CreatedAtKey, true)
                                && r.value == Window(ordered, o, l))
    {
      var pg, lm := PageOrDefault(p), LimitOrDefault(limit);
      if pg.NotANumber? || lm.NotANumber? then
        Failure(BadRequest)
      else
        var matching := CommentsOf(comments, id);
        var ordered := OrderBy(matching, CreatedAtKey, true);
        var o := (pg.n - 1) * lm.n;
        if o >= 0 && lm.n >= 0 then
          WindowOfOrderingMembers(ordered, matching, o, lm.n);
          LimitOffset(ordered, lm.n, o)
        else
          LimitOffset(ordered, lm.n, o)
    }

    /** `updateArticle`: adds `inc` to the votes of the row with that id and
        resolves with the updated row, or with undefined (None) when there is
        no such row. Nothing else changes. */
    method UpdateArticle(id: int, inc: int) returns (r: Option<Article>)
      requires Valid()
      modifies this
      ensures Valid()
      ensures articles == UpdateWhere(old(articles), ArticleKey, id, ArticleVotes(inc))
      ensures comments == old(comments) && topics == old(topics) && users == old(users)
      ensures nextArticleId == old(nextArticleId) && nextCommentId == old(nextCommentId)
      ensures r.Some? <==> id in ArticleIds(old(articles))
      ensures r.Some? ==> exists k :: 0 <= k < |articles| && old(articles)[k].article_id == id
                               && r.value == articles[k] == old(articles)[k].(votes := old(articles)[k].votes + inc)
      ensures r.None? ==> articles == old(articles)
    {
      ArticleVotesKeepColumns(articles, id, inc, nextArticleId, TopicSlugs(topics), Usernames(users));
      UpdateKeepsKeys(articles, ArticleKey, id, ArticleVotes(inc));
      ReturnedRow(articles, ArticleKey, id, ArticleVotes(inc));
      articles := UpdateWhere(articles, ArticleKey, id, ArticleVotes(inc));
      var rows := Filter(articles, HasArticleId(id));
      r := if rows == [] then None else Some(rows[0]);
    }

    /** `insertArticle`: stores the article with `votes = 0` and, when
        `article_img_url` is falsy, the default image. The id is the next
        SERIAL value, which is drawn even when a foreign key then refuses
        the row. */
    method InsertArticle(input: ArticleInput, now: int) returns (r: Result<Article>)
      requires Valid()
      modifies this
      ensures Valid()
      ensures nextArticleId == old(nextArticleId) + 1
      ensures comments == old(comments) && topics == old(topics) && users == old(users)
      ensures nextCommentId == old(nextCommentId)
      ensures r.Failure? <==> input.topic !in TopicSlugs(topics) || input.author !in Usernames(users)
      ensures r.Failure? ==> r.error == DbError(ForeignKeyViolation) && articles == old(articles)
      ensures r.Success? ==>
        && r.value == Article(old(nextArticleId), input.title, input.topic, input.author, input.body, 0,
                              if input.article_img_url == "" then DefaultArticleImage else input.article_img_url,
                              now)
        && articles == old(articles) + [r.value]
    {
      var id := nextArticleId;
      nextArticleId := nextArticleId + 1;
      if input.topic !in TopicSlugs(topics) || input.author !in Usernames(users) {
        return Failure(DbError(ForeignKeyViolation));
      }
      var votes := 0;
      var row := Article(id, input.title, input.topic, input.author, input.body, votes,
                         if input.article_img_url != "" then input.article_img_url else DefaultArticleImage,
                         now);
      AppendUnique(articles, row, ArticleKey);
      assert ArticleIds(articles + [row]) == ArticleIds(articles) + {id};
      articles := articles + [row];
      r := Success(row);
    }

    /** `insertComment`: stores a comment with zero votes under the next
        SERIAL id; a foreign key refuses an unknown article or author. */
    method InsertComment(body: string, author: string, articleId: int, now: int) returns (r: Result<Comment>)
      requires Valid()
      modifies this
      ensures Valid()
      ensures nextCommentId == old(nextCommentId) + 1
      ensures articles == old(articles) && topics == old(topics) && users == old(users)
      ensures nextArticleId == old(nextArticleId)
      ensures r.Failure? <==> articleId !in ArticleIds(articles) || author !in Usernames(users)
      ensures r.Failure? ==> r.error == DbError(ForeignKeyViolation) && comments == old(comments)
      ensures r.Success? ==>
        && r.value == Comment(old(nextCommentId), body, author, articleId, 0, now)
        && comments == old(comments) + [r.value]
        && CommentsOf(comments, articleId) == CommentsOf(old(comments), articleId) + [r.value]
    {
      var id := nextCommentId;
      nextCommentId := nextCommentId + 1;
      if articleId !in ArticleIds(articles) || author !in Usernames(users) {
        return Failure(DbError(ForeignKeyViolation));
      }
      var row := Comment(id, body, author, articleId, 0, now);
      AppendComment(articles, comments, topics, users, nextArticleId, id, row);
      comments := comments + [row];
      r := Success(row);
    }

    /** The first statement of `deleteArticle`:
        `DELETE FROM comments WHERE article_id = $1`. */
    method DeleteCommentsOfArticle(id: int)
      requires Valid()
      modifies this
      ensures Valid()
      ensures comments == Filter(old(comments), NotOnArticle(id))
      ensures articles == old(articles) && topics == old(topics) && users == old(users)
      ensures nextArticleId == old(nextArticleId) && nextCommentId == old(nextCommentId)
      ensures forall c :: c in comments ==> c.article_id != id
    {
      FilterKeepsUnique(comments, NotOnArticle(id), CommentKey);
      comments := Filter(comments, NotOnArticle(id));
    }

    /** The second statement: `DELETE FROM articles WHERE article_id = $1`.
        The foreign key from comments refuses it while a comment still
        references the article. */
    method DeleteArticleRow(id: int) returns (err: Option<AppError>)
      requires Valid()
      modifies this
      ensures Valid()
      ensures err.Some? <==> exists c :: c in old(comments) && c.article_id == id
      ensures err.Some? ==> err.value == DbError(ForeignKeyViolation) && articles == old(articles)
      ensures err.None? ==> articles == Filter(old(articles), NotArticleId(id))
      ensures comments == old(comments) && topics == old(topics) && users == old(users)
      ensures nextArticleId == old(nextArticleId) && nextCommentId == old(nextCommentId)
    {
      if exists c :: c in comments && c.article_id == id {
        return Some(DbError(ForeignKeyViolation));
      }
      FilterKeepsUnique(articles, NotArticleId(id), ArticleKey);
      var kept := Filter(articles, NotArticleId(id));
      forall c | c in comments ensures c.article_id in ArticleIds(kept) {
        var a :| a in articles && a.article_id == c.article_id;
        assert NotArticleId(id)(a);
      }
      articles := kept;
      err := None;
    }

    /** An article no comment references has an empty first page of
        comments. */
    lemma NoCommentsEmptyPage(id: int)
      requires forall c :: c in comments ==> c.article_id != id
      ensures SelectArticleCommentsById(id, None, None) == Success([])
    {
      FilterNone(comments, (c: Comment) => c.article_id == id);
    }

    /** `deleteArticle`: the comments first, then the article, so that the
        second statement never meets a referencing comment. Afterwards
        neither the article nor any of its comments remains. */
    method DeleteArticle(id: int)
      requires Valid()
      modifies this
      ensures Valid()
      ensures comments == Filter(old(comments), NotOnArticle(id))
      ensures articles == Filter(old(articles), NotArticleId(id))
      ensures id !in ArticleIds(articles) && forall c :: c in comments ==> c.article_id != id
      ensures SelectArticleById(id) == Failure(Rejection(404, "Article not found"))
      ensures SelectArticleCommentsById(id, None, None) == Success([])
      ensures topics == old(topics) && users == old(users)
      ensures nextArticleId == old(nextArticleId) && nextCommentId == old(nextCommentId)
    {
      DeleteCommentsOfArticle(id);
      var err := DeleteArticleRow(id);
      assert err.None?;
      NoCommentsEmptyPage(id);
    }

    // -------------------------------------------------------------------
    // models/comments.model.ts

    /** `selectCommentById`: every row with that id (a list, not one row), or
        a 404 rejection when there is none. */
    function SelectCommentById(id: int): (r: Result<seq<Comment>>)
      reads this
      ensures r.Failure? <==> forall c :: c in comments ==> c.comment_id != id
      ensures r.Failure? ==> r.error == Rejection(404, "Comment not found")
      ensures r.Success? ==> r.value != [] && forall c :: c in r.value <==> c in comments && c.comment_id == id
      ensures r.Success? ==> forall c :: multiset(r.value)[c] == if c.comment_id == id then multiset(comments)[c] else 0
      ensures r.Success? && Unique(comments, CommentKey) ==> |r.value| == 1
    {
      var rows := Filter(comments, HasCommentId(id));
      assert HasCommentId(id) == KeyIs(CommentKey, id);
      FilterMultiplicity(comments, HasCommentId(id));
      FilterKeyAtMostOne(comments, CommentKey, id);
      if rows == [] then
        assert forall c :: c in comments ==> !HasCommentId(id)(c);
        Failure(Rejection(404, "Comment not found"))
      else
        assert rows[0] in rows;
        Success(rows)
    }

    /** `deleteComment`: removes the rows with that id and no others. */
    method DeleteComment(id: int)
      requires Valid()
      modifies this
      ensures Valid()
      ensures comments == Filter(old(comments), NotCommentId(id))
      ensures forall c :: c in old(comments) && c.comment_id != id ==> c in comments
      ensures forall c :: c in comments ==> c.comment_id != id
      ensures SelectCommentById(id) == Failure(Rejection(404, "Comment not found"))
      ensures articles == old(articles) && topics == old(topics) && users == old(users)
      ensures nextArticleId == old(nextArticleId) && nextCommentId == old(nextCommentId)
    {
      FilterKeepsUnique(comments, NotCommentId(id), CommentKey);
      comments := Filter(comments, NotCommentId(id));
    }

    /** `updateComment`: adds `inc` to the votes of the comment with that id
        and resolves with it, or with undefined (None) when there is none. */
    method UpdateComment(id: int, inc: int) returns (r: Option<Comment>)
      requires Valid()
      modifies this
      ensures Valid()
      ensures comments == UpdateWhere(old(comments), CommentKey, id, CommentVotes(inc))
      ensures articles == old(articles) && topics == old(topics) && users == old(users)
      ensures nextArticleId == old(nextArticleId) && nextCommentId == old(nextCommentId)
      ensures r.Some? <==> exists c :: c in old(comments) && c.comment_id == id
      ensures r.Some? ==> exists k :: 0 <= k < |comments| && old(comments)[k].comment_id == id
                               && r.value == comments[k] == old(comments)[k].(votes := old(comments)[k].votes + inc)
      ensures r.None? ==> comments == old(comments)
    {
      CommentVotesKeepColumns(comments, id, inc, nextCommentId, ArticleIds(articles), Usernames(users));
      UpdateKeepsKeys(comments, CommentKey, id, CommentVotes(inc));
      ReturnedRow(comments, CommentKey, id, CommentVotes(inc));
      comments := UpdateWhere(comments, CommentKey, id, CommentVotes(inc));
      var rows := Filter(comments, HasCommentId(id));
      r := if rows == [] then None else Some(rows[0]);
    }

    // -------------------------------------------------------------------
    // models/topics.model.ts

    /** `selectTopics`: every row of the table. */
    function SelectTopics(): (r: seq<Topic>)
      reads this
      ensures multiset(r) == multiset(topics)
    {
      topics
    }

    /** `insertTopic`: a 400 rejection, before any query, when the slug or
        the description is falsy; a uniqueness violation when the slug is
        taken; otherwise the new row, appended. */
    method InsertTopic(slug: string, description: string) returns (r: Result<Topic>)
      requires Valid()
      modifies this
      ensures Valid()
      ensures slug == "" || description == "" ==> r == Failure(BadRequest)
      ensures slug != "" && description != "" && slug in TopicSlugs(old(topics)) ==>
        r == Failure(DbError(UniqueViolation))
      ensures r.Failure? ==> topics == old(topics)
      ensures r.Success? <==> slug != "" && description != "" && slug !in TopicSlugs(old(topics))
      ensures r.Success? ==> r.value == Topic(slug, description) && topics == old(topics) + [r.value]
      ensures articles == old(articles) && comments == old(comments) && users == old(users)
      ensures nextArticleId == old(nextArticleId) && nextCommentId == old(nextCommentId)
    {
      if slug == "" || description == "" {
        return Failure(BadRequest);
      }
      if slug in TopicSlugs(topics) {
        return Failure(DbError(UniqueViolation));
      }
      var row := Topic(slug, description);
      AppendUnique(topics, row, TopicKey);
      assert TopicSlugs(topics + [row]) == TopicSlugs(topics) + {slug};
      topics := topics + [row];
      r := Success(row);
    }

    // -------------------------------------------------------------------
    // models/users.model.ts

    /** `selectAllUsers`: every row of the table. */
    function SelectAllUsers(): (r: seq<User>)
      reads this
      ensures multiset(r) == multiset(users)
    {
      users
    }

    /** `selectUserByUsername`: the first row with that username, or
        undefined (None) when there is none; never a rejection. */
    function SelectUserByUsername(username: string): (r: Option<User>)
      reads this
      ensures r.Some? <==> username in Usernames(users)
      ensures r.Some? ==> r.value in users && r.value.username == username
    {
      var rows := Filter(users, HasUsername(username));
      if rows == [] then
        assert forall u :: u in users ==> !HasUsername(username)(u);
        None
      else
        assert rows[0] in rows;
        Some(rows[0])
    }
  }

  /** The body of `insertArticle`'s argument (types.ts `Article`); a given
      `votes` is ignored, a falsy `article_img_url` is the empty string. */
  datatype ArticleInput = ArticleInput(
    title: string, topic: string, author: string, body: string,
    votes: Option<int>, article_img_url: string)
}
