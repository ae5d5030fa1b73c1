# nc-news data layer in Dafny

This project models the data layer of the nc-news REST API, an Express
server over PostgreSQL. The model has four parts:

- **The article listing query.** `selectArticles` checks `sort_by`, `order`,
  `p` and `limit` against its allow-list before anything is spliced into SQL.
  It then builds two queries: a count query and a page query. Both share the
  same optional `WHERE a.topic = $1` and the same parameter vector.
  `LIMIT limit OFFSET (p - 1) * limit` selects the page.
- **What each model function's SQL means in an in-memory database.** The
  database holds four tables (articles, comments, topics, users). Each table
  is a sequence of rows.
  - SERIAL counters hand out the article and comment ids.
  - Primary keys are unique, and foreign keys link articles to topics and
    users, and comments to articles and users.
  - Reads are functions of the tables. Writes are methods that update the
    tables in place.
- **`isSortedBy`**, the helper the tests use to check an order.
- **The error-handling middleware.** This is the chain `psqlErrors` →
  `customErrors` → `serverError` that `app.ts` registers, together with the
  catch-all `invalidRoute`.

Modules:

| file | module | contents |
|---|---|---|
| outcomes.dfy | Outcomes | `Option`, the promise outcome `Result`, the error object `AppError`, SQLSTATE codes, numeric-or-NaN `Num` |
| keys.dfy | Keys | sort keys (integers or strings) and their strict total order |
| is_sorted_by.dfy | SortedBy | `defaultCompare`, the `Sorted` predicate, the `isSortedBy` loop |
| relational.dfy | Relational | meaning of `WHERE`, `ORDER BY`, `LIMIT … OFFSET …`, key uniqueness |
| rows.dfy | Rows | row shapes, `LEFT JOIN … GROUP BY` comment counts, listing rows |
| article_query.dfy | ArticleQuery | the `selectArticles` gate, its structured query, the SQL text |
| error_handlers.dfy | ErrorHandlers | the error-to-response mapping |
| store.dfy | Store | class `Database`: the tables, every model function |

Some facts are modelled as parameters or counters rather than computed:

- A promise that resolves is a `Success`. One that rejects is a `Failure`
  carrying the thrown object. That object is either `{status, msg}` or a
  database error with its SQLSTATE `code`.
- `undefined` arguments are `None`. A falsy string is `""`.
- `created_at` is the `now` parameter of the insert methods.
- Ids come from the SERIAL counters.

Two behaviours of the code are easy to misread, and the model follows the
code in both:

- The gate in `selectArticles` rejects `p` and `limit` only when they are
  `NaN` (models/articles.model.ts:49-51). Zero and negative numbers pass it.
  PostgreSQL then refuses the page query whenever the offset or the limit
  is negative:
  - a negative OFFSET gives SQLSTATE 2201X, and PostgreSQL checks it first;
  - a negative LIMIT gives 2201W;
  - `p = 0` with `limit = 0` gives offset 0 and limit 0, which PostgreSQL
    accepts: the page is empty.
- A LIMIT or OFFSET outside the 64-bit `bigint` range fails with 22003
  (numeric value out of range) before either sign is checked. For example,
  `p = limit = 10000000000` gives the offset 99999999990000000000.
- `psqlErrors` maps none of 2201X, 2201W and 22003, so the client receives
  a 500 for each of them.
- `selectArticles` does not check that the topic exists. An unknown topic
  gives an empty page. The 404 for an unknown topic comes from the
  controller, which runs `checkExists` on the topic beside the model call
  (controllers/articles.controller.ts:27-29). `checkExists` is not part of
  this model.

## Model

| member | source | states |
|---|---|---|
| SortedBy.DefaultCompare | utils/isSortedBy.ts:3-11 | returns 1 exactly when `a > b`, -1 exactly when `a < b`, and 0 exactly when the keys are equal |
| SortedBy.IsSortedBy | utils/isSortedBy.ts:13-26 | the result is true iff the sequence is `Sorted` (every pair in order, not only adjacent ones), iff no adjacent pair violates the direction; length 0 or 1 gives true; equal keys never violate; the input is a value and is not changed |
| SortedBy.AdjacentIffSorted | utils/isSortedBy.ts:19-23 | checking adjacent pairs, as the loop does, decides the all-pairs order |
| SortedBy.IsSortedByTestVectors | __tests__/isSortedBy.test.ts:4-19 | [3,2,1] descending is sorted, [2,3,1] descending is not, [1,2,3] ascending is sorted, [1,3,2] ascending is not |
| Keys.KeyTrichotomy | utils/isSortedBy.ts:3-11 | for any two keys exactly one of `a < b`, `a == b`, `b < a` holds, so `defaultCompare` never returns 0 for distinct keys |
| ErrorHandlers.PsqlErrors | middleware/errorHandlers.js:1-12 | responds exactly for 23502, 22P02, 23503 and 23505 |
| ErrorHandlers.CustomErrors | middleware/errorHandlers.js:14-19 | responds exactly when `status` and `msg` are truthy, with that status and `{msg}` |
| ErrorHandlers.InvalidRoute | middleware/errorHandlers.js:25-28 | an unmatched route is answered 404 `{msg: "Invalid url"}` |
| ErrorHandlers.Respond | middleware/errorHandlers.js:1-23 | the decision table in chain order: 23502 and 22P02 give 400 "Bad request", 23503 gives 404 "Not found", 23505 gives 404 "Value already exists", otherwise a truthy status and msg pass through, otherwise 500 "Server Error!" |
| ErrorHandlers.CodeDecidesFirst | app.ts:17-19 | when the SQLSTATE is one psqlErrors knows, status and msg make no difference to the response |
| ErrorHandlers.RejectionReachesClient | middleware/errorHandlers.js:14-17 | a `{status, msg}` rejection from a model reaches the client unchanged |
| ErrorHandlers.UnmappedDbErrorIsServerError | middleware/errorHandlers.js:21-23 | a database error with any other code is a 500 |
| ArticleQuery.ParseSortColumn | models/articles.model.ts:52-59 | accepts exactly the six allow-listed column names and maps each to the column of that name |
| ArticleQuery.ColumnNameRoundTrip | models/articles.model.ts:52-59 | every column's name is allow-listed and parses back to that column |
| ArticleQuery.ParseDirection | models/articles.model.ts:60 | accepts exactly the texts whose upper case is ASC or DESC, and gives that direction |
| ArticleQuery.PlanListQuery | models/articles.model.ts:26-66 | rejects with 400 "Bad request" iff `p` or `limit` is NaN, or `sort_by` is outside the allow-list, or `order` upper-cased is neither ASC nor DESC; otherwise gives the column, the raw order text and its direction, `limit`, offset `(p - 1) * limit`, and the topic filter with params `[topic]` iff the topic is truthy |
| ArticleQuery.Defaults | models/articles.model.ts:28-31 | with nothing supplied: `created_at`, descending, 10 rows, offset 0, no params |
| ArticleQuery.FirstPageOffsetZero | models/articles.model.ts:63 | page 1 starts at offset 0 |
| ArticleQuery.PageZeroPassesGate | models/articles.model.ts:49-51 | `p = 0` is admitted, with offset `-limit` |
| ArticleQuery.AssembleListQueries | models/articles.model.ts:33-66 | the step-by-step `+=` assembly yields the same two texts and params as rendering the structured query, and rejects before issuing anything exactly when the gate does |
| ArticleQuery.TopicOnlyInParams | models/articles.model.ts:42-47 | the topic never appears in either SQL text: changing it leaves both texts unchanged, and it is the one bound parameter iff it is truthy |
| ArticleQuery.SameFilterInBothQueries | models/articles.model.ts:39-48 | the count query and the page query carry the same topic clause right after their `FROM` part |
| ArticleQuery.SplicedFragments | models/articles.model.ts:62-63 | every piece spliced into the text is safe: the column is allow-listed, the order text is 3 or 4 letters from ASC/DESC, and LIMIT and OFFSET are numerals denoting `limit` and `(p - 1) * limit` |
| ArticleQuery.OrderSpelling | models/articles.model.ts:60-62 | a text that upper-cases to ASC or DESC is spelt with the letters of those words only |
| ArticleQuery.DecimalRoundTrip | models/articles.model.ts:63 | a spliced integer is a decimal numeral that the database reads back as the same integer, negative numbers included |
| Relational.Filter | models/articles.model.ts:13 | a `WHERE` result holds exactly the rows that pass, all of them passing, and no more rows than the table |
| Relational.FilterMultiplicity | models/articles.model.ts:83 | each passing row is kept as many times as the table holds it, and every other row zero times |
| Relational.FilterKeyAtMostOne | models/comments.model.ts:9 | on a unique key, `WHERE comment_id = $1` selects at most one row |
| Relational.FilterNone | models/articles.model.ts:83 | a `WHERE` that no row passes selects nothing |
| Relational.FilterConcat | models/articles.model.ts:83 | the result keeps table order: filtering `a + b` gives the filtered `a` followed by the filtered `b` |
| Relational.FilterKeepsUnique | models/comments.model.ts:24 | deleting rows keeps a primary key unique |
| Relational.Window | models/articles.model.ts:63 | `LIMIT l OFFSET o` keeps at most `l` rows, namely rows `o`, `o+1`, … of its input, and none when `o` is past the end |
| Relational.ConsecutiveWindows | models/articles.model.ts:63 | consecutive pages of one ordering tile it with no gap and no overlap |
| Relational.OrderBy | models/articles.model.ts:62 | `ORDER BY` gives a permutation of the rows that is sorted by the key in the requested direction |
| Relational.LimitOffset | models/articles.model.ts:63 | how the database reads `LIMIT l OFFSET o`: a value outside the `bigint` range fails with 22003; otherwise a negative offset fails with 2201X, then a negative limit with 2201W; otherwise the result is the window, at most `l` rows; it succeeds exactly when both values are in range and non-negative |
| Relational.UpdateWhere | models/articles.model.ts:111-113 | `UPDATE … WHERE key = id` keeps every row in place, so the table keeps its size |
| Relational.UpdateKeepsKeys | models/comments.model.ts:34-36 | an update that leaves the key column alone keeps every key at its row, so the primary key stays unique |
| Relational.UpdateTouchesOneRow | models/articles.model.ts:111-113 | on a unique key, the update changes exactly the row with that key, and every other row stays as it was |
| Relational.ReturnedRow | models/articles.model.ts:114-120 | `RETURNING *` yields nothing, and nothing changed, exactly when no row has the key; otherwise its first row is the changed row |
| Relational.WindowOfOrderingMembers | models/articles.model.ts:84-85 | a page of an ordering holds only rows of the ordered table |
| Rows.CommentsOf | models/articles.model.ts:82-83 | exactly the comments whose `article_id` matches |
| Rows.CommentCountIsMatchCount | models/articles.model.ts:9-14 | `COUNT(comment_id)` over the left join equals the number of the article's comments, and is 0 exactly when it has none |
| Rows.Summaries | models/articles.model.ts:34-38 | one listing row per selected article, carrying its listed columns unchanged and its comment count, and no body |
| Store.ArticleVotesKeepColumns | models/articles.model.ts:111-113 | the vote update keeps each article's id, topic and author, so the references and the set of ids are unchanged |
| Store.CommentVotesKeepColumns | models/comments.model.ts:34-36 | the vote update keeps each comment's id, article and author, so its references still hold |
| Store.AppendComment | models/articles.model.ts:96-98 | a comment with the next id and existing references keeps the database consistent and joins its article's comments |
| Store.CatsScenario | models/articles.model.ts:43-73 | `topic=cats&limit=1&p=1`, over one cats article and one article of another topic, with no comments, gives exactly the cats article and `total_count = 1` |
| Store.Database.SelectArticleById | models/articles.model.ts:5-24 | succeeds iff an article has the id, with that row and comment count equal to its number of comments; otherwise rejects 404 "Article not found" |
| Store.Database.SelectArticles | models/articles.model.ts:26-75 | rejects 400 exactly at the gate; a limit or offset outside the `bigint` range fails with 22003; otherwise a negative offset or limit fails with the database's 2201X or 2201W; otherwise it succeeds, and `total_count` is the number of matching articles, whatever `p`, `limit` or sort; `articles` has at most `limit` rows and is the page at `(p - 1) * limit` of some ordering of the matching listing rows by the column and direction |
| Store.Database.SelectArticleCommentsById | models/articles.model.ts:77-90 | rejects 400 iff `p` or `limit` is NaN; otherwise at most `limit` rows, all of that article, forming the page of some newest-first ordering of its comments; the database's 22003 for a limit or offset outside the `bigint` range, and otherwise its 2201X or 2201W for a negative offset or limit |
| Store.Database.NoCommentsEmptyPage | models/articles.model.ts:77-90 | an article that no comment references has an empty first page of comments |
| Store.Database.UpdateArticle | models/articles.model.ts:107-121 | votes of exactly the row with that id grow by `inc`, which is returned; undefined and no change when there is no such row; other tables unchanged |
| Store.Database.InsertArticle | models/articles.model.ts:123-145 | stores and returns the row with the next id, `votes = 0`, the default image when `article_img_url` is falsy, and `created_at = now`; an unknown topic or author is a 23503 failure with the table unchanged |
| Store.Database.InsertComment | models/articles.model.ts:92-105 | stores and returns the comment with the next id and zero votes, so the article's comments grow by exactly it; an unknown article or author is a 23503 failure with the table unchanged |
| Store.Database.DeleteCommentsOfArticle | models/articles.model.ts:150-154 | removes exactly the comments of that article |
| Store.Database.DeleteArticleRow | models/articles.model.ts:156-161 | fails with 23503, changing nothing, iff a comment still references the article; otherwise removes exactly that article |
| Store.Database.DeleteArticle | models/articles.model.ts:147-163 | comments first, then the article; the second step never fails; afterwards the article and its comments are gone, every other row is kept, and the lookup gives 404 |
| Store.Database.SelectCommentById | models/comments.model.ts:5-19 | all rows with that id, each as many times as the table holds it, as a non-empty list (exactly one row while the key is unique), or a 404 "Comment not found" rejection exactly when there are none |
| Store.Database.DeleteComment | models/comments.model.ts:21-28 | removes exactly the rows with that id and keeps all others; a later lookup gives 404 |
| Store.Database.UpdateComment | models/comments.model.ts:30-42 | votes of exactly the comment with that id grow by `inc`, which is returned; undefined and no change when there is none |
| Store.Database.SelectTopics | models/topics.model.ts:5-9 | every topic row, and nothing changes |
| Store.Database.InsertTopic | models/topics.model.ts:11-25 | a falsy slug or description is rejected 400 with nothing changed; a taken slug fails with 23505 with nothing changed; otherwise one row is appended and returned |
| Store.Database.SelectAllUsers | models/users.model.ts:5-9 | every user row, and nothing changes |
| Store.Database.SelectUserByUsername | models/users.model.ts:11-15 | a row with that username iff one exists, and undefined rather than an error otherwise |

## Left out

- HTTP routing, `app.ts` start-up and the endpoint catalogue: Express plumbing with no logic of its own.
- The controllers: they combine models with `Promise.all`, and the outcome depends on which promise rejects first. That is concurrency, not sequential logic.
- `checkExists`: its source is not part of this model. The 404 responses for unknown users, comments, topics and article ids that the controllers add are therefore not modelled.
- The PostgreSQL engine beyond the meaning of each query. This covers SQL parsing, transactions, the connection pool and the schema (not part of this model).
- Constraints: the schema is not part of this model, so its constraints are assumptions. The model assumes primary keys on the four tables and four foreign keys: articles to topics and users, comments to articles and users. No active test exercises the foreign keys. `DeleteArticleRow`'s 23503 assumes that the comments-to-articles key does not cascade.
- NOT NULL (23502) and text-to-integer coercion (22P02) are not modelled. Ids, votes and `inc_votes` are integers here, and a missing (undefined) string field is not represented: every string column holds a string.
- Integer width of ids: ids and id parameters are unbounded integers. PostgreSQL's `integer` id columns make an id parameter outside the 32-bit range fail with 22003 (a 500). The model answers such a lookup as for any absent id: `SelectArticleById(3000000000)` gives 404 "Article not found".
- Store.Database.UpdateArticle: `votes` and `inc_votes` are unbounded. In PostgreSQL `votes` is a 32-bit `integer`, so `SET votes = votes + $1` fails with 22003 (a 500) when the sum leaves that range, or when `inc_votes` itself does. The model then returns the updated row with the exact sum.
- Store.Database.UpdateComment: the same 22003 overflow of `votes + inc_votes` is not modelled.
- `Promise.all` in `selectArticles`: the two queries are evaluated against one state of the tables.
- Id and timestamp generation: ids come from SERIAL counters, and `created_at` is the parameter `now`.
- Store.Database.SelectArticles: ties are unspecified, as in PostgreSQL. The contract names some ordering, not the tie order the database picks.
- Store.Database.SelectArticleCommentsById: same as SelectArticles.
- Store.Database.SelectArticles: `p`, `limit` and the offset are exact integers. JavaScript computes `(p - 1) * limit` as a double, which loses precision past 2^53 and prints values of 1e21 and more in exponent form. The model keeps the exact product and checks it against the `bigint` range.
- Store.Database.SelectArticleCommentsById: the same holds for its offset.
- String order: text columns sort by code point (`Keys.StrLess`), not by the database collation.
- ArticleQuery.ToUpper: upper-cases ASCII letters only. JavaScript also maps some other characters to ASCII capitals; for example U+017F, the long s, becomes S. So `SplicedFragments` is proved for the ASCII case-mapping only.
- ArticleQuery.AssembleListQueries: splices `limit` and the offset as canonical decimal numerals. The source splices `limit` as the client's raw text (such as `010` or `1e1`), and JavaScript's own rendering of the product as the offset.
- JavaScript coercion is modelled as "an integer or NaN" for `p` and `limit`. `isNaN("")`, fractional values and `toUpperCase` on non-strings are not modelled.
- SortedBy.DefaultCompare: keys are integers or strings with a total order. JavaScript's loose `<` and `>` across mixed types is not modelled.
- SortedBy.DefaultCompare: strings compare by code point (`Keys.StrLess`). JavaScript compares UTF-16 code units. The two orders differ between a character above U+FFFF and one in U+E000–U+FFFF: "\u{FF21}" < "\u{1F600}" by code point, but not by code unit.
- SortedBy.IsSortedBy: `arr[i][sort_by]` is a key function, not a property lookup.
- ErrorHandlers.Respond: the handlers call `next(err)` after responding. The model shows only the first response and not the later attempts to send again.
- ErrorHandlers.CustomErrors: the falsy `status` is 0 and the falsy `msg` is `""`. Other falsy values (`undefined`, `NaN`) are modelled by these.
- Store.Database.InsertArticle: the caller's `votes` field is ignored, as in the source. An absent `article_img_url` is modelled as `""`.
- Store.Database.DeleteComment: returns nothing. The driver's result object, such as its row count, is not modelled. The same holds for DeleteArticle.
- The commented-out tests in __tests__/app.test.ts: they are inactive.
- types.ts: used only for the row shapes.
