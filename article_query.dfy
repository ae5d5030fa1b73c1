/** The query assembly of `selectArticles` (models/articles.model.ts): the
    defaults, the allow-list gate on `sort_by`, `order`, `p` and `limit`, the
    structured query it admits, and the SQL text of the count query and the
    page query built from it. The topic value is bound as `$1`; only
    allow-listed names and numbers are spliced into the text. */
module ArticleQuery {
  import opened Outcomes

  datatype SortColumn = Title | CreatedAt | Author | ArticleId | Votes | CommentCount

  datatype Direction = Asc | Desc

  /** The column name spliced into `ORDER BY`. */
  function ColumnName(c: SortColumn): string
  {
    match c
    case Title => "title"
    case CreatedAt => "created_at"
    case Author => "author"
    case ArticleId => "article_id"
    case Votes => "votes"
    case CommentCount => "comment_count"
  }

  const AllowedSortBy: set<string> :=
    {"title", "created_at", "author", "article_id", "votes", "comment_count"}

  /** The allow-list test `[...].includes(sort_by)`, resolving the name to
      its column. */
  function ParseSortColumn(s: string): (r: Option<SortColumn>)
    ensures r.Some? <==> s in AllowedSortBy
    ensures r.Some? ==> ColumnName(r.value) == s
  {
    if s == "title" then Some(Title)
    else if s == "created_at" then Some(CreatedAt)
    else if s == "author" then Some(Author)
    else if s == "article_id" then Some(ArticleId)
    else if s == "votes" then Some(Votes)
    else if s == "comment_count" then Some(CommentCount)
    else None
  }

  lemma ColumnNameRoundTrip(c: SortColumn)
    ensures ColumnName(c) in AllowedSortBy
    ensures ParseSortColumn(ColumnName(c)) == Some(c)
  {
  }

  /** `toUpperCase` on one character (ASCII letters only). */
  function UpperChar(c: char): char
  {
    if 'a' <= c <= 'z' then (c as int - 32) as char else c
  }

  function ToUpper(s: string): (r: string)
    ensures |r| == |s|
  {
    seq(|s|, i requires 0 <= i < |s| => UpperChar(s[i]))
  }

  function DirectionName(d: Direction): string
  {
    match d
    case Asc => "ASC"
    case Desc => "DESC"
  }

  /** `["ASC", "DESC"].includes(order.toUpperCase())`. */
  function ParseDirection(order: string): (r: Option<Direction>)
    ensures r.Some? <==> ToUpper(order) in {"ASC", "DESC"}
    ensures r.Some? ==> DirectionName(r.value) == ToUpper(order)
  {
    var u := ToUpper(order);
    if u == "ASC" then Some(Asc) else if u == "DESC" then Some(Desc) else None
  }

  /** The arguments of `selectArticles(topic, sort_by, order, p, limit)`.
      `None` is `undefined` (the default applies); the empty topic is falsy. */
  datatype ListRequest = ListRequest(
    topic: string, sortBy: Option<string>, order: Option<string>,
    p: Option<Num>, limit: Option<Num>)

  /** The structured query `selectArticles` issues once the gate admits the
      request: an optional topic filter on `$1`, the sort column and the
      order text as given, the paging numbers, and the bound parameters. */
  datatype ListPlan = ListPlan(
    filterByTopic: bool, sortBy: SortColumn, orderText: string, direction: Direction,
    limit: int, offset: int, params: seq<string>)

  function SortByArg(req: ListRequest): string { OrDefault(req.sortBy, "created_at") }
  function OrderArg(req: ListRequest): string { OrDefault(req.order, "DESC") }
  /** The defaults `p = 1` and `limit = 10` that both paged queries give
      their paging arguments. */
  function PageOrDefault(p: Option<Num>): Num { OrDefault(p, Numeric(1)) }
  function LimitOrDefault(limit: Option<Num>): Num { OrDefault(limit, Numeric(10)) }

  function PageArg(req: ListRequest): Num { PageOrDefault(req.p) }
  function LimitArg(req: ListRequest): Num { LimitOrDefault(req.limit) }

  /** The condition under which `selectArticles` rejects before any query is
      issued. Zero and negative numbers are not rejected. */
  predicate GateRejects(req: ListRequest)
  {
    || PageArg(req).NotANumber? || LimitArg(req).NotANumber?
    || SortByArg(req) !in AllowedSortBy
    || ToUpper(OrderArg(req)) !in {"ASC", "DESC"}
  }

  /** The gate and the structured query. */
  function PlanListQuery(req: ListRequest): (r: Result<ListPlan>)
    ensures r.Failure? <==> GateRejects(req)
    ensures r.Failure? ==> r.error == BadRequest
    ensures r.Success? ==>
      && ColumnName(r.value.sortBy) == SortByArg(req)
      && r.value.orderText == OrderArg(req)
      && DirectionName(r.value.direction) == ToUpper(r.value.orderText)
      && r.value.limit == LimitArg(req).n
      && r.value.offset == (PageArg(req).n - 1) * LimitArg(req).n
      && (r.value.filterByTopic <==> req.topic != "")
      && r.value.params == (if req.topic != "" then [req.topic] else [])
  {
    var p, limit := PageArg(req), LimitArg(req);
    var column, direction := ParseSortColumn(SortByArg(req)), ParseDirection(OrderArg(req));
    if p.Numeric? && limit.Numeric? && column.Some? && direction.Some? then
      Success(ListPlan(
        req.topic != "", column.value, OrderArg(req), direction.value,
        limit.n, (p.n - 1) * limit.n,
        if req.topic != "" then [req.topic] else []))
    else
      Failure(BadRequest)
  }

  /** With every argument omitted: newest first, ten rows, first page. */
  lemma Defaults()
    ensures var r := PlanListQuery(ListRequest("", None, None, None, None));
      && r.Success? && r.value.sortBy == CreatedAt && r.value.direction == Desc
      && r.value.limit == 10 && r.value.offset == 0 && r.value.params == []
  {
  }

  /** Page 1 starts at offset 0, whatever the limit. */
  lemma FirstPageOffsetZero(req: ListRequest)
    requires PageArg(req) == Numeric(1) && PlanListQuery(req).Success?
    ensures PlanListQuery(req).value.offset == 0
  {
  }

  /** The gate lets page 0 through (it tests only `isNaN`): the offset is then
      minus the limit, which the database refuses. */
  lemma PageZeroPassesGate(limit: int)
    ensures var r := PlanListQuery(ListRequest("", None, None, Some(Numeric(0)), Some(Numeric(limit))));
      r.Success? && r.value.offset == -limit
  {
  }

  // ---------------------------------------------------------------------
  // Decimal numerals: how a JavaScript integer is spliced into the text.

  function DigitChar(d: int): char
    requires 0 <= d < 10
  {
    ('0' as int + d) as char
  }

  function Digits(n: nat): string
    decreases n
  {
    if n < 10 then [DigitChar(n)] else Digits(n / 10) + [DigitChar(n % 10)]
  }

  /** The canonical decimal numeral of the integer `n`: a minus sign when
      `n` is negative, then its digits without leading zeros. */
  function Decimal(n: int): string
  {
    if n < 0 then "-" + Digits(-n) else Digits(n)
  }

  predicate IsDigit(c: char) { '0' <= c <= '9' }

  ghost predicate IsNumeral(s: string)
  {
    && |s| > 0
    && (s[0] == '-' ==> |s| > 1)
    && (forall i :: 0 <= i < |s| ==> IsDigit(s[i]) || (i == 0 && s[i] == '-'))
  }

  /** The number that a string of digits denotes. */
  function DigitsValue(s: string): int
  {
    if s == [] then 0 else DigitsValue(s[..|s| - 1]) * 10 + (s[|s| - 1] as int - '0' as int)
  }

  /** The number that a numeral denotes, as the database reads it. */
  function NumeralValue(s: string): int
  {
    if |s| > 0 && s[0] == '-' then -DigitsValue(s[1..]) else DigitsValue(s)
  }

  lemma {:induction false} DigitsRoundTrip(n: nat)
    ensures |Digits(n)| > 0
    ensures forall i :: 0 <= i < |Digits(n)| ==> IsDigit(Digits(n)[i])
    ensures DigitsValue(Digits(n)) == n
    decreases n
  {
    if n >= 10 {
      var q, d := n / 10, n % 10;
      DigitsRoundTrip(q);
      var s := Digits(n);
      assert s == Digits(q) + [DigitChar(d)];
      assert s[..|s| - 1] == Digits(q);
      assert DigitsValue(s) == DigitsValue(Digits(q)) * 10 + d;
      assert n == q * 10 + d;
    }
  }

  /** A number spliced into the text is a numeral that reads back as itself. */
  lemma DecimalRoundTrip(n: int)
    ensures IsNumeral(Decimal(n))
    ensures NumeralValue(Decimal(n)) == n
  {
    if n < 0 {
      NegativeDecimalRoundTrip(n);
    } else {
      DigitsRoundTrip(n);
    }
  }

  lemma NegativeDecimalRoundTrip(n: int)
    requires n < 0
    ensures IsNumeral(Decimal(n))
    ensures NumeralValue(Decimal(n)) == n
  {
    var d := Digits(-n);
    DigitsRoundTrip(-n);
    var s := "-" + d;
    assert s == Decimal(n);
    assert s[1..] == d;
    forall i | 0 < i < |s| ensures IsDigit(s[i]) {
      assert s[i] == d[i - 1];
    }
  }

  // ---------------------------------------------------------------------
  // The SQL text.

  const PageSelect: string :=
    "\n      SELECT a.author, title, a.article_id, a.topic, \n          a.created_at, a.votes, a.article_img_url, \n          CAST(COUNT(comment_id) AS INTEGER) AS comment_count \n      FROM articles AS a\n      LEFT JOIN comments ON a.article_id = comments.article_id"
  const CountSelect: string :=
    "\n      SELECT CAST(COUNT(*) AS INTEGER) AS total_count \n      FROM articles AS a"
  const TopicClause: string := " WHERE a.topic = $1"
  const GroupClause: string := " GROUP BY a.article_id"

  /** The count query, the page query, and the one parameter vector both use. */
  datatype SqlQueries = SqlQueries(countText: string, pageText: string, params: seq<string>)

  function FilterText(plan: ListPlan): string
  {
    if plan.filterByTopic then TopicClause else ""
  }

  /** The template `` ORDER BY ${sort_by} ${order}``. */
  function OrderText(plan: ListPlan): string
  {
    " ORDER BY " + ColumnName(plan.sortBy) + " " + plan.orderText
  }

  /** The template `` LIMIT ${limit} OFFSET ${(p - 1) * limit};``. */
  function LimitText(plan: ListPlan): string
  {
    " LIMIT " + Decimal(plan.limit) + " OFFSET " + Decimal(plan.offset) + ";"
  }

  function Render(plan: ListPlan): SqlQueries
  {
    SqlQueries(
      CountSelect + FilterText(plan),
      PageSelect + FilterText(plan) + GroupClause + OrderText(plan) + LimitText(plan),
      plan.params)
  }

  /** The body of `selectArticles` up to the point where it issues queries:
      the two texts grow step by step, the parameter is pushed when the topic
      is truthy, and the gate runs before `ORDER BY` and `LIMIT` are added. */
  method AssembleListQueries(req: ListRequest) returns (r: Result<SqlQueries>)
    ensures GateRejects(req) ==> r == Failure(BadRequest)
    ensures !GateRejects(req) ==> r == Success(Render(PlanListQuery(req).value))
  {
    var query := PageSelect;
    var queryWithTotalCount := CountSelect;
    var queryVals: seq<string> := [];
    if req.topic != "" {
      query := query + TopicClause;
      queryWithTotalCount := queryWithTotalCount + TopicClause;
      queryVals := queryVals + [req.topic];
    }
    query := query + GroupClause;
    ghost var head := query;
    var sortBy, order, p, limit := SortByArg(req), OrderArg(req), PageArg(req), LimitArg(req);
    var column, direction := ParseSortColumn(sortBy), ParseDirection(order);
    assert GateRejects(req) <==> !(p.Numeric? && limit.Numeric? && column.Some? && direction.Some?);
    if p.Numeric? && limit.Numeric? && column.Some? && direction.Some? {
      query := query + (" ORDER BY " + sortBy + " " + order);
      query := query + (" LIMIT " + Decimal(limit.n) + " OFFSET " + Decimal((p.n - 1) * limit.n) + ";");
    } else {
      return Failure(BadRequest);
    }
    ghost var plan := ListPlan(req.topic != "", column.value, order, direction.value,
                               limit.n, (p.n - 1) * limit.n, queryVals);
    assert plan == PlanListQuery(req).value;
    assert head == PageSelect + FilterText(plan) + GroupClause;
    assert query == head + OrderText(plan) + LimitText(plan);
    assert queryWithTotalCount == CountSelect + FilterText(plan);
    r := Success(SqlQueries(queryWithTotalCount, query, queryVals));
  }

  /** The topic never reaches the SQL text: two requests that differ only in
      a (truthy, or falsy) topic give the same two texts, and the topic is
      the one bound parameter exactly when it is truthy. */
  lemma TopicOnlyInParams(req: ListRequest, topic: string)
    requires !GateRejects(req)
    requires (req.topic == "") == (topic == "")
    ensures var q1, q2 := Render(PlanListQuery(req).value), Render(PlanListQuery(req.(topic := topic)).value);
      && q1.countText == q2.countText && q1.pageText == q2.pageText
      && q2.params == (if topic != "" then [topic] else [])
  {
    var req2 := req.(topic := topic);
    assert SortByArg(req2) == SortByArg(req) && OrderArg(req2) == OrderArg(req);
    assert PageArg(req2) == PageArg(req) && LimitArg(req2) == LimitArg(req);
    var p1, p2 := PlanListQuery(req).value, PlanListQuery(req2).value;
    assert p2 == p1.(params := p2.params);
  }

  /** The count query and the page query carry the same filter on the same
      parameter vector: the count text is the page text's filter prefix. */
  lemma SameFilterInBothQueries(req: ListRequest)
    requires !GateRejects(req)
    ensures var q := Render(PlanListQuery(req).value);
      && q.countText == CountSelect + (if req.topic != "" then TopicClause else "")
      && q.pageText[..|PageSelect| + |FilterText(PlanListQuery(req).value)|]
         == PageSelect + (if req.topic != "" then TopicClause else "")
  {
    var plan := PlanListQuery(req).value;
    var head := PageSelect + FilterText(plan);
    var n := |head|;
    PrefixOfConcat(head, GroupClause, n);
    PrefixOfConcat(head + GroupClause, OrderText(plan), n);
    PrefixOfConcat(head + GroupClause + OrderText(plan), LimitText(plan), n);
    assert head[..n] == head;
  }

  /** Appending to a text leaves its prefixes as they were. */
  lemma PrefixOfConcat(x: string, y: string, n: nat)
    requires n <= |x|
    ensures (x + y)[..n] == x[..n]
  {
  }

  /** Every fragment spliced into the page text comes from the allow-lists or
      from the numeric inputs: the column is an allow-listed name, the order
      text is a spelling of ASC or DESC in letters of those words only, and
      LIMIT and OFFSET are numerals denoting `limit` and `(p - 1) * limit`. */
  lemma {:induction false} SplicedFragments(req: ListRequest)
    requires !GateRejects(req)
    ensures var plan := PlanListQuery(req).value;
      && ColumnName(plan.sortBy) in AllowedSortBy
      && (|plan.orderText| == 3 || |plan.orderText| == 4)
      && (forall i :: 0 <= i < |plan.orderText| ==> plan.orderText[i] in "ascdeASCDE")
      && IsNumeral(Decimal(plan.limit)) && NumeralValue(Decimal(plan.limit)) == LimitArg(req).n
      && IsNumeral(Decimal(plan.offset))
      && NumeralValue(Decimal(plan.offset)) == (PageArg(req).n - 1) * LimitArg(req).n
  {
    var plan := PlanListQuery(req).value;
    ColumnNameRoundTrip(plan.sortBy);
    DecimalRoundTrip(plan.limit);
    DecimalRoundTrip(plan.offset);
    OrderSpelling(plan.orderText);
  }

  /** A text whose upper case is ASC or DESC is spelt with those letters. */
  lemma OrderSpelling(o: string)
    requires ToUpper(o) in {"ASC", "DESC"}
    ensures |o| == 3 || |o| == 4
    ensures forall i :: 0 <= i < |o| ==> o[i] in "ascdeASCDE"
  {
    var u := ToUpper(o);
    forall i | 0 <= i < |o| ensures o[i] in "ascdeASCDE" {
      assert UpperChar(o[i]) == u[i];
      assert u[i] in "ASCDE" by {
        if u == "ASC" { assert u[i] == "ASC"[i]; } else { assert u[i] == "DESC"[i]; }
      }
      UpperCharOfLetter(o[i]);
    }
  }

  lemma UpperCharOfLetter(c: char)
    requires UpperChar(c) in "ASCDE"
    ensures c in "ascdeASCDE"
  {
    if 'a' <= c <= 'z' {
      var u := UpperChar(c);
      assert u as int == c as int - 32;
      assert u == 'A' || u == 'S' || u == 'C' || u == 'D' || u == 'E';
    }
  }
}
