/** The meaning of the SQL clauses the queries use, over rows held in
    sequences: `WHERE` (Filter), `ORDER BY` (orderings of the rows),
    `LIMIT ... OFFSET ...` (Window) and primary-key uniqueness. */
module Relational {
  import opened Outcomes
  import opened Keys
  import opened SortedBy

  /** `WHERE keep(row)`: the rows that pass, in table order. */
  function Filter<T(!new)>(s: seq<T>, keep: T -> bool): (r: seq<T>)
    ensures |r| <= |s|
    ensures forall x :: x in r <==> x in s && keep(x)
    ensures forall i :: 0 <= i < |r| ==> keep(r[i])
  {
    if s == [] then []
    else if keep(s[0]) then [s[0]] + Filter(s[1..], keep)
    else Filter(s[1..], keep)
  }

  /** Each row that passes is kept as many times as the table holds it. */
  lemma {:induction false} FilterMultiplicity<T(!new)>(s: seq<T>, keep: T -> bool)
    ensures forall x :: multiset(Filter(s, keep))[x] == if keep(x) then multiset(s)[x] else 0
  {
    if s != [] {
      FilterMultiplicity(s[1..], keep);
      assert s == [s[0]] + s[1..];
    }
  }

  /** On a unique key, `WHERE key = id` selects at most one row. */
  lemma {:induction false} FilterKeyAtMostOne<T(!new)>(s: seq<T>, key: T -> int, id: int)
    ensures Unique(s, key) ==> |Filter(s, KeyIs(key, id))| <= 1
  {
    if s != [] && Unique(s, key) {
      UniqueTail(s, key);
      if key(s[0]) == id {
        FilterNone(s[1..], KeyIs(key, id));
      } else {
        FilterKeyAtMostOne(s[1..], key, id);
      }
    }
  }

  /** A filter that no row passes selects nothing. */
  lemma {:induction false} FilterNone<T(!new)>(s: seq<T>, keep: T -> bool)
    requires forall x :: x in s ==> !keep(x)
    ensures Filter(s, keep) == []
  {
    if s != [] {
      assert s[0] in s;
      FilterNone(s[1..], keep);
    }
  }

  /** Rows keep their table order: filtering two tables one after the other
      gives the filtered first table, then the filtered second. */
  lemma {:induction false} FilterConcat<T(!new)>(a: seq<T>, b: seq<T>, keep: T -> bool)
    ensures Filter(a + b, keep) == Filter(a, keep) + Filter(b, keep)
  {
    if a == [] {
      assert a + b == b;
    } else {
      assert (a + b)[1..] == a[1..] + b;
      FilterConcat(a[1..], b, keep);
    }
  }

  /** No two rows share a key. */
  ghost predicate Unique<T, K>(s: seq<T>, key: T -> K)
  {
    forall i, j :: 0 <= i < j < |s| ==> key(s[i]) != key(s[j])
  }

  lemma UniqueTail<T, K>(s: seq<T>, key: T -> K)
    requires Unique(s, key) && s != []
    ensures Unique(s[1..], key)
    ensures forall y :: y in s[1..] ==> key(y) != key(s[0])
  {
    var tail := s[1..];
    forall i, j | 0 <= i < j < |tail| ensures key(tail[i]) != key(tail[j]) {
      assert tail[i] == s[i + 1] && tail[j] == s[j + 1];
    }
    forall y | y in tail ensures key(y) != key(s[0]) {
      var k :| 0 <= k < |tail| && tail[k] == y;
      assert s[k + 1] == y;
    }
  }

  lemma UniqueCons<T, K>(x: T, s: seq<T>, key: T -> K)
    requires Unique(s, key)
    requires forall y :: y in s ==> key(y) != key(x)
    ensures Unique([x] + s, key)
  {
    var r := [x] + s;
    forall i, j | 0 <= i < j < |r| ensures key(r[i]) != key(r[j]) {
      assert r[j] == s[j - 1];
      if i > 0 { assert r[i] == s[i - 1]; } else { assert r[j] in s; }
    }
  }

  lemma {:induction false} FilterKeepsUnique<T(!new), K>(s: seq<T>, keep: T -> bool, key: T -> K)
    requires Unique(s, key)
    ensures Unique(Filter(s, keep), key)
  {
    if s != [] {
      UniqueTail(s, key);
      FilterKeepsUnique(s[1..], keep, key);
      if keep(s[0]) {
        UniqueCons(s[0], Filter(s[1..], keep), key);
      }
    }
  }

  function Min(a: int, b: int): int { if a <= b then a else b }

  /** `LIMIT limit OFFSET offset`: skip `offset` rows, keep at most `limit`. */
  function Window<T>(s: seq<T>, offset: nat, limit: nat): (r: seq<T>)
    ensures |r| <= limit
    ensures |r| == if offset >= |s| then 0 else Min(limit, |s| - offset)
    ensures forall i :: 0 <= i < |r| ==> offset + i < |s| && r[i] == s[offset + i]
  {
    if offset >= |s| then [] else s[offset..offset + Min(limit, |s| - offset)]
  }

  /** Consecutive pages tile the result: the page at `offset` of `l1` rows,
      followed by the page right after it, is one page of `l1 + l2` rows. */
  lemma ConsecutiveWindows<T>(s: seq<T>, offset: nat, l1: nat, l2: nat)
    ensures Window(s, offset, l1) + Window(s, offset + l1, l2) == Window(s, offset, l1 + l2)
  {
    var a, b, c := Window(s, offset, l1), Window(s, offset + l1, l2), Window(s, offset, l1 + l2);
    assert |a + b| == |c|;
    forall i | 0 <= i < |c| ensures (a + b)[i] == c[i] {
      if i >= |a| {
        assert (a + b)[i] == b[i - |a|];
      }
    }
  }

  /** The range of `bigint`, to which the database converts the LIMIT and
      OFFSET counts. */
  predicate InBigintRange(v: int)
  {
    -0x8000_0000_0000_0000 <= v <= 0x7FFF_FFFF_FFFF_FFFF
  }

  /** How the database applies `LIMIT limit OFFSET offset` to its rows: a
      count outside `bigint` fails its conversion (numeric value out of
      range) before the query runs; then a negative offset, then a negative
      limit, is refused with its own SQLSTATE; otherwise it returns the
      window. */
  function LimitOffset<T>(rows: seq<T>, limit: int, offset: int): (r: Result<seq<T>>)
    ensures r.Success? <==> InBigintRange(limit) && InBigintRange(offset) && offset >= 0 && limit >= 0
    ensures r.Success? ==> r.value == Window(rows, offset, limit) && |r.value| <= limit
    ensures !InBigintRange(limit) || !InBigintRange(offset) ==> r == Failure(DbError(NumericValueOutOfRange))
    ensures InBigintRange(limit) && InBigintRange(offset) && offset < 0 ==>
      r == Failure(DbError(InvalidRowCountInResultOffsetClause))
    ensures InBigintRange(limit) && InBigintRange(offset) && offset >= 0 && limit < 0 ==>
      r == Failure(DbError(InvalidRowCountInLimitClause))
  {
    if !InBigintRange(limit) || !InBigintRange(offset) then Failure(DbError(NumericValueOutOfRange))
    else if offset < 0 then Failure(DbError(InvalidRowCountInResultOffsetClause))
    else if limit < 0 then Failure(DbError(InvalidRowCountInLimitClause))
    else Success(Window(rows, offset, limit))
  }

  /** `r` lists exactly the rows of `s` (as a multiset), ordered by `key`. */
  ghost predicate IsOrdering<T>(r: seq<T>, s: seq<T>, key: T -> Key, descending: bool)
  {
    multiset(r) == multiset(s) && Sorted(r, key, descending)
  }

  lemma SortedCons<T>(a: T, s: seq<T>, key: T -> Key, descending: bool)
    requires Sorted(s, key, descending)
    requires forall y :: y in s ==> InOrder(key(a), key(y), descending)
    ensures Sorted([a] + s, key, descending)
  {
    var r := [a] + s;
    forall i, j | 0 <= i < j < |r| ensures InOrder(key(r[i]), key(r[j]), descending) {
      if i == 0 {
        assert r[j] == s[j - 1];
      } else {
        assert r[i] == s[i - 1] && r[j] == s[j - 1];
      }
    }
  }

  lemma SortedTail<T>(s: seq<T>, key: T -> Key, descending: bool)
    requires Sorted(s, key, descending) && s != []
    ensures Sorted(s[1..], key, descending)
    ensures forall y :: y in s[1..] ==> InOrder(key(s[0]), key(y), descending)
  {
    var t := s[1..];
    forall i, j | 0 <= i < j < |t| ensures InOrder(key(t[i]), key(t[j]), descending) {
      assert t[i] == s[i + 1] && t[j] == s[j + 1];
    }
    forall y | y in t ensures InOrder(key(s[0]), key(y), descending) {
      var k :| 0 <= k < |t| && t[k] == y;
      assert s[k + 1] == y;
    }
  }

  /** Insertion into an ordered sequence, after the rows it may follow. */
  function Insert<T>(x: T, s: seq<T>, key: T -> Key, descending: bool): (r: seq<T>)
    requires Sorted(s, key, descending)
    ensures multiset(r) == multiset(s) + multiset{x}
    ensures Sorted(r, key, descending)
    decreases |s|
  {
    if s == [] then [x]
    else
      SortedTail(s, key, descending);
      if InOrder(key(x), key(s[0]), descending) then
        assert forall y :: y in s ==> InOrder(key(x), key(y), descending) by {
          forall y | y in s ensures InOrder(key(x), key(y), descending) {
            if y != s[0] {
              assert y in s[1..] by { assert s == [s[0]] + s[1..]; }
              InOrderTransitive(key(x), key(s[0]), key(y), descending);
            }
          }
        }
        SortedCons(x, s, key, descending);
        [x] + s
      else
        var rest := Insert(x, s[1..], key, descending);
        assert s == [s[0]] + s[1..];
        InOrderTotal(key(x), key(s[0]), descending);
        assert forall y :: y in rest ==> InOrder(key(s[0]), key(y), descending) by {
          forall y | y in rest ensures InOrder(key(s[0]), key(y), descending) {
            assert y in multiset(rest);
            if y != x {
              assert y in multiset(s[1..]);
            }
          }
        }
        SortedCons(s[0], rest, key, descending);
        [s[0]] + rest
  }

  /** `ORDER BY key ASC|DESC`: one ordering of the rows, by insertion. The
      database may break ties differently; callers state results through
      `IsOrdering`, which holds of every tie order. */
  function OrderBy<T>(s: seq<T>, key: T -> Key, descending: bool): (r: seq<T>)
    ensures IsOrdering(r, s, key, descending)
    decreases |s|
  {
    if s == [] then []
    else
      assert s == [s[0]] + s[1..];
      Insert(s[0], OrderBy(s[1..], key, descending), key, descending)
  }

  /** A page of an ordering holds only rows of the ordered table. */
  lemma WindowOfOrderingMembers<T>(ordered: seq<T>, s: seq<T>, offset: nat, limit: nat)
    requires multiset(ordered) == multiset(s)
    ensures forall x :: x in Window(ordered, offset, limit) ==> x in s
  {
    forall x | x in Window(ordered, offset, limit) ensures x in s {
      var w := Window(ordered, offset, limit);
      var i :| 0 <= i < |w| && w[i] == x;
      assert x == ordered[offset + i];
      assert x in multiset(ordered);
    }
  }

  /** `UPDATE … SET … WHERE key = id`: each row with that key becomes
      `change` of itself, every other row stays as it is. */
  function UpdateWhere<T>(s: seq<T>, key: T -> int, id: int, change: T -> T): (r: seq<T>)
    ensures |r| == |s|
  {
    seq(|s|, i requires 0 <= i < |s| => if key(s[i]) == id then change(s[i]) else s[i])
  }

  /** The row predicate `key = id`. */
  function KeyIs<T(!new)>(key: T -> int, id: int): (r: T -> bool)
    ensures forall x :: r(x) <==> key(x) == id
  {
    (x: T) => key(x) == id
  }

  /** An update that leaves the key alone keeps the keys in place, and so
      keeps them unique. */
  lemma UpdateKeepsKeys<T>(s: seq<T>, key: T -> int, id: int, change: T -> T)
    requires Unique(s, key)
    requires forall x :: key(change(x)) == key(x)
    ensures forall i :: 0 <= i < |s| ==> key(UpdateWhere(s, key, id, change)[i]) == key(s[i])
    ensures Unique(UpdateWhere(s, key, id, change), key)
  {
    var t := UpdateWhere(s, key, id, change);
    forall i, j | 0 <= i < j < |t| ensures key(t[i]) != key(t[j]) {
      assert key(t[i]) == key(s[i]) && key(t[j]) == key(s[j]);
    }
  }

  /** An update on a unique key touches exactly the row with that key. */
  lemma UpdateTouchesOneRow<T>(s: seq<T>, key: T -> int, id: int, change: T -> T, k: int)
    requires Unique(s, key) && 0 <= k < |s| && key(s[k]) == id
    ensures UpdateWhere(s, key, id, change)[k] == change(s[k])
    ensures forall i :: 0 <= i < |s| && i != k ==> UpdateWhere(s, key, id, change)[i] == s[i]
  {
    forall i | 0 <= i < |s| && i != k ensures UpdateWhere(s, key, id, change)[i] == s[i] {
      if i < k { assert key(s[i]) != key(s[k]); }
      else { assert key(s[k]) != key(s[i]); }
    }
  }

  /** What `RETURNING *` hands back after an update on a unique key that the
      change leaves alone: nothing, and nothing changed, when no row has the
      key; otherwise the one changed row. */
  lemma ReturnedRow<T(!new)>(s: seq<T>, key: T -> int, id: int, change: T -> T)
    requires Unique(s, key)
    requires forall x :: key(change(x)) == key(x)
    ensures var t := UpdateWhere(s, key, id, change);
      var rows := Filter(t, KeyIs(key, id));
      && (rows == [] <==> forall x :: x in s ==> key(x) != id)
      && (rows == [] ==> t == s)
      && (rows != [] ==> exists k :: 0 <= k < |s| && key(s[k]) == id && rows[0] == t[k] == change(s[k]))
  {
    var t := UpdateWhere(s, key, id, change);
    var rows := Filter(t, KeyIs(key, id));
    UpdateKeepsKeys(s, key, id, change);
    if rows == [] {
      forall i | 0 <= i < |s| ensures key(s[i]) != id {
        assert !KeyIs(key, id)(t[i]) by { assert t[i] in t; }
      }
      assert t == s;
    } else {
      assert rows[0] in t && KeyIs(key, id)(rows[0]);
      var k :| 0 <= k < |t| && t[k] == rows[0];
      UpdateTouchesOneRow(s, key, id, change, k);
      assert s[k] in s;
    }
  }
}
