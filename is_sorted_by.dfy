/** utils/isSortedBy.ts: the test helper that decides whether an array of
    records is sorted on one key, ascending or descending. The same notion of
    "in order" is what the store's `ORDER BY` promises. */
module SortedBy {
  import opened Keys

  /** `defaultCompare`: 1 when a > b, -1 when a < b, 0 otherwise. */
  function DefaultCompare(a: Key, b: Key): (r: int)
    ensures r == 1 <==> KeyLess(b, a)
    ensures r == -1 <==> KeyLess(a, b)
    ensures r == 0 <==> a == b
  {
    KeyTrichotomy(a, b);
    KeyLessIrreflexive(a);
    if KeyLess(b, a) then 1 else if KeyLess(a, b) then -1 else 0
  }

  /** Key `a` may stand before key `b`: in a descending order nothing
      smaller precedes something larger, and the other way round. */
  predicate InOrder(a: Key, b: Key, descending: bool)
  {
    if descending then !KeyLess(a, b) else !KeyLess(b, a)
  }

  /** Every pair of positions is in order. */
  ghost predicate Sorted<T>(s: seq<T>, key: T -> Key, descending: bool)
  {
    forall i, j :: 0 <= i < j < |s| ==> InOrder(key(s[i]), key(s[j]), descending)
  }

  /** Every adjacent pair is in order: what the loop checks. */
  ghost predicate AdjacentInOrder<T>(s: seq<T>, key: T -> Key, descending: bool)
  {
    forall i :: 0 <= i < |s| - 1 ==> InOrder(key(s[i]), key(s[i + 1]), descending)
  }

  lemma InOrderTransitive(a: Key, b: Key, c: Key, descending: bool)
    requires InOrder(a, b, descending) && InOrder(b, c, descending)
    ensures InOrder(a, c, descending)
  {
    KeyTrichotomy(a, b);
    KeyTrichotomy(b, c);
    KeyTrichotomy(a, c);
    if descending {
      if KeyLess(a, c) {
        if a == b { } else { KeyLessTransitive(c, b, a); }
      }
    } else {
      if KeyLess(c, a) {
        if a == b { } else { KeyLessTransitive(a, b, c); }
      }
    }
  }

  /** Two keys that are not in order one way are in order the other way. */
  lemma InOrderTotal(a: Key, b: Key, descending: bool)
    ensures InOrder(a, b, descending) || InOrder(b, a, descending)
  {
    KeyTrichotomy(a, b);
    KeyLessIrreflexive(a);
  }

  /** Checking adjacent pairs is enough: the order is transitive. */
  lemma {:induction false} AdjacentIffSorted<T>(s: seq<T>, key: T -> Key, descending: bool)
    ensures AdjacentInOrder(s, key, descending) <==> Sorted(s, key, descending)
  {
    if AdjacentInOrder(s, key, descending) {
      forall i, j | 0 <= i < j < |s|
        ensures InOrder(key(s[i]), key(s[j]), descending)
      {
        AdjacentChain(s, key, descending, i, j);
      }
    }
  }

  lemma {:induction false} AdjacentChain<T>(s: seq<T>, key: T -> Key, descending: bool, i: int, j: int)
    requires AdjacentInOrder(s, key, descending)
    requires 0 <= i < j < |s|
    ensures InOrder(key(s[i]), key(s[j]), descending)
    decreases j - i
  {
    if j > i + 1 {
      AdjacentChain(s, key, descending, i + 1, j);
      InOrderTransitive(key(s[i]), key(s[i + 1]), key(s[j]), descending);
    }
  }

  /** Positions i and i + 1 make the helper return false: the later key is
      larger in a descending check, smaller in an ascending one. */
  predicate ViolatingPair<T>(s: seq<T>, key: T -> Key, descending: bool, i: int)
    requires 0 <= i < |s| - 1
  {
    if descending then KeyLess(key(s[i]), key(s[i + 1])) else KeyLess(key(s[i + 1]), key(s[i]))
  }

  /** `isSortedBy(arr, sort_by, {descending})`. The loop compares each
      element with the next and returns false at the first pair whose
      `defaultCompare` is -1; `arr` is only read. */
  method IsSortedBy<T>(arr: seq<T>, key: T -> Key, descending: bool) returns (sorted: bool)
    ensures sorted <==> Sorted(arr, key, descending)
    ensures sorted <==> !exists i :: 0 <= i < |arr| - 1 && ViolatingPair(arr, key, descending, i)
    ensures |arr| <= 1 ==> sorted
  {
    AdjacentIffSorted(arr, key, descending);
    var i := 0;
    while i < |arr| - 1
      invariant 0 <= i <= if |arr| > 0 then |arr| - 1 else 0
      invariant forall j :: 0 <= j < i ==> InOrder(key(arr[j]), key(arr[j + 1]), descending)
    {
      var a := key(arr[i]);
      var b := key(arr[i + 1]);
      var cmp := if descending then DefaultCompare(a, b) else DefaultCompare(b, a);
      if cmp == -1 {
        assert ViolatingPair(arr, key, descending, i);
        return false;
      }
      i := i + 1;
    }
    return true;
  }

  /** The four cases of `__tests__/isSortedBy.test.ts`, on records keyed by `id`. */
  lemma IsSortedByTestVectors()
    ensures Sorted([3, 2, 1], (id: int) => IntKey(id), true)
    ensures !Sorted([2, 3, 1], (id: int) => IntKey(id), true)
    ensures Sorted([1, 2, 3], (id: int) => IntKey(id), false)
    ensures !Sorted([1, 3, 2], (id: int) => IntKey(id), false)
  {
    var k := (id: int) => IntKey(id);
    assert !InOrder(k([2, 3, 1][0]), k([2, 3, 1][1]), true);
    assert !InOrder(k([1, 3, 2][1]), k([1, 3, 2][2]), false);
  }
}
