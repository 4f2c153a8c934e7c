/**
 * The ordering and limiting part of a tier query, `ORDER BY use_year, point_number LIMIT n`, over
 * the rows the query reads back.
 */
module Ordering {
  import opened Calendar

  /** The columns a tier query reads back for one unit: its id and its sort key. */
  datatype Row = Row(id: int, useYear: Date, pointNumber: int)

  /** `a` sorts strictly before `b` under `ORDER BY use_year, point_number`. */
  predicate KeyBefore(a: Row, b: Row) {
    Before(a.useYear, b.useYear) || (a.useYear == b.useYear && a.pointNumber < b.pointNumber)
  }

  predicate SameKey(a: Row, b: Row) {
    a.useYear == b.useYear && a.pointNumber == b.pointNumber
  }

  /** No row sorts strictly before an earlier one. */
  predicate Ascending(s: seq<Row>) {
    forall i, j :: 0 <= i < j < |s| ==> !KeyBefore(s[j], s[i])
  }

  /** No two rows share a sort key. */
  predicate KeysDistinct(s: seq<Row>) {
    forall i, j :: 0 <= i < j < |s| ==> !SameKey(s[i], s[j])
  }

  /** Every row sorts strictly before every later one. */
  predicate StrictlyAscending(s: seq<Row>) {
    forall i, j :: 0 <= i < j < |s| ==> KeyBefore(s[i], s[j])
  }

  /** Sorting no earlier is transitive (the key order is a total preorder). */
  lemma NotBeforeTransitive(a: Row, b: Row, c: Row)
    requires !KeyBefore(b, a) && !KeyBefore(c, b)
    ensures !KeyBefore(c, a)
  {
  }

  /** A row that sorts no later than every row of an ascending sequence can head it. */
  lemma ConsAscending(h: Row, r: seq<Row>)
    requires Ascending(r)
    requires forall y :: y in r ==> !KeyBefore(y, h)
    ensures Ascending([h] + r)
  {
    var s := [h] + r;
    forall i, j | 0 <= i < j < |s|
      ensures !KeyBefore(s[j], s[i])
    {
      assert s[j] == r[j - 1];
      if i > 0 {
        assert s[i] == r[i - 1];
      }
    }
  }

  /** `x` placed into an ascending sequence after every row that sorts before it. */
  function Insert(x: Row, s: seq<Row>): (r: seq<Row>)
    requires Ascending(s)
    ensures |r| == |s| + 1
    ensures forall y :: y in r <==> y == x || y in s
    ensures Ascending(r)
    ensures multiset(r) == multiset(s) + multiset{x}
  {
    if s == [] || !KeyBefore(s[0], x) then
      assert forall y :: y in s ==> !KeyBefore(y, x) by {
        forall y | y in s
          ensures !KeyBefore(y, x)
        {
          var j :| 0 <= j < |s| && s[j] == y;
          assert !KeyBefore(s[j], s[0]);
          NotBeforeTransitive(x, s[0], y);
        }
      }
      ConsAscending(x, s);
      [x] + s
    else
      assert s == [s[0]] + s[1..];
      var rest := Insert(x, s[1..]);
      assert forall y :: y in rest ==> !KeyBefore(y, s[0]) by {
        forall y | y in rest
          ensures !KeyBefore(y, s[0])
        {
          if y != x {
            var j :| 0 <= j < |s[1..]| && s[1..][j] == y;
            assert s[j + 1] == y;
          }
        }
      }
      ConsAscending(s[0], rest);
      [s[0]] + rest
  }

  /** The rows of `s` in ascending key order. */
  function Sort(s: seq<Row>): (r: seq<Row>)
    ensures |r| == |s|
    ensures Ascending(r)
    ensures multiset(r) == multiset(s)
  {
    if s == [] then
      []
    else
      assert s == [s[0]] + s[1..];
      Insert(s[0], Sort(s[1..]))
  }

  /** `LIMIT n`: the first `n` rows, or all of them when there are fewer. */
  function Take(s: seq<Row>, n: nat): (r: seq<Row>)
    ensures |r| == if n <= |s| then n else |s|
    ensures r == s[..|r|]
  {
    if n <= |s| then s[..n] else s
  }

  lemma {:induction false} InsertKeysDistinct(x: Row, s: seq<Row>)
    requires Ascending(s) && KeysDistinct(s)
    requires forall y :: y in s ==> !SameKey(x, y)
    ensures KeysDistinct(Insert(x, s))
  {
    if s != [] && KeyBefore(s[0], x) {
      var rest := Insert(x, s[1..]);
      InsertKeysDistinct(x, s[1..]);
      assert forall k :: 0 <= k < |rest| ==> rest[k] in rest;
    }
  }

  /** Sorting rows whose keys are distinct keeps them distinct, so the sorted rows are strictly ascending. */
  lemma {:induction false} SortKeysDistinct(s: seq<Row>)
    requires KeysDistinct(s)
    ensures KeysDistinct(Sort(s)) && StrictlyAscending(Sort(s))
  {
    if s != [] {
      SortKeysDistinct(s[1..]);
      var sorted := Sort(s[1..]);
      forall y | y in sorted
        ensures !SameKey(s[0], y)
      {
        assert y in multiset(s[1..]);
        var k :| 0 <= k < |s[1..]| && s[1..][k] == y;
        assert s[k + 1] == y;
      }
      InsertKeysDistinct(s[0], sorted);
    }
  }

  /** Two strictly ascending sequences holding the same rows are the same sequence. */
  lemma {:induction false} StrictlyAscendingUnique(a: seq<Row>, b: seq<Row>)
    requires StrictlyAscending(a) && StrictlyAscending(b) && multiset(a) == multiset(b)
    ensures a == b
  {
    if a == [] || b == [] {
      assert |a| == |multiset(a)| == |multiset(b)| == |b|;
    } else {
      SameFirst(a, b);
      assert a == [a[0]] + a[1..] && b == [b[0]] + b[1..];
      calc {
        multiset(a[1..]);
        multiset(a) - multiset{a[0]};
        multiset(b) - multiset{b[0]};
        multiset(b[1..]);
      }
      StrictlyAscendingUnique(a[1..], b[1..]);
    }
  }

  /** The first row of a strictly ascending sequence is its least, so two such sequences of the same rows start alike. */
  lemma SameFirst(a: seq<Row>, b: seq<Row>)
    requires StrictlyAscending(a) && StrictlyAscending(b) && multiset(a) == multiset(b)
    requires a != [] && b != []
    ensures a[0] == b[0]
  {
    assert a[0] in multiset(b) && b[0] in multiset(a);
    var i :| 0 <= i < |a| && a[i] == b[0];
    var j :| 0 <= j < |b| && b[j] == a[0];
    assert i == 0 || KeyBefore(a[0], a[i]);
    assert j == 0;
  }

  /**
   * With distinct keys the ordering leaves no ties to break, so the sorted result depends only on which
   * rows there are, never on the order they were stored in.
   */
  lemma SortDeterministic(s: seq<Row>, t: seq<Row>)
    requires multiset(s) == multiset(t) && KeysDistinct(s) && KeysDistinct(t)
    ensures Sort(s) == Sort(t)
  {
    SortKeysDistinct(s);
    SortKeysDistinct(t);
    StrictlyAscendingUnique(Sort(s), Sort(t));
  }

  /** In an ascending sequence nothing after position `k` sorts before anything up to it. */
  lemma AscendingSplit(s: seq<Row>, k: nat)
    requires Ascending(s) && k <= |s|
    ensures forall x, y :: x in s[..k] && y in s[k..] ==> !KeyBefore(y, x)
  {
    forall x, y | x in s[..k] && y in s[k..]
      ensures !KeyBefore(y, x)
    {
      var i :| 0 <= i < k && s[..k][i] == x;
      var j :| 0 <= j < |s| - k && s[k..][j] == y;
      assert s[i] == x && s[k + j] == y;
    }
  }

  /** The first `n` sorted rows are the smallest: every row left out sorts no earlier than any row taken. */
  lemma TakeSmallest(s: seq<Row>, n: nat)
    ensures forall x, y :: x in Take(Sort(s), n) && y in multiset(s) - multiset(Take(Sort(s), n)) ==> !KeyBefore(y, x)
  {
    var sorted := Sort(s);
    var r := Take(sorted, n);
    var k := |r|;
    assert sorted == sorted[..k] + sorted[k..];
    assert multiset(s) - multiset(r) == multiset(sorted[k..]);
    AscendingSplit(sorted, k);
  }
}
