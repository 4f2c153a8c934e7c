/**
 * The reference days of a trip search and the six tier queries of `TripListResource.post`: which
 * units each tier admits, and the query `WHERE ... ORDER BY use_year, point_number LIMIT n`.
 */
module Tiers {
  import opened Wrappers
  import opened Calendar
  import opened IsoText
  import opened Models
  import opened Ordering

  /** The three priority classes, consulted in this order. */
  datatype Tier = Banked | Current | Borrow

  /**
   * The days a search compares use years with: the check-in day ("current use year"), the same day one
   * year earlier, one year later and two years earlier, and the day the trip was booked.
   */
  datatype Boundaries = Boundaries(current: Date, previous: Date, next: Date, previousTwo: Date, booked: Date)

  predicate Chronological(b: Boundaries) {
    Before(b.previousTwo, b.previous) && Before(b.previous, b.current) && Before(b.current, b.next)
  }

  /**
   * The boundaries of a search: the day before the first 'T' of the check-in text, shifted by -1, +1 and
   * -2 years, and the booking day read the same way; `None` where `strptime` or the year shift raises.
   */
  function DeriveBoundaries(checkIn: string, booked: string): (r: Option<Boundaries>)
    ensures r.Some? <==>
              && ParseDate(DatePart(checkIn)).Some?
              && ParseDate(DatePart(booked)).Some?
              && MinYear + 2 <= ParseDate(DatePart(checkIn)).value.year <= MaxYear - 1
    ensures r.Some? ==> Some(r.value.current) == ParseDate(DatePart(checkIn))
    ensures r.Some? ==> Some(r.value.booked) == ParseDate(DatePart(booked))
    ensures r.Some? ==> Chronological(r.value)
    ensures r.Some? ==>
              && r.value.previous.year == r.value.current.year - 1
              && r.value.next.year == r.value.current.year + 1
              && r.value.previousTwo.year == r.value.current.year - 2
    ensures r.Some? ==>
              && Some(r.value.previous) == ShiftYears(r.value.current, -1)
              && Some(r.value.next) == ShiftYears(r.value.current, 1)
              && Some(r.value.previousTwo) == ShiftYears(r.value.current, -2)
  {
    match ParseDate(DatePart(checkIn))
    case None => None
    case Some(current) =>
      var previous := ShiftYears(current, -1);
      var next := ShiftYears(current, 1);
      var previousTwo := ShiftYears(current, -2);
      var bookedDay := ParseDate(DatePart(booked));
      if previous.Some? && next.Some? && previousTwo.Some? && bookedDay.Some? then
        Some(Boundaries(current, previous.value, next.value, previousTwo.value, bookedDay.value))
      else
        None
  }

  /**
   * Whether a personal unit is taken by a tier: the trip owner's, not yet on a trip, and with its use year
   * strictly inside the tier's window (banked: before `previous`; current: between `previous` and
   * `current`; borrow: between `current` and `next`).
   */
  predicate InPersonalTier(p: PersonalPoint, owner: int, t: Tier, b: Boundaries) {
    && p.ownerId == owner
    && p.tripId.None?
    && match t
       case Banked => Before(p.useYear, b.previous)
       case Current => Before(b.previous, p.useYear) && Before(p.useYear, b.current)
       case Borrow => Before(b.current, p.useYear) && Before(p.useYear, b.next)
  }

  /**
   * Whether an actual unit is taken by a tier: not yet on a trip, its use year strictly inside the tier's
   * window, and for the banked tier banked before the booking day, for the current tier not banked or
   * banked after it. A NULL `banked_date` fails both comparisons, as in SQL.
   */
  predicate InActualTier(p: ActualPoint, t: Tier, b: Boundaries) {
    && p.tripId.None?
    && match t
       case Banked =>
         && Before(b.previousTwo, p.useYear) && Before(p.useYear, b.previous)
         && p.bankedDate.Some? && Before(p.bankedDate.value, b.booked)
       case Current =>
         && Before(b.previousTwo, p.useYear) && Before(p.useYear, b.current)
         && (p.bankedDate.None? || Before(b.booked, p.bankedDate.value))
       case Borrow => Before(b.current, p.useYear) && Before(p.useYear, b.next)
  }

  /** A tier query's WHERE clause: the rows of the units `keep` admits, in table order. */
  function Candidates<P>(table: seq<P>, keep: P -> bool, row: P -> Row): (r: seq<Row>)
    ensures |r| <= |table|
    ensures forall x :: x in r <==> exists i :: 0 <= i < |table| && keep(table[i]) && row(table[i]) == x
  {
    if table == [] then
      []
    else
      var rest := Candidates(table[1..], keep, row);
      assert forall x :: x in rest <==> exists i :: 1 <= i < |table| && keep(table[i]) && row(table[i]) == x by {
        forall x | x in rest
          ensures exists i :: 1 <= i < |table| && keep(table[i]) && row(table[i]) == x
        {
          var i :| 0 <= i < |table[1..]| && keep(table[1..][i]) && row(table[1..][i]) == x;
          assert table[i + 1] == table[1..][i];
        }
        forall x, i | 1 <= i < |table| && keep(table[i]) && row(table[i]) == x
          ensures x in rest
        {
          assert table[1..][i - 1] == table[i];
        }
      }
      (if keep(table[0]) then [row(table[0])] else []) + rest
  }

  /** Units that `keep` admits pairwise with different keys give candidates with different keys. */
  lemma {:induction false} CandidatesKeysDistinct<P>(table: seq<P>, keep: P -> bool, row: P -> Row)
    requires forall i, j :: 0 <= i < j < |table| && keep(table[i]) && keep(table[j]) ==> !SameKey(row(table[i]), row(table[j]))
    ensures KeysDistinct(Candidates(table, keep, row))
  {
    if table != [] {
      CandidatesKeysDistinct(table[1..], keep, row);
      var rest := Candidates(table[1..], keep, row);
      if keep(table[0]) {
        var r := [row(table[0])] + rest;
        forall i, j | 0 <= i < j < |r|
          ensures !SameKey(r[i], r[j])
        {
          if i == 0 {
            assert r[j] in rest;
            var k :| 0 <= k < |table[1..]| && keep(table[1..][k]) && row(table[1..][k]) == r[j];
            assert table[k + 1] == table[1..][k];
          } else {
            assert r[i] == rest[i - 1] && r[j] == rest[j - 1];
          }
        }
      }
    }
  }

  /** Filtering a concatenation filters each part. */
  lemma {:induction false} CandidatesAppend<P>(s: seq<P>, t: seq<P>, keep: P -> bool, row: P -> Row)
    ensures Candidates(s + t, keep, row) == Candidates(s, keep, row) + Candidates(t, keep, row)
  {
    if s != [] {
      assert (s + t)[1..] == s[1..] + t;
      CandidatesAppend(s[1..], t, keep, row);
    } else {
      assert s + t == t;
    }
  }

  /** Removing the first unit of `s` and the same unit at `k` of a permutation `t` leaves permutations. */
  lemma RemoveMatching<P>(s: seq<P>, t: seq<P>, k: nat)
    requires multiset(s) == multiset(t) && s != [] && k < |t| && t[k] == s[0]
    ensures multiset(s[1..]) == multiset(t[..k] + t[k + 1..])
  {
    assert s == [s[0]] + s[1..];
    assert t == t[..k] + [t[k]] + t[k + 1..];
    calc {
      multiset(s[1..]);
      multiset(s) - multiset{s[0]};
      multiset(t) - multiset{s[0]};
      multiset(t[..k]) + multiset(t[k + 1..]);
      multiset(t[..k] + t[k + 1..]);
    }
  }

  /** Moving the middle part of a sequence to the front keeps its multiset. */
  lemma MultisetMiddle(a: seq<Row>, x: seq<Row>, b: seq<Row>)
    ensures multiset(a + x + b) == multiset(x) + multiset(a + b)
  {
  }

  /** Filtering three consecutive parts filters each part. */
  lemma CandidatesOfThree<P>(a: seq<P>, x: seq<P>, b: seq<P>, keep: P -> bool, row: P -> Row)
    ensures Candidates(a + x + b, keep, row) == Candidates(a, keep, row) + Candidates(x, keep, row) + Candidates(b, keep, row)
  {
    CandidatesAppend(a + x, b, keep, row);
    CandidatesAppend(a, x, keep, row);
  }

  /** The candidates of a table are those of one unit plus those of the rest, in multiset terms. */
  lemma CandidatesSplit<P>(a: seq<P>, x: P, b: seq<P>, keep: P -> bool, row: P -> Row)
    ensures multiset(Candidates(a + [x] + b, keep, row))
              == multiset(Candidates([x], keep, row)) + multiset(Candidates(a + b, keep, row))
  {
    CandidatesOfThree(a, [x], b, keep, row);
    CandidatesAppend(a, b, keep, row);
    MultisetMiddle(Candidates(a, keep, row), Candidates([x], keep, row), Candidates(b, keep, row));
  }

  /** Which candidates a table yields depends only on which units it holds, not on their order. */
  lemma {:induction false} CandidatesPermutation<P>(s: seq<P>, t: seq<P>, keep: P -> bool, row: P -> Row)
    requires multiset(s) == multiset(t)
    ensures multiset(Candidates(s, keep, row)) == multiset(Candidates(t, keep, row))
    decreases |s|
  {
    if s == [] {
      assert |t| == |multiset(t)| == 0;
    } else {
      assert s[0] in multiset(t);
      var k :| 0 <= k < |t| && t[k] == s[0];
      RemoveMatching(s, t, k);
      CandidatesPermutation(s[1..], t[..k] + t[k + 1..], keep, row);
      CandidatesTakeOut(s, 0, keep, row);
      CandidatesTakeOut(t, k, keep, row);
    }
  }

  /** The candidates of a table are those of one unit plus those of the rest. */
  lemma CandidatesTakeOut<P>(s: seq<P>, k: nat, keep: P -> bool, row: P -> Row)
    requires k < |s|
    ensures multiset(Candidates(s, keep, row))
              == multiset(Candidates([s[k]], keep, row)) + multiset(Candidates(s[..k] + s[k + 1..], keep, row))
  {
    SplitAt(s, k);
    CandidatesSplit(s[..k], s[k], s[k + 1..], keep, row);
  }

  lemma SplitAt<P>(s: seq<P>, k: nat)
    requires k < |s|
    ensures s == s[..k] + [s[k]] + s[k + 1..]
  {
  }

  function PersonalRow(p: PersonalPoint): Row {
    Row(p.id, p.useYear, p.pointNumber)
  }

  function ActualRow(p: ActualPoint): Row {
    Row(p.id, p.useYear, p.pointNumber)
  }

  /** The WHERE clause of a personal tier query. */
  function PersonalKeep(owner: int, t: Tier, b: Boundaries): PersonalPoint -> bool {
    p => InPersonalTier(p, owner, t, b)
  }

  /** The WHERE clause of an actual tier query. */
  function ActualKeep(t: Tier, b: Boundaries): ActualPoint -> bool {
    p => InActualTier(p, t, b)
  }

  /** Every unit of a personal tier, in query order. */
  function PersonalTierRows(table: seq<PersonalPoint>, owner: int, t: Tier, b: Boundaries): (r: seq<Row>)
    ensures Ascending(r)
    ensures forall x :: x in r <==> exists i :: 0 <= i < |table| && InPersonalTier(table[i], owner, t, b) && PersonalRow(table[i]) == x
  {
    var cands := Candidates(table, PersonalKeep(owner, t, b), PersonalRow);
    var r := Sort(cands);
    assert forall x :: x in r <==> x in cands by {
      forall x
        ensures x in r <==> x in cands
      {
        assert x in r <==> x in multiset(r);
        assert x in cands <==> x in multiset(cands);
      }
    }
    r
  }

  /** Every unit of an actual tier, in query order. */
  function ActualTierRows(table: seq<ActualPoint>, t: Tier, b: Boundaries): (r: seq<Row>)
    ensures Ascending(r)
    ensures forall x :: x in r <==> exists i :: 0 <= i < |table| && InActualTier(table[i], t, b) && ActualRow(table[i]) == x
  {
    var cands := Candidates(table, ActualKeep(t, b), ActualRow);
    var r := Sort(cands);
    assert forall x :: x in r <==> x in cands by {
      forall x
        ensures x in r <==> x in cands
      {
        assert x in r <==> x in multiset(r);
        assert x in cands <==> x in multiset(cands);
      }
    }
    r
  }

  /**
   * The personal tier query with `LIMIT limit`: the first rows of the tier in (use_year, point_number)
   * order, as many as the tier has up to the limit, each the row of a unit the tier admits.
   */
  function PersonalQuery(table: seq<PersonalPoint>, owner: int, t: Tier, b: Boundaries, limit: nat): (r: seq<Row>)
    ensures |r| == if limit <= |PersonalTierRows(table, owner, t, b)| then limit else |PersonalTierRows(table, owner, t, b)|
    ensures r == PersonalTierRows(table, owner, t, b)[..|r|]
    ensures Ascending(r)
    ensures forall x :: x in r ==> exists i :: 0 <= i < |table| && InPersonalTier(table[i], owner, t, b) && PersonalRow(table[i]) == x
  {
    var rows := PersonalTierRows(table, owner, t, b);
    var r := Take(rows, limit);
    assert forall x :: x in r ==> x in rows;
    r
  }

  /** The actual tier query with `LIMIT limit`, with the same guarantees. */
  function ActualQuery(table: seq<ActualPoint>, t: Tier, b: Boundaries, limit: nat): (r: seq<Row>)
    ensures |r| == if limit <= |ActualTierRows(table, t, b)| then limit else |ActualTierRows(table, t, b)|
    ensures r == ActualTierRows(table, t, b)[..|r|]
    ensures Ascending(r)
    ensures forall x :: x in r ==> exists i :: 0 <= i < |table| && InActualTier(table[i], t, b) && ActualRow(table[i]) == x
  {
    var rows := ActualTierRows(table, t, b);
    var r := Take(rows, limit);
    assert forall x :: x in r ==> x in rows;
    r
  }

  /** The personal windows do not overlap, so no unit belongs to two personal tiers. */
  lemma PersonalTiersDisjoint(p: PersonalPoint, owner: int, b: Boundaries, t: Tier, u: Tier)
    requires Chronological(b) && t != u
    ensures !(InPersonalTier(p, owner, t, b) && InPersonalTier(p, owner, u, b))
  {
  }

  /**
   * No unit belongs to two actual tiers: the banked and current windows overlap, but a unit banked
   * before the booking day is neither unbanked nor banked after it.
   */
  lemma ActualTiersDisjoint(p: ActualPoint, b: Boundaries, t: Tier, u: Tier)
    requires Chronological(b) && t != u
    ensures !(InActualTier(p, t, b) && InActualTier(p, u, b))
  {
  }

  /**
   * The strict bounds leave gaps: no personal tier takes a unit whose use year is exactly `previous` or
   * exactly `current`, nor one from `next` on.
   */
  lemma PersonalWindowGaps(p: PersonalPoint, owner: int, b: Boundaries, t: Tier)
    requires Chronological(b)
    requires p.useYear == b.previous || p.useYear == b.current || !Before(p.useYear, b.next)
    ensures !InPersonalTier(p, owner, t, b)
  {
  }

  /**
   * No actual tier takes a unit whose use year is exactly `current`, none whose use year is `previousTwo`
   * or earlier, and none from `next` on.
   */
  lemma ActualWindowGaps(p: ActualPoint, b: Boundaries, t: Tier)
    requires Chronological(b)
    requires p.useYear == b.current || !Before(b.previousTwo, p.useYear) || !Before(p.useYear, b.next)
    ensures !InActualTier(p, t, b)
  {
  }

  /** Unlike the personal current tier, the actual current tier does take an unbanked unit of use year `previous`. */
  lemma ActualCurrentTakesPrevious(b: Boundaries)
    requires Chronological(b)
    ensures exists p: ActualPoint :: p.useYear == b.previous && InActualTier(p, Current, b)
    ensures forall p: PersonalPoint, owner: int :: p.useYear == b.previous ==> !InPersonalTier(p, owner, Current, b)
  {
    var p := ActualPoint(0, b.previous, 0, None, None);
    assert InActualTier(p, Current, b);
  }

  /** A unit banked on the booking day itself fails both `banked_date < booked` and `banked_date > booked`. */
  lemma BankedOnBookingDayOnlyBorrowed(p: ActualPoint, b: Boundaries, t: Tier)
    requires p.bankedDate == Some(b.booked) && t != Borrow
    ensures !InActualTier(p, t, b)
  {
  }

  /** No id occurs twice. */
  predicate IdsDistinct(s: seq<Row>) {
    forall i, j :: 0 <= i < j < |s| ==> s[i].id != s[j].id
  }

  /** No row of `p` shares its id with a row of `q`. */
  predicate IdsApart(p: seq<Row>, q: seq<Row>) {
    forall x, y :: x in p && y in q ==> x.id != y.id
  }

  /**
   * In a well-formed table one owner's units have distinct (use_year, point_number) keys and distinct ids,
   * so a personal tier's rows are strictly ascending and carry no id twice.
   */
  lemma PersonalTierRowsDistinct(table: seq<PersonalPoint>, owner: int, t: Tier, b: Boundaries)
    requires PersonalTableWellFormed(table)
    ensures StrictlyAscending(PersonalTierRows(table, owner, t, b))
    ensures IdsDistinct(PersonalTierRows(table, owner, t, b))
  {
    var keep := PersonalKeep(owner, t, b);
    CandidatesKeysDistinct(table, keep, PersonalRow);
    var cands := Candidates(table, keep, PersonalRow);
    SortKeysDistinct(cands);
    var rows := PersonalTierRows(table, owner, t, b);
    forall i, j | 0 <= i < j < |rows|
      ensures rows[i].id != rows[j].id
    {
      assert rows[i] in rows && rows[j] in rows;
      var k :| 0 <= k < |table| && InPersonalTier(table[k], owner, t, b) && PersonalRow(table[k]) == rows[i];
      var l :| 0 <= l < |table| && InPersonalTier(table[l], owner, t, b) && PersonalRow(table[l]) == rows[j];
      assert KeyBefore(rows[i], rows[j]);
      assert k != l;
    }
  }

  /** The same for an actual tier: its rows are strictly ascending and carry no id twice. */
  lemma ActualTierRowsDistinct(table: seq<ActualPoint>, t: Tier, b: Boundaries)
    requires ActualTableWellFormed(table)
    ensures StrictlyAscending(ActualTierRows(table, t, b))
    ensures IdsDistinct(ActualTierRows(table, t, b))
  {
    var keep := ActualKeep(t, b);
    CandidatesKeysDistinct(table, keep, ActualRow);
    var cands := Candidates(table, keep, ActualRow);
    SortKeysDistinct(cands);
    var rows := ActualTierRows(table, t, b);
    forall i, j | 0 <= i < j < |rows|
      ensures rows[i].id != rows[j].id
    {
      assert rows[i] in rows && rows[j] in rows;
      var k :| 0 <= k < |table| && InActualTier(table[k], t, b) && ActualRow(table[k]) == rows[i];
      var l :| 0 <= l < |table| && InActualTier(table[l], t, b) && ActualRow(table[l]) == rows[j];
      assert KeyBefore(rows[i], rows[j]);
      assert k != l;
    }
  }

  /** Two different personal tiers never share an id. */
  lemma PersonalTiersShareNoId(table: seq<PersonalPoint>, owner: int, b: Boundaries, t: Tier, u: Tier)
    requires PersonalTableWellFormed(table) && Chronological(b) && t != u
    ensures IdsApart(PersonalTierRows(table, owner, t, b), PersonalTierRows(table, owner, u, b))
  {
    forall x, y | x in PersonalTierRows(table, owner, t, b) && y in PersonalTierRows(table, owner, u, b)
      ensures x.id != y.id
    {
      var k :| 0 <= k < |table| && InPersonalTier(table[k], owner, t, b) && PersonalRow(table[k]) == x;
      var l :| 0 <= l < |table| && InPersonalTier(table[l], owner, u, b) && PersonalRow(table[l]) == y;
      PersonalTiersDisjoint(table[k], owner, b, t, u);
      assert k != l;
    }
  }

  /** Two different actual tiers never share an id. */
  lemma ActualTiersShareNoId(table: seq<ActualPoint>, b: Boundaries, t: Tier, u: Tier)
    requires ActualTableWellFormed(table) && Chronological(b) && t != u
    ensures IdsApart(ActualTierRows(table, t, b), ActualTierRows(table, u, b))
  {
    forall x, y | x in ActualTierRows(table, t, b) && y in ActualTierRows(table, u, b)
      ensures x.id != y.id
    {
      var k :| 0 <= k < |table| && InActualTier(table[k], t, b) && ActualRow(table[k]) == x;
      var l :| 0 <= l < |table| && InActualTier(table[l], u, b) && ActualRow(table[l]) == y;
      ActualTiersDisjoint(table[k], b, t, u);
      assert k != l;
    }
  }

  /**
   * On well-formed tables holding the same units, a personal tier has the same rows in the same order:
   * `ORDER BY use_year, point_number` leaves no tie for storage order to break.
   */
  lemma PersonalTierRowsOrderFree(table: seq<PersonalPoint>, other: seq<PersonalPoint>, owner: int, t: Tier, b: Boundaries)
    requires multiset(table) == multiset(other)
    requires PersonalTableWellFormed(table) && PersonalTableWellFormed(other)
    ensures PersonalTierRows(table, owner, t, b) == PersonalTierRows(other, owner, t, b)
  {
    var keep := PersonalKeep(owner, t, b);
    CandidatesKeysDistinct(table, keep, PersonalRow);
    CandidatesKeysDistinct(other, keep, PersonalRow);
    CandidatesPermutation(table, other, keep, PersonalRow);
    SortDeterministic(Candidates(table, keep, PersonalRow), Candidates(other, keep, PersonalRow));
  }

  /** The same for an actual tier. */
  lemma ActualTierRowsOrderFree(table: seq<ActualPoint>, other: seq<ActualPoint>, t: Tier, b: Boundaries)
    requires multiset(table) == multiset(other)
    requires ActualTableWellFormed(table) && ActualTableWellFormed(other)
    ensures ActualTierRows(table, t, b) == ActualTierRows(other, t, b)
  {
    var keep := ActualKeep(t, b);
    CandidatesKeysDistinct(table, keep, ActualRow);
    CandidatesKeysDistinct(other, keep, ActualRow);
    CandidatesPermutation(table, other, keep, ActualRow);
    SortDeterministic(Candidates(table, keep, ActualRow), Candidates(other, keep, ActualRow));
  }
}
