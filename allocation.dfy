/**
 * `TripListResource.post`: validation of a trip request, derivation of the reference days, and the two
 * three-tier greedy searches over personal and then actual points. The search only locates ids: it
 * never writes a unit's `trip_id` and never stores the trip.
 */
module TripAllocation {
  import opened Wrappers
  import opened Calendar
  import opened IsoText
  import opened Models
  import opened Ordering
  import opened Tiers

  /**
   * A trip-creation request body: owner, room, dates as ISO 8601 text, the optional notes and the point
   * requirement. `pointsNeeded` is the number the schema's `fields.Integer` reads; `pointsAsText` says the
   * body carried it as a numeral string such as "3", which the schema converts but the handler reads raw.
   */
  datatype TripRequest = TripRequest(
    ownerName: string,
    resortName: string,
    roomTypeName: string,
    checkInDate: string,
    checkOutDate: string,
    bookedDate: string,
    notes: Option<string>,
    pointsNeeded: int,
    pointsAsText: bool)

  /**
   * What the search reads from the database: owner ids by name, bookable-room ids by (resort name,
   * room type name), and the two point tables.
   */
  datatype Ledger = Ledger(
    owners: map<string, int>,
    rooms: map<(string, string), int>,
    personal: seq<PersonalPoint>,
    actual: seq<ActualPoint>)

  /** How many units each tier of one pool located. */
  datatype TierCounts = TierCounts(banked: nat, current: nat, borrow: nat)

  /** One pool's search: the located ids in tier order, the per-tier counts and what is still needed. */
  datatype PoolSearch = PoolSearch(located: seq<int>, counts: TierCounts, remaining: int)

  /** The exceptions the handler lets escape. */
  datatype PythonError =
    | KeyError   // a key the schema leaves optional is read with `[]`
    | TypeError  // a `str` compared with an `int`
    | ValueError // `strptime` or the year shift refuses a date

  datatype Outcome =
    | Rejected(message: string)        // HTTP 400 with {'message': message}
    | SchemaRejected                   // HTTP 400 with the schema's error dict
    | Raised(error: PythonError)       // an exception escapes the handler; no response is formed
    | PersonalShortage(shortfall: nat) // HTTP 400, 'personal points shortage of <shortfall> points'
    | ActualShortage(shortfall: nat)   // HTTP 400, 'actual points shortage of <shortfall> points'
    | Located(trip: Trip, personal: PoolSearch, actual: PoolSearch)

  const NoInputMessage: string := "No input data provided"
  const NoOwnerMessage: string := "owner does not exist"
  const NoRoomMessage: string := "bookable room does not exist"
  const DateOrderMessage: string := "check out must be after check in date"
  const PointsMessage: string := "points needed must be at least 1"

  /** `'%s points shortage of %s points' % (pool, shortfall)`. */
  function ShortageMessage(pool: string, shortfall: nat): (m: string)
    ensures |pool| + 20 < |m| - 6 && m[..|pool|] == pool
    ensures m[|pool|..|pool| + 20] == " points shortage of " && m[|m| - 7..] == " points"
    ensures var digits := m[|pool| + 20..|m| - 7]; AllDigits(digits) && DigitsValue(digits) == shortfall
  {
    DecimalReadsBack(shortfall);
    var m := pool + " points shortage of " + Decimal(shortfall) + " points";
    assert m[|pool| + 20..|m| - 7] == Decimal(shortfall);
    m
  }

  /** A shortage message names its shortfall: different shortfalls of one pool give different messages. */
  lemma ShortageMessageNamesShortfall(pool: string, n: nat, m: nat)
    requires ShortageMessage(pool, n) == ShortageMessage(pool, m)
    ensures n == m
  {
    var p := pool + " points shortage of ";
    var sn, sm := ShortageMessage(pool, n), ShortageMessage(pool, m);
    assert |Decimal(n)| == |Decimal(m)|;
    assert Decimal(n) == sn[|p|..|p| + |Decimal(n)|];
    assert Decimal(m) == sm[|p|..|p| + |Decimal(m)|];
    DecimalReadsBack(n);
    DecimalReadsBack(m);
  }

  /** The response message of an outcome that has one. */
  function Message(o: Outcome): Option<string> {
    match o
    case Rejected(m) => Some(m)
    case PersonalShortage(n) => Some(ShortageMessage("personal", n))
    case ActualShortage(n) => Some(ShortageMessage("actual", n))
    case _ => None
  }

  /** The messages the handler answers with, apart from the points guard's. */
  predicate HandlerMessage(o: Outcome) {
    match o
    case Rejected(m) => m in {NoInputMessage, NoOwnerMessage, NoRoomMessage, DateOrderMessage}
    case PersonalShortage(_) => true
    case ActualShortage(_) => true
    case _ => false
  }

  /** Among those outcomes the message determines the outcome: its first letter the kind, the number the shortfall. */
  lemma MessageIdentifies(o1: Outcome, o2: Outcome)
    requires HandlerMessage(o1) && HandlerMessage(o2) && Message(o1) == Message(o2)
    ensures o1 == o2
  {
    var m1, m2 := Message(o1).value, Message(o2).value;
    if o1.PersonalShortage? && o2.PersonalShortage? {
      ShortageMessageNamesShortfall("personal", o1.shortfall, o2.shortfall);
    } else if o1.ActualShortage? && o2.ActualShortage? {
      ShortageMessageNamesShortfall("actual", o1.shortfall, o2.shortfall);
    } else {
      assert m1[0] == m2[0] && |m1| == |m2|;
    }
  }

  /** The rules of `TripSchema` the model keeps: `points_needed` is at least 1, notes are at most 4095 long. */
  predicate SchemaAccepts(r: TripRequest) {
    && r.pointsNeeded >= 1
    && (r.notes.Some? ==> |r.notes.value| <= 4095)
  }

  /** The ids of the rows a query returned, in order. */
  function Ids(rows: seq<Row>): (ids: seq<int>)
    ensures |ids| == |rows|
    ensures forall i :: 0 <= i < |rows| ==> ids[i] == rows[i].id
  {
    seq(|rows|, i requires 0 <= i < |rows| => rows[i].id)
  }

  predicate NoDuplicates(s: seq<int>) {
    forall i, j :: 0 <= i < j < |s| ==> s[i] != s[j]
  }

  /** Three tiers consulted in order, each queried for what is still needed, the second and third only while something is. */
  function Greedy(c1: seq<Row>, c2: seq<Row>, c3: seq<Row>, n: nat): PoolSearch {
    var r1 := Take(c1, n);
    var n1 := n - |r1|;
    var r2 := if n1 > 0 then Take(c2, n1) else [];
    var n2 := n1 - |r2|;
    var r3 := if n2 > 0 then Take(c3, n2) else [];
    PoolSearch(Ids(r1) + Ids(r2) + Ids(r3), TierCounts(|r1|, |r2|, |r3|), n2 - |r3|)
  }

  /**
   * The requirement is met from the earliest tiers first: each tier takes what it has up to what is still
   * needed, a later tier is used only once every earlier one is exhausted, and what remains is exactly
   * what all three tiers together could not cover.
   */
  lemma GreedyAccounting(c1: seq<Row>, c2: seq<Row>, c3: seq<Row>, n: nat)
    ensures var s := Greedy(c1, c2, c3, n);
      && |s.located| == s.counts.banked + s.counts.current + s.counts.borrow
      && s.remaining == n - |s.located|
      && s.remaining == (if n <= |c1| + |c2| + |c3| then 0 else n - (|c1| + |c2| + |c3|))
      && s.counts.banked == (if n <= |c1| then n else |c1|)
      && (s.counts.current > 0 ==> s.counts.banked == |c1| < n)
      && (s.counts.borrow > 0 ==> s.counts.banked == |c1| && s.counts.current == |c2| && |c1| + |c2| < n)
      && s.counts.banked <= |c1| && s.counts.current <= |c2| && s.counts.borrow <= |c3|
      && s.located == Ids(c1[..s.counts.banked]) + Ids(c2[..s.counts.current]) + Ids(c3[..s.counts.borrow])
  {
  }

  lemma PrefixesApart(p: seq<Row>, q: seq<Row>, a: nat, b: nat)
    requires IdsApart(p, q) && a <= |p| && b <= |q|
    ensures IdsApart(p[..a], q[..b])
  {
    assert forall x :: x in p[..a] ==> x in p;
    assert forall y :: y in q[..b] ==> y in q;
  }

  /** Joining two id-distinct row sequences that share no id keeps the ids distinct. */
  lemma AppendIdsDistinct(p: seq<Row>, q: seq<Row>)
    requires IdsDistinct(p) && IdsDistinct(q) && IdsApart(p, q)
    ensures IdsDistinct(p + q)
  {
    var s := p + q;
    forall i, j | 0 <= i < j < |s|
      ensures s[i].id != s[j].id
    {
      if j < |p| {
        assert s[i] == p[i] && s[j] == p[j];
      } else if |p| <= i {
        assert s[i] == q[i - |p|] && s[j] == q[j - |p|];
      } else {
        assert s[i] in p && s[j] in q;
      }
    }
  }

  lemma AppendApart(p: seq<Row>, q: seq<Row>, r: seq<Row>)
    requires IdsApart(p, r) && IdsApart(q, r)
    ensures IdsApart(p + q, r)
  {
  }

  lemma IdsAppend(p: seq<Row>, q: seq<Row>)
    ensures Ids(p + q) == Ids(p) + Ids(q)
  {
  }

  /**
   * What remains after the three tiers is what they could not cover together, and the rest is located.
   * These are two of `GreedyAccounting`'s conjuncts on their own: `SearchOutcomeCases` needs only them,
   * and given all of `GreedyAccounting` for both pools at once the solver runs out of resource there.
   */
  lemma GreedyShortfall(c1: seq<Row>, c2: seq<Row>, c3: seq<Row>, n: nat)
    ensures Greedy(c1, c2, c3, n).remaining == (if n <= |c1| + |c2| + |c3| then 0 else n - (|c1| + |c2| + |c3|))
    ensures |Greedy(c1, c2, c3, n).located| == n - Greedy(c1, c2, c3, n).remaining
  {
  }

  /** When every tier carries distinct ids and no two tiers share one, no id is located twice. */
  lemma GreedyLocatesDistinctIds(c1: seq<Row>, c2: seq<Row>, c3: seq<Row>, n: nat)
    requires IdsDistinct(c1) && IdsDistinct(c2) && IdsDistinct(c3)
    requires IdsApart(c1, c2) && IdsApart(c1, c3) && IdsApart(c2, c3)
    ensures NoDuplicates(Greedy(c1, c2, c3, n).located)
  {
    var s := Greedy(c1, c2, c3, n);
    GreedyAccounting(c1, c2, c3, n);
    var a, b, c := s.counts.banked, s.counts.current, s.counts.borrow;
    var p1, p2, p3 := c1[..a], c2[..b], c3[..c];
    PrefixesApart(c1, c2, a, b);
    PrefixesApart(c1, c3, a, c);
    PrefixesApart(c2, c3, b, c);
    AppendIdsDistinct(p1, p2);
    AppendApart(p1, p2, p3);
    AppendIdsDistinct(p1 + p2, p3);
    IdsAppend(p1, p2);
    IdsAppend(p1 + p2, p3);
    assert s.located == Ids(p1 + p2 + p3);
  }

  /** The personal pool: the trip owner's banked, current and borrow tiers. */
  function PersonalSearch(table: seq<PersonalPoint>, owner: int, b: Boundaries, n: nat): PoolSearch {
    Greedy(PersonalTierRows(table, owner, Banked, b), PersonalTierRows(table, owner, Current, b),
           PersonalTierRows(table, owner, Borrow, b), n)
  }

  /** The actual pool: its banked, current and borrow tiers. */
  function ActualSearch(table: seq<ActualPoint>, b: Boundaries, n: nat): PoolSearch {
    Greedy(ActualTierRows(table, Banked, b), ActualTierRows(table, Current, b), ActualTierRows(table, Borrow, b), n)
  }

  /** How many units of a pool all three tiers offer together. */
  function PersonalAvailable(table: seq<PersonalPoint>, owner: int, b: Boundaries): nat {
    |PersonalTierRows(table, owner, Banked, b)| + |PersonalTierRows(table, owner, Current, b)|
      + |PersonalTierRows(table, owner, Borrow, b)|
  }

  function ActualAvailable(table: seq<ActualPoint>, b: Boundaries): nat {
    |ActualTierRows(table, Banked, b)| + |ActualTierRows(table, Current, b)| + |ActualTierRows(table, Borrow, b)|
  }

  /** The trip row the request describes, filled as the handler fills it and never stored. */
  function DraftTrip(r: TripRequest, owner: int, room: int): Trip
    requires r.notes.Some?
  {
    Trip(None, r.checkInDate, r.checkOutDate, r.notes.value, room, owner, r.bookedDate, r.pointsNeeded)
  }

  /** Whether a request gets past every check before the point search. */
  predicate Admitted(request: Option<TripRequest>, db: Ledger) {
    && request.Some?
    && SchemaAccepts(request.value)
    && request.value.ownerName in db.owners
    && (request.value.resortName, request.value.roomTypeName) in db.rooms
    && StrLess(request.value.checkInDate, request.value.checkOutDate)
    && request.value.notes.Some?
    && !request.value.pointsAsText
    && request.value.pointsNeeded >= 0
    && DeriveBoundaries(request.value.checkInDate, request.value.bookedDate).Some?
  }

  /** The outcome of one call of `TripListResource.post`. */
  function PostOutcome(request: Option<TripRequest>, db: Ledger): Outcome {
    if request.None? then Rejected(NoInputMessage)
    else
      var r := request.value;
      if !SchemaAccepts(r) then SchemaRejected
      else if r.ownerName !in db.owners then Rejected(NoOwnerMessage)
      else if (r.resortName, r.roomTypeName) !in db.rooms then Rejected(NoRoomMessage)
      else if !StrLess(r.checkInDate, r.checkOutDate) then Rejected(DateOrderMessage)
      else if r.notes.None? then Raised(KeyError)
      else if r.pointsAsText then Raised(TypeError)
      else if r.pointsNeeded < 0 then Rejected(PointsMessage)
      else
        match DeriveBoundaries(r.checkInDate, r.bookedDate)
        case None => Raised(ValueError)
        case Some(b) => SearchOutcome(DraftTrip(r, db.owners[r.ownerName], db.rooms[(r.resortName, r.roomTypeName)]), b, db)
  }

  /** The point search for an admitted trip: the personal pool first, the actual pool only if that suffices. */
  function SearchOutcome(trip: Trip, b: Boundaries, db: Ledger): (o: Outcome)
    requires trip.pointsNeeded >= 0
    ensures o.PersonalShortage? || o.ActualShortage? || o.Located?
  {
    var personal := PersonalSearch(db.personal, trip.ownerId, b, trip.pointsNeeded);
    if personal.remaining > 0 then PersonalShortage(personal.remaining)
    else
      var actual := ActualSearch(db.actual, b, trip.pointsNeeded);
      if actual.remaining > 0 then ActualShortage(actual.remaining)
      else Located(trip, personal, actual)
  }

  /** `for row in result: located.append(row['id']); count += 1`. */
  method Collect(located: seq<int>, count: nat, rows: seq<Row>) returns (located': seq<int>, count': nat)
    ensures located' == located + Ids(rows)
    ensures count' == count + |rows|
  {
    located', count' := located, count;
    for i := 0 to |rows|
      invariant located' == located + Ids(rows[..i])
      invariant count' == count + i
    {
      assert Ids(rows[..i + 1]) == Ids(rows[..i]) + [rows[i].id];
      located' := located' + [rows[i].id];
      count' := count' + 1;
    }
    assert rows[..|rows|] == rows;
  }

  /** One tier: its query run with `LIMIT needed`, and the rows it returns collected. */
  method RunTier(query: nat -> seq<Row>, ghost c: seq<Row>, located: seq<int>, needed: nat)
    returns (located': seq<int>, count: nat)
    requires forall limit :: query(limit) == Take(c, limit)
    ensures count == |Take(c, needed)|
    ensures located' == located + Ids(Take(c, needed))
  {
    var result := query(needed);
    located', count := Collect(located, 0, result);
  }

  /**
   * One half of the handler: the three tier queries `query1`, `query2`, `query3` (each returning the first
   * rows of its ordered tier `c1`, `c2`, `c3` up to the limit it is given) run with `LIMIT` set to what is
   * still needed, the located ids appended and counted, the requirement reduced, and the later tiers run
   * only while something is still needed.
   */
  method Search(query1: nat -> seq<Row>, query2: nat -> seq<Row>, query3: nat -> seq<Row>,
                ghost c1: seq<Row>, ghost c2: seq<Row>, ghost c3: seq<Row>, pointsNeeded: nat) returns (s: PoolSearch)
    requires forall limit :: query1(limit) == Take(c1, limit)
    requires forall limit :: query2(limit) == Take(c2, limit)
    requires forall limit :: query3(limit) == Take(c3, limit)
    ensures s == Greedy(c1, c2, c3, pointsNeeded)
  {
    var located: seq<int> := [];
    var needed: nat := pointsNeeded;
    var countBanked, countCurrent, countBorrow := 0, 0, 0;
    located, countBanked := RunTier(query1, c1, located, needed);
    needed := needed - countBanked;
    ghost var r1 := Take(c1, pointsNeeded);
    assert located == Ids(r1) && needed == pointsNeeded - |r1|;
    ghost var r2: seq<Row> := [];
    if needed > 0 {
      located, countCurrent := RunTier(query2, c2, located, needed);
      r2 := Take(c2, needed);
      needed := needed - countCurrent;
    }
    assert located == Ids(r1) + Ids(r2) && countCurrent == |r2| && needed == pointsNeeded - |r1| - |r2|;
    ghost var r3: seq<Row> := [];
    if needed > 0 {
      located, countBorrow := RunTier(query3, c3, located, needed);
      r3 := Take(c3, needed);
      needed := needed - countBorrow;
    }
    assert located == Ids(r1) + Ids(r2) + Ids(r3) && countBorrow == |r3|;
    s := PoolSearch(located, TierCounts(countBanked, countCurrent, countBorrow), needed);
  }

  /** The personal half of the handler: the owner's banked, current and borrow tier queries. */
  method LocatePersonal(table: seq<PersonalPoint>, owner: int, b: Boundaries, pointsNeeded: nat) returns (s: PoolSearch)
    ensures s == PersonalSearch(table, owner, b, pointsNeeded)
  {
    s := Search((limit: nat) => PersonalQuery(table, owner, Banked, b, limit), (limit: nat) => PersonalQuery(table, owner, Current, b, limit),
                (limit: nat) => PersonalQuery(table, owner, Borrow, b, limit), PersonalTierRows(table, owner, Banked, b),
                PersonalTierRows(table, owner, Current, b), PersonalTierRows(table, owner, Borrow, b), pointsNeeded);
  }

  /** The actual half of the handler, restarting from the full requirement. */
  method LocateActual(table: seq<ActualPoint>, b: Boundaries, pointsNeeded: nat) returns (s: PoolSearch)
    ensures s == ActualSearch(table, b, pointsNeeded)
  {
    s := Search((limit: nat) => ActualQuery(table, Banked, b, limit), (limit: nat) => ActualQuery(table, Current, b, limit),
                (limit: nat) => ActualQuery(table, Borrow, b, limit), ActualTierRows(table, Banked, b),
                ActualTierRows(table, Current, b), ActualTierRows(table, Borrow, b), pointsNeeded);
  }

  /**
   * `TripListResource.post`: the checks in the handler's order, then the personal search, then (only when
   * personal points suffice) the actual search from the full requirement.
   */
  method Post(request: Option<TripRequest>, db: Ledger) returns (outcome: Outcome)
    ensures outcome == PostOutcome(request, db)
  {
    if request.None? {
      return Rejected(NoInputMessage);
    }
    var r := request.value;
    if !SchemaAccepts(r) {
      return SchemaRejected;
    }
    if r.ownerName !in db.owners {
      return Rejected(NoOwnerMessage);
    }
    var ownerId := db.owners[r.ownerName];
    if (r.resortName, r.roomTypeName) !in db.rooms {
      return Rejected(NoRoomMessage);
    }
    var roomId := db.rooms[(r.resortName, r.roomTypeName)];
    if !StrLess(r.checkInDate, r.checkOutDate) {
      return Rejected(DateOrderMessage);
    }
    if r.notes.None? {
      return Raised(KeyError);
    }
    if r.pointsAsText {
      return Raised(TypeError);
    }
    if r.pointsNeeded < 0 {
      return Rejected(PointsMessage);
    }
    var bounds := DeriveBoundaries(r.checkInDate, r.bookedDate);
    if bounds.None? {
      return Raised(ValueError);
    }
    var b := bounds.value;
    var personal := LocatePersonal(db.personal, ownerId, b, r.pointsNeeded);
    if personal.remaining > 0 {
      return PersonalShortage(personal.remaining);
    }
    var actual := LocateActual(db.actual, b, r.pointsNeeded);
    if actual.remaining > 0 {
      return ActualShortage(actual.remaining);
    }
    outcome := Located(DraftTrip(r, ownerId, roomId), personal, actual);
  }

  /** The reference days of an admitted request. */
  function BoundariesOf(request: Option<TripRequest>, db: Ledger): Boundaries
    requires Admitted(request, db)
  {
    DeriveBoundaries(request.value.checkInDate, request.value.bookedDate).value
  }

  /** The owner id of an admitted request. */
  function OwnerOf(request: Option<TripRequest>, db: Ledger): int
    requires Admitted(request, db)
  {
    db.owners[request.value.ownerName]
  }

  /** The unsaved trip of an admitted request. */
  function TripOf(request: Option<TripRequest>, db: Ledger): Trip
    requires Admitted(request, db)
  {
    DraftTrip(request.value, OwnerOf(request, db), db.rooms[(request.value.resortName, request.value.roomTypeName)])
  }

  /** An admitted request's answer is the search's. */
  lemma AdmittedSearches(request: Option<TripRequest>, db: Ledger)
    requires Admitted(request, db)
    ensures PostOutcome(request, db) == SearchOutcome(TripOf(request, db), BoundariesOf(request, db), db)
  {
  }

  /** A request turned away before the search gets the same answer whatever the point tables hold. */
  lemma RejectionsPrecedeSearch(request: Option<TripRequest>, db: Ledger, personal: seq<PersonalPoint>, actual: seq<ActualPoint>)
    requires !Admitted(request, db)
    ensures PostOutcome(request, db) == PostOutcome(request, db.(personal := personal, actual := actual))
    ensures !PostOutcome(request, db).PersonalShortage? && !PostOutcome(request, db).ActualShortage?
    ensures !PostOutcome(request, db).Located?
  {
  }

  /**
   * The schema refuses a requirement below 1 before the handler's own `points_needed < 0` guard is
   * reached, so that guard's message is never the answer and a requirement of 0 is a schema error.
   */
  lemma PointsGuardUnreachable(request: Option<TripRequest>, db: Ledger)
    ensures PostOutcome(request, db) != Rejected(PointsMessage)
    ensures request.Some? && request.value.pointsNeeded <= 0 ==> PostOutcome(request, db) == SchemaRejected
  {
    assert |PointsMessage| != |NoInputMessage| && |PointsMessage| != |NoOwnerMessage|;
    assert |PointsMessage| != |NoRoomMessage| && |PointsMessage| != |DateOrderMessage|;
  }

  /** A request is refused with the schema's errors exactly when it asks for fewer than 1 point or its notes exceed 4095 characters. */
  lemma SchemaRejection(request: Option<TripRequest>, db: Ledger)
    requires request.Some?
    ensures PostOutcome(request, db) == SchemaRejected <==>
              request.value.pointsNeeded < 1 || (request.value.notes.Some? && |request.value.notes.value| > 4095)
  {
  }

  /**
   * Past the date-order check the handler reads `notes` with `[]`, although the schema leaves it optional,
   * and compares the raw `points_needed` with 0, although the schema also accepts it as a numeral string:
   * the first raises `KeyError`, the second `TypeError`, before the points guard and the date parsing.
   */
  lemma UncheckedFieldsRaise(request: Option<TripRequest>, db: Ledger)
    requires request.Some? && SchemaAccepts(request.value)
    requires request.value.ownerName in db.owners
    requires (request.value.resortName, request.value.roomTypeName) in db.rooms
    requires StrLess(request.value.checkInDate, request.value.checkOutDate)
    ensures PostOutcome(request, db) == Raised(KeyError) <==> request.value.notes.None?
    ensures PostOutcome(request, db) == Raised(TypeError) <==> request.value.notes.Some? && request.value.pointsAsText
  {
  }

  /**
   * The response message tells the outcomes apart: two answers of the handler that carry the same
   * message are the same answer.
   */
  lemma MessageIdentifiesOutcome(r1: Option<TripRequest>, db1: Ledger, r2: Option<TripRequest>, db2: Ledger)
    requires Message(PostOutcome(r1, db1)).Some?
    requires Message(PostOutcome(r1, db1)) == Message(PostOutcome(r2, db2))
    ensures PostOutcome(r1, db1) == PostOutcome(r2, db2)
  {
    AnswersCarryHandlerMessages(r1, db1);
    AnswersCarryHandlerMessages(r2, db2);
    MessageIdentifies(PostOutcome(r1, db1), PostOutcome(r2, db2));
  }

  /** Every message the handler answers with is one of its fixed texts or a shortage message. */
  lemma AnswersCarryHandlerMessages(request: Option<TripRequest>, db: Ledger)
    requires Message(PostOutcome(request, db)).Some?
    ensures HandlerMessage(PostOutcome(request, db))
  {
    var o := PostOutcome(request, db);
    PointsGuardUnreachable(request, db);
    if o.Rejected? {
      assert o.message in {NoInputMessage, NoOwnerMessage, NoRoomMessage, DateOrderMessage, PointsMessage};
    }
  }

  /**
   * Where both dates read as calendar days and the days differ, the text comparison of the check-in and
   * check-out values rejects the request exactly when check-out is not after check-in.
   */
  lemma DateOrderRejection(request: Option<TripRequest>, db: Ledger, checkIn: Date, checkOut: Date)
    requires request.Some? && SchemaAccepts(request.value)
    requires request.value.ownerName in db.owners
    requires (request.value.resortName, request.value.roomTypeName) in db.rooms
    requires ParseDate(DatePart(request.value.checkInDate)) == Some(checkIn)
    requires ParseDate(DatePart(request.value.checkOutDate)) == Some(checkOut)
    requires checkIn != checkOut
    ensures PostOutcome(request, db) == Rejected(DateOrderMessage) <==> !Before(checkIn, checkOut)
  {
    var r := request.value;
    DateOrderDecidesComparison(r.checkInDate, r.checkOutDate, checkIn, checkOut);
    if StrLess(r.checkInDate, r.checkOutDate) {
      assert r.pointsNeeded >= 0;
      assert PostOutcome(request, db).Raised? || PostOutcome(request, db).PersonalShortage?
             || PostOutcome(request, db).ActualShortage? || PostOutcome(request, db).Located?;
    }
  }

  /**
   * The search itself: a personal shortage exactly when the owner's three personal tiers hold fewer
   * units than needed, an actual shortage exactly when they suffice but the actual tiers hold fewer than
   * the full requirement, each naming the difference, and otherwise both pools locate exactly the
   * requirement for the unsaved trip.
   */
  lemma SearchOutcomeCases(trip: Trip, b: Boundaries, db: Ledger)
    requires trip.pointsNeeded >= 0
    ensures var o, n := SearchOutcome(trip, b, db), trip.pointsNeeded;
      var personal, actual := PersonalAvailable(db.personal, trip.ownerId, b), ActualAvailable(db.actual, b);
      && (o.PersonalShortage? <==> personal < n)
      && (o.PersonalShortage? ==> o.shortfall == n - personal)
      && (o.ActualShortage? <==> n <= personal && actual < n)
      && (o.ActualShortage? ==> o.shortfall == n - actual)
      && (o.Located? <==> n <= personal && n <= actual)
      && (o.Located? ==> o.trip == trip && |o.personal.located| == n && |o.actual.located| == n)
      && (o.Located? ==> o.personal.remaining == 0 && o.actual.remaining == 0)
  {
    var n := trip.pointsNeeded;
    GreedyShortfall(PersonalTierRows(db.personal, trip.ownerId, Banked, b), PersonalTierRows(db.personal, trip.ownerId, Current, b),
                    PersonalTierRows(db.personal, trip.ownerId, Borrow, b), n);
    GreedyShortfall(ActualTierRows(db.actual, Banked, b), ActualTierRows(db.actual, Current, b),
                    ActualTierRows(db.actual, Borrow, b), n);
  }

  /**
   * The personal search falls short exactly when the owner's three personal tiers together hold fewer
   * unallocated units than the requirement, and the answer names the difference.
   */
  lemma PersonalShortageOutcome(request: Option<TripRequest>, db: Ledger)
    requires Admitted(request, db)
    ensures PostOutcome(request, db).PersonalShortage? <==>
              PersonalAvailable(db.personal, OwnerOf(request, db), BoundariesOf(request, db)) < request.value.pointsNeeded
    ensures PostOutcome(request, db).PersonalShortage? ==>
              PostOutcome(request, db).shortfall
                == request.value.pointsNeeded - PersonalAvailable(db.personal, OwnerOf(request, db), BoundariesOf(request, db))
  {
    AdmittedSearches(request, db);
    SearchOutcomeCases(TripOf(request, db), BoundariesOf(request, db), db);
  }

  /** A personal shortage is answered before the actual table is read: any actual table gives the same answer. */
  lemma PersonalShortageIgnoresActual(request: Option<TripRequest>, db: Ledger, actual: seq<ActualPoint>)
    requires PostOutcome(request, db).PersonalShortage?
    ensures PostOutcome(request, db.(actual := actual)) == PostOutcome(request, db)
  {
  }

  /**
   * The actual search falls short exactly when the personal tiers suffice but the actual tiers together
   * hold fewer unallocated units than the full requirement, and the answer names the difference.
   */
  lemma ActualShortageOutcome(request: Option<TripRequest>, db: Ledger)
    requires Admitted(request, db)
    ensures PostOutcome(request, db).ActualShortage? <==>
              && request.value.pointsNeeded <= PersonalAvailable(db.personal, OwnerOf(request, db), BoundariesOf(request, db))
              && ActualAvailable(db.actual, BoundariesOf(request, db)) < request.value.pointsNeeded
    ensures PostOutcome(request, db).ActualShortage? ==>
              PostOutcome(request, db).shortfall == request.value.pointsNeeded - ActualAvailable(db.actual, BoundariesOf(request, db))
  {
    AdmittedSearches(request, db);
    SearchOutcomeCases(TripOf(request, db), BoundariesOf(request, db), db);
  }

  /**
   * The search succeeds exactly when an admitted request's requirement is covered by both pools; each
   * pool then locates exactly the requirement, and the trip is the request's, unsaved (no id).
   */
  lemma LocatedOutcome(request: Option<TripRequest>, db: Ledger)
    ensures PostOutcome(request, db).Located? <==>
              && Admitted(request, db)
              && request.value.pointsNeeded <= PersonalAvailable(db.personal, OwnerOf(request, db), BoundariesOf(request, db))
              && request.value.pointsNeeded <= ActualAvailable(db.actual, BoundariesOf(request, db))
    ensures PostOutcome(request, db).Located? ==>
              var o := PostOutcome(request, db);
              && |o.personal.located| == request.value.pointsNeeded && o.personal.remaining == 0
              && |o.actual.located| == request.value.pointsNeeded && o.actual.remaining == 0
              && o.trip.id.None? && o.trip.pointsNeeded == request.value.pointsNeeded
              && o.trip.ownerId == OwnerOf(request, db)
  {
    if Admitted(request, db) {
      AdmittedSearches(request, db);
      SearchOutcomeCases(TripOf(request, db), BoundariesOf(request, db), db);
    }
  }

  /** Every located id is the id of a row of one of the three tiers. */
  lemma GreedyDrawsFromTiers(c1: seq<Row>, c2: seq<Row>, c3: seq<Row>, n: nat, id: int)
    requires id in Greedy(c1, c2, c3, n).located
    ensures exists x :: (x in c1 || x in c2 || x in c3) && x.id == id
  {
    var s := Greedy(c1, c2, c3, n);
    GreedyAccounting(c1, c2, c3, n);
    var p1, p2, p3 := c1[..s.counts.banked], c2[..s.counts.current], c3[..s.counts.borrow];
    IdsAppend(p1, p2);
    IdsAppend(p1 + p2, p3);
    var rows := p1 + p2 + p3;
    var k :| 0 <= k < |s.located| && s.located[k] == id;
    assert rows[k].id == id;
    assert rows[k] in p1 || rows[k] in p2 || rows[k] in p3;
  }

  /**
   * On tables that keep their uniqueness constraints, neither pool's search locates the same unit twice:
   * each tier's rows carry distinct ids and the tiers' windows never share a unit.
   */
  lemma LocatedIdsDistinct(request: Option<TripRequest>, db: Ledger)
    requires PostOutcome(request, db).Located?
    requires PersonalTableWellFormed(db.personal) && ActualTableWellFormed(db.actual)
    ensures NoDuplicates(PostOutcome(request, db).personal.located)
    ensures NoDuplicates(PostOutcome(request, db).actual.located)
  {
    LocatedOutcome(request, db);
    AdmittedSearches(request, db);
    PersonalSearchNoDuplicates(db.personal, OwnerOf(request, db), BoundariesOf(request, db), request.value.pointsNeeded);
    ActualSearchNoDuplicates(db.actual, BoundariesOf(request, db), request.value.pointsNeeded);
  }

  lemma PersonalSearchNoDuplicates(table: seq<PersonalPoint>, owner: int, b: Boundaries, n: nat)
    requires PersonalTableWellFormed(table) && Chronological(b)
    ensures NoDuplicates(PersonalSearch(table, owner, b, n).located)
  {
    PersonalTierRowsDistinct(table, owner, Banked, b);
    PersonalTierRowsDistinct(table, owner, Current, b);
    PersonalTierRowsDistinct(table, owner, Borrow, b);
    PersonalTiersShareNoId(table, owner, b, Banked, Current);
    PersonalTiersShareNoId(table, owner, b, Banked, Borrow);
    PersonalTiersShareNoId(table, owner, b, Current, Borrow);
    GreedyLocatesDistinctIds(PersonalTierRows(table, owner, Banked, b), PersonalTierRows(table, owner, Current, b),
                             PersonalTierRows(table, owner, Borrow, b), n);
  }

  lemma ActualSearchNoDuplicates(table: seq<ActualPoint>, b: Boundaries, n: nat)
    requires ActualTableWellFormed(table) && Chronological(b)
    ensures NoDuplicates(ActualSearch(table, b, n).located)
  {
    ActualTierRowsDistinct(table, Banked, b);
    ActualTierRowsDistinct(table, Current, b);
    ActualTierRowsDistinct(table, Borrow, b);
    ActualTiersShareNoId(table, b, Banked, Current);
    ActualTiersShareNoId(table, b, Banked, Borrow);
    ActualTiersShareNoId(table, b, Current, Borrow);
    GreedyLocatesDistinctIds(ActualTierRows(table, Banked, b), ActualTierRows(table, Current, b),
                             ActualTierRows(table, Borrow, b), n);
  }

  /**
   * Every personal id the search locates belongs to a unit of the trip owner that is on no trip yet and
   * lies in one of the personal tiers.
   */
  lemma LocatedPersonalUnits(request: Option<TripRequest>, db: Ledger, id: int)
    requires PostOutcome(request, db).Located?
    requires id in PostOutcome(request, db).personal.located
    ensures Admitted(request, db)
    ensures exists i, t :: 0 <= i < |db.personal| && db.personal[i].id == id
                           && InPersonalTier(db.personal[i], OwnerOf(request, db), t, BoundariesOf(request, db))
  {
    LocatedOutcome(request, db);
    AdmittedSearches(request, db);
    PersonalSearchDraws(db.personal, OwnerOf(request, db), BoundariesOf(request, db), request.value.pointsNeeded, id);
  }

  /** Every id the personal search locates is that of a unit of the owner inside a personal tier. */
  lemma PersonalSearchDraws(table: seq<PersonalPoint>, owner: int, b: Boundaries, n: nat, id: int)
    requires id in PersonalSearch(table, owner, b, n).located
    ensures exists i, t :: 0 <= i < |table| && table[i].id == id && InPersonalTier(table[i], owner, t, b)
  {
    var c1, c2, c3 := PersonalTierRows(table, owner, Banked, b), PersonalTierRows(table, owner, Current, b),
                      PersonalTierRows(table, owner, Borrow, b);
    GreedyDrawsFromTiers(c1, c2, c3, n, id);
    var x :| (x in c1 || x in c2 || x in c3) && x.id == id;
    var t := if x in c1 then Banked else if x in c2 then Current else Borrow;
    PersonalRowInTier(table, owner, t, b, x);
  }

  lemma PersonalRowInTier(table: seq<PersonalPoint>, owner: int, t: Tier, b: Boundaries, x: Row)
    requires x in PersonalTierRows(table, owner, t, b)
    ensures exists i, u :: 0 <= i < |table| && table[i].id == x.id && InPersonalTier(table[i], owner, u, b)
  {
    var i :| 0 <= i < |table| && InPersonalTier(table[i], owner, t, b) && PersonalRow(table[i]) == x;
  }

  /** Every actual id the search locates belongs to a unit that is on no trip yet and lies in one of the actual tiers. */
  lemma LocatedActualUnits(request: Option<TripRequest>, db: Ledger, id: int)
    requires PostOutcome(request, db).Located?
    requires id in PostOutcome(request, db).actual.located
    ensures Admitted(request, db)
    ensures exists i, t :: 0 <= i < |db.actual| && db.actual[i].id == id && InActualTier(db.actual[i], t, BoundariesOf(request, db))
  {
    LocatedOutcome(request, db);
    AdmittedSearches(request, db);
    ActualSearchDraws(db.actual, BoundariesOf(request, db), request.value.pointsNeeded, id);
  }

  /** Every id the actual search locates is that of a unit inside an actual tier. */
  lemma ActualSearchDraws(table: seq<ActualPoint>, b: Boundaries, n: nat, id: int)
    requires id in ActualSearch(table, b, n).located
    ensures exists i, t :: 0 <= i < |table| && table[i].id == id && InActualTier(table[i], t, b)
  {
    var c1, c2, c3 := ActualTierRows(table, Banked, b), ActualTierRows(table, Current, b), ActualTierRows(table, Borrow, b);
    GreedyDrawsFromTiers(c1, c2, c3, n, id);
    var x :| (x in c1 || x in c2 || x in c3) && x.id == id;
    var t := if x in c1 then Banked else if x in c2 then Current else Borrow;
    ActualRowInTier(table, t, b, x);
  }

  lemma ActualRowInTier(table: seq<ActualPoint>, t: Tier, b: Boundaries, x: Row)
    requires x in ActualTierRows(table, t, b)
    ensures exists i, u :: 0 <= i < |table| && table[i].id == x.id && InActualTier(table[i], u, b)
  {
    var i :| 0 <= i < |table| && InActualTier(table[i], t, b) && ActualRow(table[i]) == x;
  }

  /**
   * On well-formed tables the answer does not depend on the order the database stores the units in:
   * the same units in any order give the same outcome, down to the order of the located ids.
   */
  lemma StorageOrderIrrelevant(request: Option<TripRequest>, db: Ledger, personal: seq<PersonalPoint>, actual: seq<ActualPoint>)
    requires multiset(personal) == multiset(db.personal) && multiset(actual) == multiset(db.actual)
    requires PersonalTableWellFormed(db.personal) && PersonalTableWellFormed(personal)
    requires ActualTableWellFormed(db.actual) && ActualTableWellFormed(actual)
    ensures PostOutcome(request, db.(personal := personal, actual := actual)) == PostOutcome(request, db)
  {
    var other := db.(personal := personal, actual := actual);
    if Admitted(request, db) {
      assert Admitted(request, other);
      AdmittedSearches(request, db);
      AdmittedSearches(request, other);
      assert TripOf(request, other) == TripOf(request, db) && BoundariesOf(request, other) == BoundariesOf(request, db);
      SearchOrderFree(TripOf(request, db), BoundariesOf(request, db), db, other);
    } else {
      RejectionsPrecedeSearch(request, db, personal, actual);
    }
  }

  lemma SearchOrderFree(trip: Trip, b: Boundaries, db: Ledger, other: Ledger)
    requires trip.pointsNeeded >= 0
    requires multiset(other.personal) == multiset(db.personal) && multiset(other.actual) == multiset(db.actual)
    requires PersonalTableWellFormed(db.personal) && PersonalTableWellFormed(other.personal)
    requires ActualTableWellFormed(db.actual) && ActualTableWellFormed(other.actual)
    ensures SearchOutcome(trip, b, other) == SearchOutcome(trip, b, db)
  {
    PersonalSearchOrderFree(db.personal, other.personal, trip.ownerId, b, trip.pointsNeeded);
    ActualSearchOrderFree(db.actual, other.actual, b, trip.pointsNeeded);
    SearchOutcomeBySearches(trip, b, db, other);
  }

  /** The search outcome reads the tables only through the two pools' searches. */
  lemma SearchOutcomeBySearches(trip: Trip, b: Boundaries, db: Ledger, other: Ledger)
    requires trip.pointsNeeded >= 0
    requires PersonalSearch(other.personal, trip.ownerId, b, trip.pointsNeeded)
             == PersonalSearch(db.personal, trip.ownerId, b, trip.pointsNeeded)
    requires ActualSearch(other.actual, b, trip.pointsNeeded) == ActualSearch(db.actual, b, trip.pointsNeeded)
    ensures SearchOutcome(trip, b, other) == SearchOutcome(trip, b, db)
  {
  }

  lemma PersonalSearchOrderFree(table: seq<PersonalPoint>, other: seq<PersonalPoint>, owner: int, b: Boundaries, n: nat)
    requires multiset(table) == multiset(other)
    requires PersonalTableWellFormed(table) && PersonalTableWellFormed(other)
    ensures PersonalSearch(table, owner, b, n) == PersonalSearch(other, owner, b, n)
  {
    PersonalTierRowsOrderFree(table, other, owner, Banked, b);
    PersonalTierRowsOrderFree(table, other, owner, Current, b);
    PersonalTierRowsOrderFree(table, other, owner, Borrow, b);
  }

  lemma ActualSearchOrderFree(table: seq<ActualPoint>, other: seq<ActualPoint>, b: Boundaries, n: nat)
    requires multiset(table) == multiset(other)
    requires ActualTableWellFormed(table) && ActualTableWellFormed(other)
    ensures ActualSearch(table, b, n) == ActualSearch(other, b, n)
  {
    ActualTierRowsOrderFree(table, other, Banked, b);
    ActualTierRowsOrderFree(table, other, Current, b);
    ActualTierRowsOrderFree(table, other, Borrow, b);
  }
}
