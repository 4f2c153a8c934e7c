# Trip point allocation (DVC owner points manager)

This project is a Dafny model of how the points manager decides whether a new trip can be booked.
`TripListResource.post` handles a trip-creation request. It validates the request and looks up the
owner and the bookable room. From the check-in date it derives the use-year boundaries. Then it
searches two pools of point units, personal and actual. Each pool is searched in three priority tiers
(banked, current, borrow), and each tier is a query ordered by `(use_year, point_number)` and limited
to what is still needed. A request ends in one of these outcomes:

- a validation message;
- a personal shortage;
- an actual shortage, where the actual pool is searched again for the full requirement;
- success, where the located unit ids are known but nothing is written.

The model also covers the request-body hook `OwnerEmailSchema.process_owner`, the audit-record
factory `EventLogger`, and the record shapes of `PersonalPoint`, `ActualPoint` and `Trip`.

Modules, one per concern:

- `Wrappers`: the `Option` type.
- `Calendar`: days as (year, month, day), leap years, and `relativedelta(years=k)` with the clamp of
  29 February and the year range of `datetime`.
- `IsoText`: `strptime`/`strftime` for `%Y-%m-%d`, `split('T')[0]`, Python's `str` order, and the
  decimal text of a number.
- `Models`: point, trip and audit records, the JSON value of a request body, and `process_owner` as a
  method that rewrites a mutable dict.
- `Ordering`: `ORDER BY use_year, point_number` and `LIMIT n`.
- `Tiers`: the reference days and the six tier queries.
- `TripAllocation`: the handler as the method `Post`, proved equal to the function `PostOutcome`, and
  the lemmas about that function.

The handler's search is imperative. `Collect` is the loop that appends the located ids and counts
them. `RunTier` runs one tier query with `LIMIT` set to what is still needed. `Search` runs three tiers
and skips later tiers once nothing is needed. `LocatePersonal` and `LocateActual` hand `Search` the
three tier queries of each pool.

Consequences of the code as written:

- The personal current and borrow windows have strict lower bounds (`use_year > previous`,
  `use_year > current`). A personal unit whose use year is exactly `previous` or `current` is therefore
  never located; half-open windows (`>=`) would include it (`Tiers.PersonalWindowGaps`). For actual
  units only a use year of exactly `current`, or `previous_two` and earlier, is excluded this way
  (`Tiers.ActualWindowGaps`); an unbanked actual unit of use year `previous` is located by the current tier.
- The actual current tier's lower bound is `previous_two_use_year`. It therefore overlaps the banked
  window, and the two are told apart only by `banked_date` (`Tiers.ActualCurrentTakesPrevious`).
- No unit's `trip_id` is ever set, and the trip is never stored. Units are still never counted twice,
  because the tier windows are disjoint (`Tiers.PersonalTiersShareNoId`, `Tiers.ActualTiersShareNoId`).
- Check-in and check-out are compared as the raw request strings (Python `>=` on `str`). This agrees
  with the date order only when the date parts differ (`TripAllocation.DateOrderRejection`).
- The schema leaves `notes` optional and accepts `points_needed` as a numeral string, but the handler
  reads `request_dict['notes']` and compares the raw `points_needed` with 0. A request without notes
  raises `KeyError`, and one with points as text raises `TypeError` (`TripAllocation.UncheckedFieldsRaise`).

## Model

| member | source | states |
|---|---|---|
| TripAllocation.Post | views_trips.py:29-218 | The handler's answer is `PostOutcome`: checks in source order, including the `KeyError` on missing notes and the `TypeError` on points given as text, then the personal search, then the actual search only if personal points suffice |
| TripAllocation.PostOutcome | views_trips.py:29-218 | The answer to one request: the refusals and exceptions in the handler's order, then the personal search and, only if it succeeds, the actual search from the full requirement |
| TripAllocation.SchemaAccepts | models.py:230-234 | The `TripSchema` validators the handler relies on: `points_needed` at least 1 and notes at most 4095 characters; `SchemaRejection` and `PointsGuardUnreachable` show a request failing them gets the schema's errors before any lookup |
| TripAllocation.SchemaRejection | models.py:230-234 | A request is answered with the schema's errors exactly when it asks for fewer than 1 point or carries notes longer than 4095 characters |
| TripAllocation.DraftTrip | views_trips.py:39-61 | The unsaved `Trip` built from the request, with owner and room ids from the lookups; `LocatedOutcome` shows a success answers with it, id unset and `points_needed` and owner as requested |
| TripAllocation.UncheckedFieldsRaise | views_trips.py:59-63 | Past the date-order check, a request without notes raises `KeyError` and one whose points came as text raises `TypeError`, and only those |
| TripAllocation.MessageIdentifiesOutcome | views_trips.py:29-218 | Two answers of the handler with the same message are the same answer |
| TripAllocation.AnswersCarryHandlerMessages | views_trips.py:29-218 | Every message the handler answers with is one of its four reachable fixed texts or a shortage message |
| TripAllocation.MessageIdentifies | views_trips.py:32-208 | Among the fixed texts and the shortage messages, the message determines the outcome and its shortfall |
| TripAllocation.ShortageMessage | views_trips.py:139 | The shortage message is the pool's name, " points shortage of ", a number that reads back as the shortfall, and " points" |
| TripAllocation.RunTier | views_trips.py:83-91 | One tier query run with LIMIT set to what is still needed returns the first rows of its tier, and their ids are appended and counted |
| TripAllocation.Collect | views_trips.py:89-91 | The loop over a query result appends exactly the result's ids in order and adds its length to the count |
| TripAllocation.Search | views_trips.py:78-131 | Running the three tier queries with the requirement reduced after each tier, and skipping later tiers once nothing is needed, equals `Greedy` over the tiers' sorted rows |
| TripAllocation.Greedy | views_trips.py:78-131 | The greedy search as a value: each tier's first rows up to what is still needed, the counts and the remainder |
| TripAllocation.LocatePersonal | views_trips.py:72-131 | The personal half runs the owner's banked, current and borrow tier queries and is the greedy search over those tiers |
| TripAllocation.LocateActual | views_trips.py:143-200 | The actual half restarts from the full requirement, runs the actual tier queries and is the greedy search over the actual tiers |
| TripAllocation.PersonalSearch | views_trips.py:72-131 | The personal half as a value: `Greedy` over the owner's banked, current and borrow tier rows from the full requirement; `LocatePersonal` is proved equal to it, and `PersonalSearchDraws`, `PersonalSearchNoDuplicates` and `PersonalSearchOrderFree` say what it locates |
| TripAllocation.ActualSearch | views_trips.py:143-200 | The actual half as a value: `Greedy` over the actual banked, current and borrow tier rows, restarting from the full requirement; `LocateActual` is proved equal to it, and `ActualSearchDraws`, `ActualSearchNoDuplicates` and `ActualSearchOrderFree` say what it locates |
| TripAllocation.GreedyAccounting | views_trips.py:88-131 | Each tier takes what it has up to what is still needed; a later tier is used only when the earlier ones are exhausted; the remainder is exactly the requirement minus what all tiers hold; the located ids are the first rows of each tier |
| TripAllocation.GreedyLocatesDistinctIds | views_trips.py:88-131 | If each tier has distinct ids and no two tiers share one, no id is located twice |
| TripAllocation.GreedyDrawsFromTiers | views_trips.py:88-131 | Every located id is the id of a row of one of the three tiers |
| TripAllocation.ShortageMessageNamesShortfall | views_trips.py:139 | Different shortfalls give different shortage messages (the message names its number) |
| TripAllocation.RejectionsPrecedeSearch | views_trips.py:29-64 | A request refused by a check before the search gets the same answer whatever the point tables hold, and it is never a shortage or a success |
| TripAllocation.PointsGuardUnreachable | views_trips.py:62-64 | The schema's minimum of 1 (models.py line 234) runs first, so the `points_needed < 0` message is never the answer and a requirement of 0 or less is a schema error |
| TripAllocation.DateOrderRejection | views_trips.py:56-58 | When both values start with dates that differ, the request is refused for date order exactly when check-out is not after check-in |
| TripAllocation.SearchOutcomeCases | views_trips.py:72-218 | The search alone: personal shortage exactly when the personal tiers hold fewer than needed; actual shortage exactly when personal suffices and actual does not; each shortfall is the difference; otherwise both pools locate exactly the requirement for the trip |
| TripAllocation.PersonalShortageOutcome | views_trips.py:133-140 | For an admitted request: personal shortage exactly when the owner's three tiers hold fewer units than needed, and the shortfall is the difference |
| TripAllocation.PersonalShortageIgnoresActual | views_trips.py:134-144 | A personal shortage is answered before the actual table is read: any actual table gives the same answer |
| TripAllocation.ActualShortageOutcome | views_trips.py:202-209 | For an admitted request: actual shortage exactly when personal tiers suffice and the actual tiers hold fewer than the full requirement, and the shortfall is the difference |
| TripAllocation.LocatedOutcome | views_trips.py:211-218 | Success exactly when the request is admitted and both pools cover the requirement; each pool then locates exactly the requirement and the trip has no id |
| TripAllocation.LocatedIdsDistinct | views_trips.py:72-200 | On tables that keep their uniqueness constraints, neither pool locates a unit twice |
| TripAllocation.PersonalSearchNoDuplicates | views_trips.py:72-131 | On a well-formed table with chronological boundaries the personal search never locates an id twice |
| TripAllocation.ActualSearchNoDuplicates | views_trips.py:143-200 | On a well-formed table with chronological boundaries the actual search never locates an id twice |
| TripAllocation.PersonalSearchDraws | views_trips.py:80-131 | Every id the personal search locates is that of an owner's unit inside a personal tier |
| TripAllocation.ActualSearchDraws | views_trips.py:149-200 | Every id the actual search locates is that of a unit inside an actual tier |
| TripAllocation.LocatedPersonalUnits | views_trips.py:80-131 | Every personal id located is a unit of the trip owner, on no trip, inside a personal tier |
| TripAllocation.LocatedActualUnits | views_trips.py:149-200 | Every actual id located is a unit on no trip inside an actual tier |
| TripAllocation.StorageOrderIrrelevant | views_trips.py:83 | On well-formed tables the outcome, down to the order of the located ids, does not depend on the order the units are stored in |
| TripAllocation.SearchOrderFree | views_trips.py:72-218 | On well-formed tables the search outcome is the same for any storage order of the same units |
| TripAllocation.SearchOutcomeBySearches | views_trips.py:133-218 | The search outcome reads the point tables only through the two pools' searches |
| TripAllocation.SearchOutcome | views_trips.py:72-218 | The search tail of the handler ends in a personal shortage, an actual shortage or a success and nothing else; `SearchOutcomeCases` gives the condition and shortfall of each |
| TripAllocation.PersonalSearchOrderFree | views_trips.py:72-131 | The personal search gives the same result on any storage order of the same well-formed table |
| TripAllocation.ActualSearchOrderFree | views_trips.py:143-200 | The actual search gives the same result on any storage order of the same well-formed table |
| Tiers.DeriveBoundaries | views_trips.py:66-70 | Boundaries exist exactly when check-in and booked date parse and the shifted years stay inside 1..9999; they are the parsed days, chronological, at year offsets -1, +1 and -2 |
| Tiers.Candidates | views_trips.py:82 | The WHERE clause keeps exactly the rows of units it admits |
| Tiers.CandidatesPermutation | views_trips.py:82 | Which rows the WHERE clause keeps depends only on which units the table holds |
| Tiers.PersonalTierRows | views_trips.py:80-124 | A personal tier's rows are ascending and are exactly the rows of the owner's unallocated units in the tier's window |
| Tiers.ActualTierRows | views_trips.py:149-194 | An actual tier's rows are ascending and are exactly the rows of unallocated units in the tier's window and bank state |
| Tiers.InPersonalTier | views_trips.py:82-124 | The personal WHERE clauses: the owner's units on no trip, with use year strictly inside the tier's window |
| Tiers.InActualTier | views_trips.py:151-190 | The actual WHERE clauses: units on no trip, use year strictly inside the window, and the `banked_date` test of the banked and current tiers, NULL failing both |
| Tiers.PersonalQuery | views_trips.py:80-88 | A personal tier query with LIMIT returns the first rows of the ordered tier, as many as it has up to the limit, ascending, each from an admitted unit |
| Tiers.ActualQuery | views_trips.py:149-160 | An actual tier query with LIMIT returns the first rows of the ordered tier, as many as it has up to the limit, ascending, each from an admitted unit |
| Tiers.PersonalTiersDisjoint | views_trips.py:82-119 | No personal unit is in two personal tiers |
| Tiers.ActualTiersDisjoint | views_trips.py:151-190 | No actual unit is in two actual tiers, although the banked and current windows overlap |
| Tiers.PersonalWindowGaps | views_trips.py:100-119 | A personal unit with use year exactly `previous` or `current`, or `next` or later, is in no tier |
| Tiers.ActualWindowGaps | views_trips.py:151-190 | An actual unit with use year exactly `current`, `previous_two` or earlier, or `next` or later, is in no tier |
| Tiers.ActualCurrentTakesPrevious | views_trips.py:171-172 | The actual current tier accepts an unbanked unit of use year `previous`, which no personal current tier accepts |
| Tiers.BankedOnBookingDayOnlyBorrowed | views_trips.py:153-172 | A unit banked on the booking day itself fails both `banked_date` tests (at day granularity) |
| Tiers.PersonalTierRowsDistinct | views_trips.py:80-124 | In a well-formed table a personal tier's rows are strictly ascending with distinct ids |
| Tiers.ActualTierRowsDistinct | views_trips.py:149-194 | In a well-formed table an actual tier's rows are strictly ascending with distinct ids |
| Tiers.PersonalTiersShareNoId | views_trips.py:80-124 | Two different personal tiers share no id |
| Tiers.ActualTiersShareNoId | views_trips.py:149-194 | Two different actual tiers share no id |
| Tiers.PersonalTierRowsOrderFree | views_trips.py:83 | Same units in any storage order give the same personal tier rows |
| Tiers.ActualTierRowsOrderFree | views_trips.py:154 | Same units in any storage order give the same actual tier rows |
| Ordering.Sort | views_trips.py:83 | ORDER BY returns a permutation of its input in ascending key order |
| Ordering.Take | views_trips.py:84 | LIMIT n returns the first n rows, or all when fewer |
| Ordering.SortDeterministic | views_trips.py:83 | With distinct keys the sorted result depends only on which rows there are |
| Ordering.TakeSmallest | views_trips.py:83-84 | No row left out by ORDER BY and LIMIT sorts before a row taken |
| Calendar.ShiftYears | views_trips.py:67-69 | `relativedelta(years=k)` succeeds exactly inside years 1..9999, keeps the month, and never moves the day later |
| Calendar.ShiftKeepsDayUnlessLeapDay | views_trips.py:67-69 | The shift keeps the day except 29 February into a common year, which becomes 28 February |
| Calendar.ShiftStrictlyIncreasing | views_trips.py:67-69 | A larger shift gives a strictly later day |
| Calendar.ShiftRoundTrip | views_trips.py:67-69 | Except for 29 February, shifting back undoes a shift |
| IsoText.StrLess | views_trips.py:56 | Python's `<` on `str`: lexicographic by code point, a proper prefix first |
| IsoText.StrLessTrichotomy | views_trips.py:56 | The `str` order is strict and total: exactly one of `a < b`, `a == b`, `b < a` holds |
| IsoText.FormatDate | views_trips.py:84 | `strftime('%Y-%m-%d')` for years 1000..9999 gives ten characters |
| IsoText.ParseDate | views_trips.py:66 | `strptime(..., '%Y-%m-%d')` yields only valid days |
| IsoText.ParseFormatRoundTrip | views_trips.py:66 | Parsing a formatted day gives the day back |
| IsoText.FormatParseRoundTrip | views_trips.py:84 | Formatting a parsed day gives the text back |
| IsoText.DatePart | views_trips.py:66 | `split('T')[0]` is the longest prefix without a 'T' |
| IsoText.FormattedDateOrder | views_trips.py:56 | Python string order on formatted days, whatever follows them, is the calendar order |
| IsoText.DateOrderDecidesComparison | views_trips.py:56 | When the date parts of two strings parse to different days, the string comparison is the calendar order |
| IsoText.DecimalReadsBack | views_trips.py:139 | The `%s` text of a shortfall reads back as the same number |
| Models.EventLogger | models.py:31-35 | A fresh audit record carrying the actor and the description, with id and timestamp unset |
| Models.PersonalTableWellFormed | models.py:123-127 | The `personal_point` constraints: `id` unique and (`use_year`, `point_number`, `owner_id`) a primary key; on such tables `PersonalTierRowsDistinct` and `LocatedIdsDistinct` show no unit is located twice |
| Models.ActualTableWellFormed | models.py:108-111 | The `actual_point` constraints: `id` unique and (`use_year`, `point_number`) a primary key; on such tables `ActualTierRowsDistinct` and `LocatedIdsDistinct` show no unit is located twice |
| Models.Truthy | models.py:175 | `if owner:` is Python truthiness: `None`, `False`, `0` and empty strings, lists and dicts are false |
| Models.NormalizedOwner | models.py:174-182 | The owner becomes a dict holding only 'name': the nested name, or the value itself if not a dict; empty exactly when the owner is missing or falsy |
| Models.ProcessedEntries | models.py:172-184 | The hook sets 'owner' to the normalized owner of its old value; every other key keeps its value |
| Models.ProcessedEntriesIdempotent | models.py:172-184 | Running the hook twice is the same as running it once |
| Models.ProcessOwner | models.py:172-184 | Rewrites the given dict in place to `ProcessedEntries` of its old entries and returns the same dict |

## Left out

- SQL text and `db.engine.execute`: each tier query is modelled as filter, sort and limit over a sequence of rows. The interpolation of dates and numbers into the SQL string is not modelled. In particular a `points_needed` above MySQL's largest `LIMIT` (2^64 - 1) passes the schema and makes the query fail in the source, while the model answers with a personal shortage.
- Time of day: `use_year`, `banked_date` and the derived days are compared as calendar days. Values with a non-midnight time are not modelled.
- IsoText.FormatDate: always writes four year digits; `strftime('%Y')` on glibc does not zero-pad years below 1000, so the model's text differs for those years (reachable only through a boundary day below year 1000, and only in the SQL text, which is not modelled).
- `strptime`'s lenient forms, such as one-digit months or days: they parse in Python but are a date error in the model.
- Unhandled exceptions (`KeyError`, `TypeError`, and `ValueError` from `strptime` or the year shift) end the request with a server error in the source. The model gives each as the outcome `Raised`.
- Schema validation other than `points_needed >= 1` and the 4095-character limit on notes (models.py lines 230-234): required fields, the DateTime format and nested shapes. A schema error carries no error dict.
- The owner and bookable-room lookups are maps keyed by owner name and by (resort name, room type name). The ORM queries are not modelled.
- `@jwt_required`, HTTP status codes and JSON rendering: the outcome kind stands for the status and body.
- `print` calls on the shortage and success paths. On success the source returns `None`; the model returns the located ids and counts.
- Transactions and concurrent requests: the two point tables are read as fixed values.
- `EventLog` storage: the server default of `timestamp`, the id assignment and session commit are not modelled.
- `points_needed` sent as anything other than an integer or a numeral string (a float, a boolean), and the other fields sent with JSON types the schema converts.
- The `__init__` and `__repr__` methods of the records, the other resources and schemas, and the application wiring are not part of this model.
- TripAllocation.LocatedIdsDistinct: holds only for tables that keep their id and primary-key uniqueness constraints.
- TripAllocation.StorageOrderIrrelevant: holds only for tables that keep their id and primary-key uniqueness constraints.
