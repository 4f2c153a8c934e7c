/**
 * The record shapes of the point ledger and of trips, the audit-record constructor `EventLogger`, and
 * the pre-load hook `OwnerEmailSchema.process_owner` with the JSON values it works on.
 */
module Models {
  import opened Wrappers
  import opened Calendar

  /** A unit of an owner's own currency; (use_year, point_number, owner_id) is its primary key. */
  datatype PersonalPoint = PersonalPoint(id: int, useYear: Date, pointNumber: int, ownerId: int, tripId: Option<int>)

  /** A unit of the pooled currency; (use_year, point_number) is its primary key. */
  datatype ActualPoint = ActualPoint(id: int, useYear: Date, pointNumber: int, tripId: Option<int>, bankedDate: Option<Date>)

  /**
   * A trip row. The trip search fills one from the request without ever storing it, so the date
   * columns hold the request's text as assigned, and `id` stays unset.
   */
  datatype Trip = Trip(
    id: Option<int>,
    checkInDate: string,
    checkOutDate: string,
    notes: string,
    bookableRoomId: int,
    ownerId: int,
    bookedDate: string,
    pointsNeeded: int)

  /** The personal_point table's constraints: `id` is unique and so is the primary key. */
  predicate PersonalTableWellFormed(t: seq<PersonalPoint>) {
    && (forall i, j :: 0 <= i < j < |t| ==> t[i].id != t[j].id)
    && (forall i, j :: 0 <= i < j < |t| ==>
          (t[i].useYear, t[i].pointNumber, t[i].ownerId) != (t[j].useYear, t[j].pointNumber, t[j].ownerId))
  }

  /** The actual_point table's constraints: `id` is unique and so is the primary key. */
  predicate ActualTableWellFormed(t: seq<ActualPoint>) {
    && (forall i, j :: 0 <= i < j < |t| ==> t[i].id != t[j].id)
    && (forall i, j :: 0 <= i < j < |t| ==> (t[i].useYear, t[i].pointNumber) != (t[j].useYear, t[j].pointNumber))
  }

  /**
   * An audit record as the ORM object holds it before it is stored: every column is unset (`None`)
   * until assigned, and `timestamp` is left to the database's server default.
   */
  class EventLog {
    var id: Option<int>
    var timestamp: Option<Date>
    var googleId: Option<string>
    var description: Option<string>

    constructor ()
      ensures id.None? && timestamp.None? && googleId.None? && description.None?
    {
      id, timestamp, googleId, description := None, None, None, None;
    }
  }

  /** `EventLogger(google_id, description)`: a fresh audit record naming the actor and the event. */
  method EventLogger(googleId: string, description: string) returns (e: EventLog)
    ensures fresh(e)
    ensures e.googleId == Some(googleId) && e.description == Some(description)
    ensures e.id.None? && e.timestamp.None?
  {
    e := new EventLog();
    e.googleId := Some(googleId);
    e.description := Some(description);
  }

  /** A JSON value as a request body decodes into Python (numbers other than integers left out). */
  datatype Value =
    | Null
    | Bool(b: bool)
    | Int(i: int)
    | Str(s: string)
    | List(items: seq<Value>)
    | Object(fields: map<string, Value>)

  /** Python truthiness: `None`, `False`, `0` and empty strings, lists and dicts are false. */
  predicate Truthy(v: Value) {
    match v
    case Null => false
    case Bool(b) => b
    case Int(i) => i != 0
    case Str(s) => s != ""
    case List(items) => items != []
    case Object(fields) => fields != map[]
  }

  /** `m.get(k)`. */
  function Get(m: map<string, Value>, k: string): (r: Option<Value>)
    ensures r.Some? <==> k in m
    ensures r.Some? ==> r.value == m[k]
  {
    if k in m then Some(m[k]) else None
  }

  /**
   * What `process_owner` stores under 'owner': a dict holding only the name when an owner was given
   * (the nested dict's 'name', or the value itself when it is not a dict), an empty dict otherwise.
   */
  function NormalizedOwner(owner: Option<Value>): (v: Value)
    ensures v.Object? && v.fields.Keys <= {"name"}
    ensures v.fields == map[] <==> (owner.None? || !Truthy(owner.value))
    ensures owner.Some? && Truthy(owner.value) && !owner.value.Object? ==> v.fields["name"] == owner.value
    ensures owner.Some? && Truthy(owner.value) && owner.value.Object? ==>
              v.fields["name"] == (if "name" in owner.value.fields then owner.value.fields["name"] else Null)
  {
    if owner.Some? && Truthy(owner.value) then
      var name := if owner.value.Object? then Get(owner.value.fields, "name").GetOr(Null) else owner.value;
      var fields := map["name" := name];
      assert "name" in fields;
      Object(fields)
    else
      Object(map[])
  }

  /** The whole effect of `process_owner` on the dict it is given. */
  function ProcessedEntries(m: map<string, Value>): (r: map<string, Value>)
    ensures r.Keys == m.Keys + {"owner"}
    ensures r["owner"] == NormalizedOwner(Get(m, "owner"))
    ensures forall k :: k in m && k != "owner" ==> r[k] == m[k]
  {
    m["owner" := NormalizedOwner(Get(m, "owner"))]
  }

  /** Normalising an already normalised owner changes nothing, so running the hook twice is running it once. */
  lemma ProcessedEntriesIdempotent(m: map<string, Value>)
    ensures ProcessedEntries(ProcessedEntries(m)) == ProcessedEntries(m)
  {
    var o := NormalizedOwner(Get(m, "owner"));
    assert Get(ProcessedEntries(m), "owner") == Some(o);
    if o.fields != map[] {
      assert o.fields.Keys == {"name"};
      assert NormalizedOwner(Some(o)) == o;
    }
  }

  /** A mutable Python dict with string keys. */
  class Dict {
    var entries: map<string, Value>

    constructor (entries: map<string, Value>)
      ensures this.entries == entries
    {
      this.entries := entries;
    }
  }

  /** `OwnerEmailSchema.process_owner(data)`: rewrites `data['owner']` in place and returns the same dict. */
  method ProcessOwner(data: Dict) returns (r: Dict)
    modifies data
    ensures r == data
    ensures data.entries == ProcessedEntries(old(data.entries))
  {
    var owner := Get(data.entries, "owner");
    var ownerDict: Value;
    if owner.Some? && Truthy(owner.value) {
      var ownerName: Value;
      if owner.value.Object? {
        ownerName := Get(owner.value.fields, "name").GetOr(Null);
      } else {
        ownerName := owner.value;
      }
      ownerDict := Object(map["name" := ownerName]);
    } else {
      ownerDict := Object(map[]);
    }
    data.entries := data.entries["owner" := ownerDict];
    r := data;
  }
}
