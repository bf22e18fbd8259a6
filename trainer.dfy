/** `App\Models\Trainer`: the active-trainer list, the trainer search, the
    insert with its default status, the dashboard counts and the e-mail
    uniqueness check, which looks at trainers only. */
module TrainerModel {
  import opened Options
  import opened Strings
  import opened Dates
  import opened Tables
  import opened Sorting
  import opened Requests

  // ---------------------------------------------------------------------
  // getActive

  function ByFirstThenLast(): (TrainerRow, TrainerRow) -> bool {
    ByKeys((t: TrainerRow) => t.firstName, (t: TrainerRow) => t.lastName)
  }

  /** `Trainer::getActive()`: exactly the `Active` trainers, each once, by
      first name then last name. */
  function GetActive(rows: seq<TrainerRow>): (r: seq<TrainerRow>)
    ensures Sorted(r, ByFirstThenLast())
    ensures multiset(r) == multiset(Filter(rows, (t: TrainerRow) => t.status == "Active"))
    ensures forall t :: t in r <==> t in rows && t.status == "Active"
  {
    ByKeysTotal((t: TrainerRow) => t.firstName, (t: TrainerRow) => t.lastName);
    var hits := Filter(rows, (t: TrainerRow) => t.status == "Active");
    var r := SortBy(hits, ByFirstThenLast());
    assert forall t :: t in r <==> t in multiset(hits);
    r
  }

  // ---------------------------------------------------------------------
  // search

  /** One `AND ...` fragment `search` appends. */
  datatype Condition =
    | NameLike(name: string)
    | SpecializationLike(text: string)
    | StatusIs(status: string)

  function SearchConditions(params: Params): seq<Condition> {
    var c0 := [];
    var c1 := if !FieldEmpty(params, "name") then c0 + [NameLike(params["name"])] else c0;
    var c2 := if !FieldEmpty(params, "specialization") then c1 + [SpecializationLike(params["specialization"])] else c1;
    var c3 := if !FieldEmpty(params, "status") then c2 + [StatusIs(params["status"])] else c2;
    c3
  }

  /** A NULL specialization matches no `LIKE`. */
  predicate Holds(c: Condition, t: TrainerRow) {
    match c
    case NameLike(q) => Contains(t.firstName, q) || Contains(t.lastName, q)
    case SpecializationLike(q) => t.specialization.Some? && Contains(t.specialization.value, q)
    case StatusIs(s) => t.status == s
  }

  predicate WhereAll(conds: seq<Condition>, t: TrainerRow) {
    forall k :: 0 <= k < |conds| ==> Holds(conds[k], t)
  }

  /** `Trainer::search($params)`: the matching trainers, newest first. */
  function Search(rows: seq<TrainerRow>, params: Params): (r: seq<TrainerRow>)
    ensures |r| <= |rows|
  {
    Reverse(Filter(rows, (t: TrainerRow) => WhereAll(SearchConditions(params), t)))
  }

  /** AND-combined filters: substring on first or last name, substring on
      the specialization, equality on the status; absent ones constrain nothing. */
  lemma SearchSelects(rows: seq<TrainerRow>, params: Params, t: TrainerRow)
    ensures t in Search(rows, params) <==>
      && t in rows
      && (FieldEmpty(params, "name")
          || Contains(t.firstName, params["name"]) || Contains(t.lastName, params["name"]))
      && (FieldEmpty(params, "specialization")
          || (t.specialization.Some? && Contains(t.specialization.value, params["specialization"])))
      && (FieldEmpty(params, "status") || t.status == params["status"])
  {
    var conds := SearchConditions(params);
    if !FieldEmpty(params, "name") {
      assert conds[0] == NameLike(params["name"]);
    }
    if !FieldEmpty(params, "specialization") {
      var i := if !FieldEmpty(params, "name") then 1 else 0;
      assert conds[i] == SpecializationLike(params["specialization"]);
    }
    if !FieldEmpty(params, "status") {
      assert conds[|conds| - 1] == StatusIs(params["status"]);
    }
  }

  // ---------------------------------------------------------------------
  // create

  /** The row `Trainer::create($data)` inserts, or `None` when the hire date
      is text a DATE column refuses. */
  function NewTrainer(rows: seq<TrainerRow>, data: Params): Option<TrainerRow> {
    var hire := DateColumn(OrNull(data, "hire_date"));
    if hire.BadDate? then None
    else Some(TrainerRow(
      NextId(TrainerIds(rows)),
      Field(data, "first_name"), Field(data, "last_name"), Field(data, "email"), Field(data, "phone"),
      OrNull(data, "specialization"), OrNull(data, "experience_years"), OrNull(data, "certification"),
      DateValue(hire),
      OrDefault(data, "status", "Active")))
  }

  /** `Trainer::create($data)`: appends the new row and reports success,
      unless the database refuses the row. */
  method Create(db: Database, data: Params, refused: bool) returns (ok: bool)
    modifies db
    ensures ok <==> !refused && NewTrainer(old(db.trainers), data).Some?
    ensures ok ==> db.trainers == old(db.trainers) + [NewTrainer(old(db.trainers), data).value]
    ensures !ok ==> db.trainers == old(db.trainers)
    ensures db.members == old(db.members) && db.plans == old(db.plans)
  {
    var row := NewTrainer(db.trainers, data);
    if refused || row.None? {
      return false;
    }
    db.trainers := db.trainers + [row.value];
    ok := true;
  }

  /** A new trainer is `Active` unless a status is given, and gets an unused id. */
  lemma CreateDefaults(rows: seq<TrainerRow>, data: Params)
    requires NewTrainer(rows, data).Some?
    ensures var t := NewTrainer(rows, data).value;
      && ("status" !in data ==> t.status == "Active")
      && ("status" in data ==> t.status == data["status"])
      && ("specialization" !in data ==> t.specialization.None?)
      && forall k :: 0 <= k < |rows| ==> rows[k].id != t.id
  {
    var ids := TrainerIds(rows);
    assert forall k :: 0 <= k < |rows| ==> ids[k] == rows[k].id;
  }

  // ---------------------------------------------------------------------
  // getStats

  datatype Stats = Stats(total: nat, active: nat, inactive: nat)

  /** A row whose stored status is `status`. */
  function WithStatus(status: string): TrainerRow -> bool {
    (t: TrainerRow) => t.status == status
  }

  /** `Trainer::getStats()`: the table size and the trainers stored as
      `Active` and as `Inactive`; the two never exceed the total (a trainer
      may be neither). */
  function GetStats(rows: seq<TrainerRow>): (s: Stats)
    ensures s.total == |rows|
    ensures s.active == |Filter(rows, WithStatus("Active"))|
    ensures s.inactive == |Filter(rows, WithStatus("Inactive"))|
    ensures s.active + s.inactive <= s.total
  {
    CountDisjoint(rows, WithStatus("Active"), WithStatus("Inactive"));
    Stats(|rows|, CountWhere(rows, WithStatus("Active")), CountWhere(rows, WithStatus("Inactive")))
  }

  // ---------------------------------------------------------------------
  // validateEmail

  /** `Trainer::validateEmail($email, $excludeId)`: free when no trainer has
      the e-mail, ignoring the row `excludeId` when it is truthy. */
  predicate ValidateEmail(rows: seq<TrainerRow>, email: string, excludeId: Option<int>) {
    var skip := if excludeId.Some? && excludeId.value != 0 then excludeId else None;
    !TrainerEmailTaken(rows, email, skip)
  }

  /** The check reads the trainers table only: an address in use by a member
      does not block a trainer, and an address in use by another trainer does. */
  lemma ValidateEmailTrainersOnly(rows: seq<TrainerRow>, email: string, excludeId: Option<int>, other: TrainerRow)
    requires other.email == email
    requires excludeId.None? || excludeId.value == 0 || other.id != excludeId.value
    ensures ValidateEmail(rows, email, excludeId) <==>
      forall k :: 0 <= k < |rows| && rows[k].email == email ==>
        excludeId.Some? && excludeId.value != 0 && rows[k].id == excludeId.value
    ensures !ValidateEmail(rows + [other], email, excludeId)
  {
    assert (rows + [other])[|rows|] == other;
  }
}
