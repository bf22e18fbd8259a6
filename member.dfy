/** `App\Models\Member`: the member search behind the members list, the
    insert with its defaults, the renewal reminder query, the dashboard
    counts and the e-mail uniqueness check. */
module MemberModel {
  import opened Options
  import opened Strings
  import opened Dates
  import opened Tables
  import opened Sorting
  import opened Requests
  import Helpers

  // ---------------------------------------------------------------------
  // search

  /** One `AND ...` fragment `search` appends to its query. */
  datatype Condition =
    | NameLike(name: string)
    | TypeIs(membershipType: string)
    | StatusIs(status: string)
    | ExpiryUpTo(date: string)

  /** The fragments, appended in the order of the source; a PHP-empty
      parameter appends nothing. */
  function SearchConditions(params: Params): seq<Condition> {
    var c0 := [];
    var c1 := if !FieldEmpty(params, "name") then c0 + [NameLike(params["name"])] else c0;
    var c2 := if !FieldEmpty(params, "membership_type") then c1 + [TypeIs(params["membership_type"])] else c1;
    var c3 := if !FieldEmpty(params, "status") then c2 + [StatusIs(params["status"])] else c2;
    var c4 := if !FieldEmpty(params, "expiry_date") then c3 + [ExpiryUpTo(params["expiry_date"])] else c3;
    c4
  }

  /** One fragment on one row. `LIKE '%x%'` is a substring test; a NULL
      expiry satisfies no comparison; the expiry bound compares `Y-m-d` texts. */
  predicate Holds(c: Condition, m: MemberRow) {
    match c
    case NameLike(q) => Contains(m.firstName, q) || Contains(m.lastName, q)
    case TypeIs(t) => m.membershipType == t
    case StatusIs(s) => m.status == s
    case ExpiryUpTo(d) => m.expiryDate.Some? && LessEq(Format(m.expiryDate.value), d)
  }

  /** `WHERE 1=1 AND ...`. */
  predicate WhereAll(conds: seq<Condition>, m: MemberRow) {
    forall k :: 0 <= k < |conds| ==> Holds(conds[k], m)
  }

  /** `Member::search($params)`: the matching members, newest first. */
  function Search(rows: seq<MemberRow>, params: Params): (r: seq<MemberRow>)
    ensures |r| <= |rows|
  {
    Reverse(Filter(rows, (m: MemberRow) => WhereAll(SearchConditions(params), m)))
  }

  /** The filters are AND-combined; the name filter is a substring of the
      first or the last name; an absent filter constrains nothing. */
  lemma SearchSelects(rows: seq<MemberRow>, params: Params, m: MemberRow)
    ensures m in Search(rows, params) <==>
      && m in rows
      && (FieldEmpty(params, "name")
          || Contains(m.firstName, params["name"]) || Contains(m.lastName, params["name"]))
      && (FieldEmpty(params, "membership_type") || m.membershipType == params["membership_type"])
      && (FieldEmpty(params, "status") || m.status == params["status"])
      && (FieldEmpty(params, "expiry_date")
          || (m.expiryDate.Some? && LessEq(Format(m.expiryDate.value), params["expiry_date"])))
  {
    SearchMembership(rows, params, m);
    PassesAll(params, m);
    assert Passes(params, "name", m) <==> (FieldEmpty(params, "name")
      || Contains(m.firstName, params["name"]) || Contains(m.lastName, params["name"]));
    assert Passes(params, "membership_type", m) <==> (FieldEmpty(params, "membership_type")
      || m.membershipType == params["membership_type"]);
    assert Passes(params, "status", m) <==> FieldEmpty(params, "status") || m.status == params["status"];
    assert Passes(params, "expiry_date", m) <==> (FieldEmpty(params, "expiry_date")
      || (m.expiryDate.Some? && LessEq(Format(m.expiryDate.value), params["expiry_date"])));
  }

  /** The fragments hold for a row exactly when it passes each filter. */
  lemma PassesAll(params: Params, m: MemberRow)
    ensures WhereAll(SearchConditions(params), m) <==>
      Passes(params, "name", m) && Passes(params, "membership_type", m)
      && Passes(params, "status", m) && Passes(params, "expiry_date", m)
  {
    var c1 := FilterStep([], params, "name", m);
    var c2 := FilterStep(c1, params, "membership_type", m);
    var c3 := FilterStep(c2, params, "status", m);
    var c4 := FilterStep(c3, params, "expiry_date", m);
    assert SearchConditions(params) == c4;
  }

  /** The fragment one parameter appends. */
  function Fragment(key: string, value: string): Condition {
    if key == "name" then NameLike(value)
    else if key == "membership_type" then TypeIs(value)
    else if key == "status" then StatusIs(value)
    else ExpiryUpTo(value)
  }

  /** The row passes the filter of one parameter, or that parameter is PHP-empty. */
  predicate Passes(params: Params, key: string, m: MemberRow) {
    FieldEmpty(params, key) || Holds(Fragment(key, params[key]), m)
  }

  /** A given parameter narrows the selection by its fragment; a PHP-empty
      one leaves it as it was. */
  lemma FilterStep(conds: seq<Condition>, params: Params, key: string, m: MemberRow) returns (next: seq<Condition>)
    ensures next == if FieldEmpty(params, key) then conds else conds + [Fragment(key, params[key])]
    ensures WhereAll(next, m) <==> WhereAll(conds, m) && Passes(params, key, m)
  {
    if FieldEmpty(params, key) {
      next := conds;
    } else {
      next := conds + [Fragment(key, params[key])];
      assert next[|conds|] == Fragment(key, params[key]);
      assert forall k :: 0 <= k < |conds| ==> next[k] == conds[k];
    }
  }

  /** A member is listed exactly when it is a row every fragment holds for. */
  lemma SearchMembership(rows: seq<MemberRow>, params: Params, m: MemberRow)
    ensures m in Search(rows, params) <==> m in rows && WhereAll(SearchConditions(params), m)
  {
  }

  /** With no filter the search lists every member, newest first. */
  lemma SearchUnfiltered(rows: seq<MemberRow>, params: Params)
    requires FieldEmpty(params, "name") && FieldEmpty(params, "membership_type")
    requires FieldEmpty(params, "status") && FieldEmpty(params, "expiry_date")
    ensures Search(rows, params) == Reverse(rows)
  {
    FilterAll(rows, (m: MemberRow) => WhereAll(SearchConditions(params), m));
  }

  /** The expiry filter given a `Y-m-d` date means "expires on or before that day". */
  lemma ExpiryFilterIsDateOrder(m: MemberRow, d: CalendarDate)
    ensures Holds(ExpiryUpTo(Format(d)), m) <==>
      m.expiryDate.Some? && DayNumber(m.expiryDate.value) <= DayNumber(d)
  {
    if m.expiryDate.Some? {
      FormatOrder(m.expiryDate.value, d);
      DayNumberOrder(m.expiryDate.value, d);
    }
  }

  // ---------------------------------------------------------------------
  // create

  /** The row `Member::create($data)` inserts, or `None` when a date
      parameter is text a DATE column refuses. */
  function NewMember(rows: seq<MemberRow>, data: Params): Option<MemberRow> {
    var start := DateColumn(NonEmptyOrNull(data, "membership_start_date"));
    var expiry := DateColumn(NonEmptyOrNull(data, "membership_expiry_date"));
    var birth := DateColumn(NonEmptyOrNull(data, "date_of_birth"));
    if start.BadDate? || expiry.BadDate? || birth.BadDate? then None
    else Some(MemberRow(
      NextId(MemberIds(rows)),
      Field(data, "first_name"), Field(data, "last_name"), Field(data, "email"), Field(data, "phone"),
      Field(data, "membership_type"),
      DateValue(start), DateValue(expiry),
      OrDefault(data, "status", "Active"),
      OrNull(data, "address"),
      DateValue(birth),
      OrNull(data, "emergency_contact_name"), OrNull(data, "emergency_contact_phone")))
  }

  /** `Member::create($data)`: appends the new row and reports success, or
      leaves the table alone when the database refuses the row (`refused`
      stands for a constraint the schema enforces, such as a unique e-mail). */
  method Create(db: Database, data: Params, refused: bool) returns (ok: bool)
    modifies db
    ensures var row := NewMember(old(db.members), data);
      ok <==> !refused && row.Some?
    ensures ok ==> db.members == old(db.members) + [NewMember(old(db.members), data).value]
    ensures !ok ==> db.members == old(db.members)
    ensures db.trainers == old(db.trainers) && db.plans == old(db.plans)
  {
    var row := NewMember(db.members, data);
    if refused || row.None? {
      return false;
    }
    db.members := db.members + [row.value];
    ok := true;
  }

  /** A new member is `Active` unless a status is given; empty start,
      expiry and birth dates are stored as NULL; the id is unused so far. */
  lemma CreateDefaults(rows: seq<MemberRow>, data: Params)
    requires NewMember(rows, data).Some?
    ensures var m := NewMember(rows, data).value;
      && ("status" !in data ==> m.status == "Active")
      && ("status" in data ==> m.status == data["status"])
      && (FieldEmpty(data, "membership_start_date") ==> m.startDate.None?)
      && (FieldEmpty(data, "membership_expiry_date") ==> m.expiryDate.None?)
      && (FieldEmpty(data, "date_of_birth") ==> m.birthDate.None?)
      && (!FieldEmpty(data, "membership_expiry_date") ==> m.expiryDate.Some? && Format(m.expiryDate.value) == data["membership_expiry_date"])
      && forall k :: 0 <= k < |rows| ==> rows[k].id != m.id
  {
    var ids := MemberIds(rows);
    assert forall k :: 0 <= k < |rows| ==> ids[k] == rows[k].id;
  }

  // ---------------------------------------------------------------------
  // getExpiringMemberships

  function ByExpiry(): (MemberRow, MemberRow) -> bool {
    ByKey((m: MemberRow) => DateText(m.expiryDate))
  }

  /** `Member::getExpiringMemberships($days)`: active members whose expiry
      is at most `days` days away (there is no lower bound), earliest first. */
  function ExpiringMemberships(rows: seq<MemberRow>, days: int, today: CalendarDate): (r: seq<MemberRow>)
    ensures Sorted(r, ByExpiry())
    ensures forall k :: 0 <= k < |r| ==>
      r[k] in rows && r[k].status == "Active" && r[k].expiryDate.Some?
      && DayNumber(r[k].expiryDate.value) <= DayNumber(today) + days
    ensures multiset(r) == multiset(Filter(rows, Expiring(days, today)))
  {
    ByKeyTotal((m: MemberRow) => DateText(m.expiryDate));
    var hits := Filter(rows, Expiring(days, today));
    var r := SortBy(hits, ByExpiry());
    assert forall k :: 0 <= k < |r| ==> r[k] in multiset(hits);
    r
  }

  function Expiring(days: int, today: CalendarDate): MemberRow -> bool {
    (m: MemberRow) => ExpiresWithin(m, days, today)
  }

  /** `expiry <= DATE_ADD(NOW(), INTERVAL days DAY) AND status = 'Active'`. */
  predicate ExpiresWithin(m: MemberRow, days: int, today: CalendarDate) {
    m.status == "Active" && m.expiryDate.Some? && DayNumber(m.expiryDate.value) <= DayNumber(today) + days
  }

  /** The reminder list is in ascending order of expiry day, and it keeps
      active members whose membership has already lapsed. */
  lemma ExpiringOrderAndLapsed(rows: seq<MemberRow>, days: int, today: CalendarDate)
    ensures var r := ExpiringMemberships(rows, days, today);
      forall i, j :: 0 <= i < j < |r| ==> DayNumber(r[i].expiryDate.value) <= DayNumber(r[j].expiryDate.value)
    ensures days >= 0 ==> forall m ::
      (m in rows && m.status == "Active" && m.expiryDate.Some? && DayNumber(m.expiryDate.value) < DayNumber(today))
      ==> m in ExpiringMemberships(rows, days, today)
  {
    var r := ExpiringMemberships(rows, days, today);
    forall i, j | 0 <= i < j < |r| ensures DayNumber(r[i].expiryDate.value) <= DayNumber(r[j].expiryDate.value) {
      assert ByExpiry()(r[i], r[j]);
      FormatOrder(r[i].expiryDate.value, r[j].expiryDate.value);
    }
    ByKeyTotal((m: MemberRow) => DateText(m.expiryDate));
    var hits := Filter(rows, Expiring(days, today));
    assert forall m :: m in r <==> m in multiset(hits);
  }

  // ---------------------------------------------------------------------
  // getStats

  datatype Stats = Stats(total: nat, active: nat, expired: nat, expiringSoon: nat)

  /** A row whose stored status is `status`. */
  function WithStatus(status: string): MemberRow -> bool {
    (m: MemberRow) => m.status == status
  }

  /** `Member::getStats()`: the table size, the members stored as `Active`
      and as `Expired`, and the active members expiring within 30 days; the
      last are among the active ones. */
  function GetStats(rows: seq<MemberRow>, today: CalendarDate): (s: Stats)
    ensures s.total == |rows|
    ensures s.active == |Filter(rows, WithStatus("Active"))|
    ensures s.expired == |Filter(rows, WithStatus("Expired"))|
    ensures s.expiringSoon == |Filter(rows, Expiring(30, today))|
    ensures s.active + s.expired <= s.total
    ensures s.expiringSoon <= s.active
  {
    CountDisjoint(rows, WithStatus("Active"), WithStatus("Expired"));
    CountImplied(rows, Expiring(30, today), WithStatus("Active"));
    Stats(|rows|,
          CountWhere(rows, WithStatus("Active")),
          CountWhere(rows, WithStatus("Expired")),
          CountWhere(rows, Expiring(30, today)))
  }

  lemma {:induction false} CountByStatus(rows: seq<MemberRow>, rows': seq<MemberRow>, status: string)
    requires |rows| == |rows'| && forall k :: 0 <= k < |rows| ==> rows[k].status == rows'[k].status
    ensures CountWhere(rows, WithStatus(status)) == CountWhere(rows', WithStatus(status))
  {
    if |rows| > 0 {
      CountByStatus(rows[1..], rows'[1..], status);
    }
  }

  /** `active` and `expired` count stored statuses only: tables that agree
      on every row's status agree on them, whatever the dates and the day.
      Together they never exceed the total. */
  lemma StatsByStoredStatus(rows: seq<MemberRow>, rows': seq<MemberRow>, today: CalendarDate, today': CalendarDate)
    requires |rows| == |rows'| && forall k :: 0 <= k < |rows| ==> rows[k].status == rows'[k].status
    ensures GetStats(rows, today).active == GetStats(rows', today').active
    ensures GetStats(rows, today).expired == GetStats(rows', today').expired
    ensures GetStats(rows, today).active + GetStats(rows, today).expired <= GetStats(rows, today).total
  {
    CountByStatus(rows, rows', "Active");
    CountByStatus(rows, rows', "Expired");
  }

  // ---------------------------------------------------------------------
  // validateEmail

  /** `Member::validateEmail($email, $excludeId)`: free when no member has
      that e-mail, ignoring the row `excludeId` when it is truthy (non-zero). */
  predicate ValidateEmail(rows: seq<MemberRow>, email: string, excludeId: Option<int>) {
    var skip := if excludeId.Some? && excludeId.value != 0 then excludeId else None;
    !MemberEmailTaken(rows, email, skip)
  }

  /** For a trimmed address and a positive (or no) exclusion, the model's
      check and the helper's probe give opposite answers, and the trainers
      table plays no part. */
  lemma ValidateEmailAgrees(rows: seq<MemberRow>, trainers: seq<TrainerRow>, email: string, excludeId: Option<int>)
    requires email != "" && Trim(email) == email
    requires excludeId.None? || excludeId.value > 0
    ensures ValidateEmail(rows, email, excludeId) == !Helpers.EmailExists(rows, trainers, email, "member", excludeId, false)
  {
  }
}
