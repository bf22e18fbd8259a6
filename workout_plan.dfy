/** The workout-plan model (`app/Models/WorkoutPlan.php`): creating a plan
    (its duration in weeks, the exercises kept, its first status), the sweep
    that completes plans whose end date has passed, the status whitelist,
    the filtered listing and the dashboard counts. */
module WorkoutPlanModel {
  import opened Options
  import opened Strings
  import opened Dates
  import opened Tables
  import opened Requests

  // ---------------------------------------------------------------------
  // Duration

  /** `round($days / 7)` for a whole number of days. Seven is odd, so the
      quotient is never exactly half-way and the rounding mode plays no part. */
  function RoundWeeks(days: nat): (w: nat)
    ensures 7 * w - 3 <= days <= 7 * w + 3
  {
    (days + 3) / 7
  }

  function Abs(n: int): nat {
    if n < 0 then -n else n
  }

  /** No whole number of weeks is nearer to the day span than the rounded one. */
  lemma RoundWeeksNearest(days: nat, k: int)
    ensures Abs(days - 7 * RoundWeeks(days)) <= Abs(days - 7 * k)
  {
    var w := RoundWeeks(days);
    if k < w {
      assert days - 7 * k >= 7 * (w - k) - 3 >= 4;
    } else if k > w {
      assert 7 * k - days >= 7 * (k - w) - 3 >= 4;
    }
  }

  /** `$start->diff($end)->days`: the number of days between, whichever comes first. */
  function DaySpan(a: CalendarDate, b: CalendarDate): (n: nat)
    ensures DayNumber(a) <= DayNumber(b) ==> DayNumber(a) + n == DayNumber(b)
    ensures DayNumber(b) <= DayNumber(a) ==> DayNumber(b) + n == DayNumber(a)
    ensures n == 0 <==> a == b
  {
    DayNumberOrder(a, b);
    Abs(DayNumber(b) - DayNumber(a))
  }

  /** What `create` computes for `duration_weeks`. `Unparseable` is a date
      `new DateTime` rejects, which throws out of `create`. */
  datatype Duration = NoDuration | Weeks(n: nat) | Unparseable

  function PlanDuration(data: Params): (r: Duration)
    ensures r.NoDuration? <==> FieldEmpty(data, "start_date") || FieldEmpty(data, "end_date")
    ensures r.Weeks? ==>
      && ParseDate(data["start_date"]).Some? && ParseDate(data["end_date"]).Some?
      && var days := DaySpan(ParseDate(data["start_date"]).value, ParseDate(data["end_date"]).value);
         7 * r.n - 3 <= days <= 7 * r.n + 3
    ensures r.Unparseable? ==> ParseDate(data["start_date"]).None? || ParseDate(data["end_date"]).None?
  {
    if FieldEmpty(data, "start_date") || FieldEmpty(data, "end_date") then NoDuration
    else
      var start := ParseDate(data["start_date"]);
      var end := ParseDate(data["end_date"]);
      if start.None? || end.None? then Unparseable
      else Weeks(RoundWeeks(DaySpan(start.value, end.value)))
  }

  // ---------------------------------------------------------------------
  // Exercises and first status

  /** `!empty($exercise['name'])`. */
  predicate HasName(e: Exercise) {
    !FieldEmpty(e, "name")
  }

  /** The `foreach` over the posted exercises: those with a name, in order. */
  method KeepNamedExercises(exercises: seq<Exercise>) returns (kept: seq<Exercise>)
    ensures kept == Filter(exercises, HasName)
    ensures forall k :: 0 <= k < |kept| ==> HasName(kept[k])
    ensures forall e :: e in kept <==> e in exercises && HasName(e)
  {
    kept := [];
    var i := 0;
    while i < |exercises|
      invariant 0 <= i <= |exercises|
      invariant kept == Filter(exercises[..i], HasName)
    {
      FilterAppend(exercises[..i], [exercises[i]], HasName);
      assert exercises[..i + 1] == exercises[..i] + [exercises[i]];
      if HasName(exercises[i]) {
        kept := kept + [exercises[i]];
      }
      i := i + 1;
    }
    assert exercises[..i] == exercises;
  }

  /** Keeping the named exercises of a list already cleaned changes nothing. */
  lemma {:induction false} KeepNamedIdempotent(exercises: seq<Exercise>)
    ensures Filter(Filter(exercises, HasName), HasName) == Filter(exercises, HasName)
  {
    FilterAll(Filter(exercises, HasName), HasName);
  }

  /** `isset($data['is_active']) ? 'Active' : 'Draft'`: presence alone
      counts, whatever the posted value. */
  function InitialStatus(data: Params): (s: string)
    ensures s == "Active" <==> "is_active" in data
    ensures s == "Draft" <==> "is_active" !in data
  {
    if "is_active" in data then "Active" else "Draft"
  }

  // ---------------------------------------------------------------------
  // Statuses

  function ValidStatuses(): seq<string> {
    ["Active", "Completed", "Cancelled", "Draft"]
  }

  function Join(items: seq<string>, sep: string): string {
    if |items| == 0 then ""
    else if |items| == 1 then items[0]
    else items[0] + sep + Join(items[1..], sep)
  }

  /** Every plan's status is one of the four the application knows. */
  predicate StatusesValid(plans: seq<PlanRow>) {
    forall k :: 0 <= k < |plans| ==> plans[k].status in ValidStatuses()
  }

  // ---------------------------------------------------------------------
  // Creating a plan

  /** A post `create` can store: a date, when given, that `new DateTime`
      and the DATE column can read, a numeric member id and, when posted, a
      numeric trainer id. */
  predicate Storable(data: Params) {
    && !PlanDuration(data).Unparseable?
    && ParseInt(Field(data, "member_id")).Some?
    && ("trainer_id" in data ==> ParseInt(data["trainer_id"]).Some?)
    && ("start_date" in data ==> ParseDate(data["start_date"]).Some?)
    && ("end_date" in data ==> ParseDate(data["end_date"]).Some?)
  }

  /** The row `create` stores for a post, field by field: an id above every
      existing one, the posted ids as integers, the duration of the two dates,
      each posted date as the day it writes, the named exercises in their
      order, the optional fields as posted or NULL, and the initial status. */
  predicate StoredFrom(row: PlanRow, plans: seq<PlanRow>, data: Params, exercises: Option<seq<Exercise>>, today: CalendarDate) {
    && row.id == NextId(PlanIds(plans))
    && (forall k :: 0 <= k < |plans| ==> plans[k].id < row.id)
    && Some(row.memberId) == ParseInt(Field(data, "member_id"))
    && (row.trainerId.Some? <==> "trainer_id" in data)
    && (row.trainerId.Some? ==> row.trainerId == ParseInt(data["trainer_id"]))
    && row.planName == Field(data, "plan_name")
    && (row.status == "Active" <==> "is_active" in data)
    && row.status in ValidStatuses()
    && (row.durationWeeks.None? <==> FieldEmpty(data, "start_date") || FieldEmpty(data, "end_date"))
    && (row.durationWeeks.Some? ==>
          PlanDuration(data).Weeks? && row.durationWeeks.value == PlanDuration(data).n)
    && (row.startDate.None? <==> "start_date" !in data)
    && (row.startDate.Some? ==> data["start_date"] == Format(row.startDate.value))
    && (row.endDate.None? <==> "end_date" !in data)
    && (row.endDate.Some? ==> data["end_date"] == Format(row.endDate.value))
    && row.exercises == (if exercises.Some? then Filter(exercises.value, HasName) else [])
    && row.planType == OrNull(data, "plan_type")
    && row.description == OrNull(data, "plan_description")
    && row.sessionsPerWeek == OrNull(data, "sessions_per_week")
    && row.sessionDuration == OrNull(data, "session_duration")
    && row.difficulty == OrNull(data, "difficulty_level")
    && row.goals == OrNull(data, "goals")
    && row.notes == OrNull(data, "notes")
    && row.createdOn == today
  }

  /** The row built from a storable post. */
  function StoredPlan(plans: seq<PlanRow>, data: Params, exercises: Option<seq<Exercise>>, today: CalendarDate): (r: PlanRow)
    requires Storable(data)
    ensures StoredFrom(r, plans, data, exercises, today)
  {
    var duration := PlanDuration(data);
    var trainer := OrNull(data, "trainer_id");
    var start := DateColumn(OrNull(data, "start_date"));
    var end := DateColumn(OrNull(data, "end_date"));
    assert InitialStatus(data) == ValidStatuses()[0] || InitialStatus(data) == ValidStatuses()[3];
    assert forall k :: 0 <= k < |plans| ==> plans[k].id == PlanIds(plans)[k];
    PlanRow(
      NextId(PlanIds(plans)),
      ParseInt(Field(data, "member_id")).value,
      if trainer.Some? then Some(ParseInt(trainer.value).value) else None,
      Field(data, "plan_name"),
      OrNull(data, "plan_type"),
      OrNull(data, "plan_description"),
      if duration.Weeks? then Some(duration.n) else None,
      DateValue(start),
      DateValue(end),
      OrNull(data, "sessions_per_week"),
      OrNull(data, "session_duration"),
      OrNull(data, "difficulty_level"),
      OrNull(data, "goals"),
      OrNull(data, "notes"),
      if exercises.Some? then Filter(exercises.value, HasName) else [],
      InitialStatus(data),
      today)
  }

  /** The row `create` inserts, or `None` when it throws or the database
      refuses a value: a date `new DateTime` or the DATE column cannot read,
      a missing or non-numeric member id, a non-numeric trainer id. */
  function NewPlan(plans: seq<PlanRow>, data: Params, exercises: Option<seq<Exercise>>, today: CalendarDate): (r: Option<PlanRow>)
    ensures r.Some? ==> StoredFrom(r.value, plans, data, exercises, today)
    ensures r.None? <==>
      || PlanDuration(data).Unparseable?
      || ParseInt(Field(data, "member_id")).None?
      || ("trainer_id" in data && ParseInt(data["trainer_id"]).None?)
      || ("start_date" in data && ParseDate(data["start_date"]).None?)
      || ("end_date" in data && ParseDate(data["end_date"]).None?)
  {
    if Storable(data) then Some(StoredPlan(plans, data, exercises, today)) else None
  }

  /** `lastInsertId()` on success, `false` (or an exception) otherwise. */
  datatype CreateOutcome = Created(id: int) | Failed

  /** `WorkoutPlan::create`. `refused` stands for a failure inside the
      database the model does not see. */
  method Create(db: Database, data: Params, exercises: Option<seq<Exercise>>, today: CalendarDate, refused: bool)
    returns (r: CreateOutcome)
    modifies db
    ensures r.Created? <==> !refused && NewPlan(old(db.plans), data, exercises, today).Some?
    ensures r.Created? ==>
      && db.plans == old(db.plans) + [NewPlan(old(db.plans), data, exercises, today).value]
      && r.id == NewPlan(old(db.plans), data, exercises, today).value.id
    ensures r.Failed? ==> db.plans == old(db.plans)
    ensures db.members == old(db.members) && db.trainers == old(db.trainers)
  {
    var kept: seq<Exercise> := [];
    if exercises.Some? {
      kept := KeepNamedExercises(exercises.value);
    }
    var row := NewPlan(db.plans, data, exercises, today);
    if refused || row.None? {
      return Failed;
    }
    assert row.value.exercises == kept;
    db.plans := db.plans + [row.value];
    r := Created(row.value.id);
  }

  /** A new plan keeps the table's statuses within the whitelist. */
  lemma NewPlanKeepsStatusesValid(plans: seq<PlanRow>, data: Params, exercises: Option<seq<Exercise>>, today: CalendarDate)
    requires StatusesValid(plans) && NewPlan(plans, data, exercises, today).Some?
    ensures StatusesValid(plans + [NewPlan(plans, data, exercises, today).value])
  {
    var row := NewPlan(plans, data, exercises, today).value;
    forall k | 0 <= k < |plans| + 1 ensures (plans + [row])[k].status in ValidStatuses() {
      if k < |plans| {
        assert (plans + [row])[k] == plans[k];
      }
    }
  }

  // ---------------------------------------------------------------------
  // The expiry sweep

  /** `status = 'Active' AND end_date < CURDATE()`; a NULL end date never matches. */
  predicate Lapsed(p: PlanRow, today: CalendarDate) {
    p.status == "Active" && p.endDate.Some? && DayNumber(p.endDate.value) < DayNumber(today)
  }

  function Complete(p: PlanRow, today: CalendarDate): PlanRow {
    if Lapsed(p, today) then p.(status := "Completed") else p
  }

  /** The table after `updateExpiredPlans`. */
  function Sweep(plans: seq<PlanRow>, today: CalendarDate): (r: seq<PlanRow>)
    ensures |r| == |plans|
    ensures forall k :: 0 <= k < |plans| ==> r[k] == Complete(plans[k], today)
  {
    seq(|plans|, k requires 0 <= k < |plans| => Complete(plans[k], today))
  }

  /** Exactly the lapsed active plans become `Completed`; every other row,
      and every other column, is left as it was. */
  lemma SweepChanges(plans: seq<PlanRow>, today: CalendarDate)
    ensures forall k :: 0 <= k < |plans| ==>
      (Sweep(plans, today)[k] != plans[k] <==> Lapsed(plans[k], today))
    ensures forall k :: 0 <= k < |plans| ==>
      Sweep(plans, today)[k] == plans[k].(status := Sweep(plans, today)[k].status)
    ensures forall k :: 0 <= k < |plans| && Lapsed(plans[k], today) ==>
      Sweep(plans, today)[k].status == "Completed"
  {
  }

  /** After the sweep no active plan has an end date before today. */
  lemma SweepLeavesNoLapsed(plans: seq<PlanRow>, today: CalendarDate)
    ensures forall k :: 0 <= k < |plans| ==> !Lapsed(Sweep(plans, today)[k], today)
  {
  }

  /** A second sweep on the same day changes nothing. */
  lemma SweepIdempotent(plans: seq<PlanRow>, today: CalendarDate)
    ensures Sweep(Sweep(plans, today), today) == Sweep(plans, today)
  {
    var once := Sweep(plans, today);
    SweepLeavesNoLapsed(plans, today);
    assert forall k :: 0 <= k < |once| ==> Complete(once[k], today) == once[k];
  }

  /** The sweep only ever writes `Completed`, so the whitelist holds after it. */
  lemma SweepKeepsStatusesValid(plans: seq<PlanRow>, today: CalendarDate)
    requires StatusesValid(plans)
    ensures StatusesValid(Sweep(plans, today))
  {
  }

  /** `WorkoutPlan::updateExpiredPlans`. */
  method UpdateExpiredPlans(db: Database, today: CalendarDate)
    modifies db
    ensures db.plans == Sweep(old(db.plans), today)
    ensures db.members == old(db.members) && db.trainers == old(db.trainers)
  {
    db.plans := Sweep(db.plans, today);
  }

  // ---------------------------------------------------------------------
  // Setting a status

  /** `UPDATE workout_plans SET status = ? WHERE id = ?`; the id arrives as
      request text and matches when it is the row's id written in decimal. */
  function SetPlanStatus(plans: seq<PlanRow>, id: string, status: string): (r: seq<PlanRow>)
    ensures |r| == |plans|
    ensures forall k :: 0 <= k < |plans| ==>
      r[k] == (if ParseInt(id) == Some(plans[k].id) then plans[k].(status := status) else plans[k])
  {
    seq(|plans|, k requires 0 <= k < |plans| =>
      if ParseInt(id) == Some(plans[k].id) then plans[k].(status := status) else plans[k])
  }

  datatype StatusOutcome = StatusUpdated | InvalidStatus(message: string)

  function InvalidStatusMessage(): string {
    "Invalid status. Must be one of: " + Join(ValidStatuses(), ", ")
  }

  /** `WorkoutPlan::updateStatus`: the whitelist is checked before any write. */
  method UpdateStatus(db: Database, id: string, status: string) returns (r: StatusOutcome)
    modifies db
    ensures status !in ValidStatuses() ==> r == InvalidStatus(InvalidStatusMessage()) && db.plans == old(db.plans)
    ensures status in ValidStatuses() ==> r == StatusUpdated && db.plans == SetPlanStatus(old(db.plans), id, status)
    ensures db.members == old(db.members) && db.trainers == old(db.trainers)
  {
    if status !in ValidStatuses() {
      return InvalidStatus(InvalidStatusMessage());
    }
    db.plans := SetPlanStatus(db.plans, id, status);
    r := StatusUpdated;
  }

  /** Whatever is passed, the statuses stay within the whitelist: a status
      outside it is never written. */
  lemma SetPlanStatusKeepsStatusesValid(plans: seq<PlanRow>, id: string, status: string)
    requires StatusesValid(plans) && status in ValidStatuses()
    ensures StatusesValid(SetPlanStatus(plans, id, status))
  {
  }

  // ---------------------------------------------------------------------
  // Searching

  /** One `AND` clause of the listing query. */
  datatype PlanCondition =
    | TextLike(term: string)        // plan name, member name or trainer name contains the term
    | TrainerIs(trainer: string)    // wp.trainer_id = ?
    | StatusLiteral(status: string) // wp.status = 'Active' / 'Completed'
    | StatusNotActiveOrCompleted    // wp.status NOT IN ('Active', 'Completed')
    | StatusParam(status: string)   // wp.status = ?
    | StartThisWeek
    | StartThisMonth
    | StartLastMonth

  /** The number of `?` placeholders in the clause's SQL text. */
  function Placeholders(c: PlanCondition): nat {
    match c
    case TextLike(_) => 3
    case TrainerIs(_) => 1
    case StatusParam(_) => 1
    case _ => 0
  }

  function PlaceholderCount(conds: seq<PlanCondition>): nat {
    if |conds| == 0 then 0 else PlaceholderCount(conds[..|conds| - 1]) + Placeholders(conds[|conds| - 1])
  }

  /** The values the clause binds, in placeholder order. */
  function Bound(c: PlanCondition): seq<string> {
    match c
    case TextLike(t) => ["%" + t + "%", "%" + t + "%", "%" + t + "%"]
    case TrainerIs(t) => [t]
    case StatusParam(s) => [s]
    case _ => []
  }

  function Bindings(conds: seq<PlanCondition>): seq<string> {
    if |conds| == 0 then [] else Bindings(conds[..|conds| - 1]) + Bound(conds[|conds| - 1])
  }

  /** The clause a `status` filter becomes: `active`, `completed` and
      `inactive` are recognised in any letter case, anything else is
      compared with its first letter capitalised. */
  function StatusCondition(input: string): (c: PlanCondition)
    ensures c.StatusLiteral? || c.StatusNotActiveOrCompleted? || c.StatusParam?
  {
    var status := ToLower(input);
    if status == "active" then StatusLiteral("Active")
    else if status == "completed" then StatusLiteral("Completed")
    else if status == "inactive" then StatusNotActiveOrCompleted
    else StatusParam(Ucfirst(input))
  }

  /** The clause a `date_range` filter becomes; an unknown range adds none. */
  function RangeConditions(range: string): (cs: seq<PlanCondition>)
    ensures |cs| <= 1
    ensures forall k :: 0 <= k < |cs| ==> Bound(cs[k]) == [] && Placeholders(cs[k]) == 0
  {
    if range == "this_week" then [StartThisWeek]
    else if range == "this_month" then [StartThisMonth]
    else if range == "last_month" then [StartLastMonth]
    else []
  }

  function TextConditions(params: Params): seq<PlanCondition> {
    if FieldEmpty(params, "search") then [] else [TextLike(params["search"])]
  }

  function TrainerConditions(params: Params): seq<PlanCondition> {
    if FieldEmpty(params, "trainer_id") then [] else [TrainerIs(params["trainer_id"])]
  }

  function StatusConditions(params: Params): seq<PlanCondition> {
    if FieldEmpty(params, "status") then [] else [StatusCondition(params["status"])]
  }

  function DateConditions(params: Params): seq<PlanCondition> {
    if FieldEmpty(params, "date_range") then [] else RangeConditions(params["date_range"])
  }

  /** The clauses `search` appends, in order, for the non-empty filters. */
  function SearchConditions(params: Params): seq<PlanCondition> {
    TextConditions(params) + TrainerConditions(params) + StatusConditions(params) + DateConditions(params)
  }

  lemma PlaceholderCountAppend(conds: seq<PlanCondition>, c: PlanCondition)
    ensures PlaceholderCount(conds + [c]) == PlaceholderCount(conds) + Placeholders(c)
    ensures Bindings(conds + [c]) == Bindings(conds) + Bound(c)
  {
    assert (conds + [c])[..|conds|] == conds;
  }

  /** The `$sql`/`$bindings` building of `search`: one clause per non-empty
      filter, each with exactly as many bound values as it has placeholders
      (three for the search term), so the statement always executes. */
  method BuildSearch(params: Params) returns (conds: seq<PlanCondition>, bindings: seq<string>)
    ensures conds == SearchConditions(params)
    ensures bindings == Bindings(conds)
    ensures |bindings| == PlaceholderCount(conds)
  {
    conds, bindings := AddSearchTerm(params, [], []);
    conds, bindings := AddTrainerFilter(params, conds, bindings);
    conds, bindings := AddStatusFilter(params, conds, bindings);
    conds, bindings := AddDateRange(params, conds, bindings);
    BindingsCount(conds);
  }

  /** The search term: three placeholders, each bound to `%term%`. */
  method AddSearchTerm(params: Params, conds: seq<PlanCondition>, bindings: seq<string>)
    returns (conds': seq<PlanCondition>, bindings': seq<string>)
    requires bindings == Bindings(conds)
    ensures conds' == conds + TextConditions(params) && bindings' == Bindings(conds')
  {
    conds', bindings' := conds, bindings;
    if !FieldEmpty(params, "search") {
      var term := "%" + params["search"] + "%";
      PlaceholderCountAppend(conds', TextLike(params["search"]));
      conds' := conds' + [TextLike(params["search"])];
      bindings' := bindings' + [term, term, term];
    } else {
      assert conds' + [] == conds';
    }
  }

  method AddTrainerFilter(params: Params, conds: seq<PlanCondition>, bindings: seq<string>)
    returns (conds': seq<PlanCondition>, bindings': seq<string>)
    requires bindings == Bindings(conds)
    ensures conds' == conds + TrainerConditions(params) && bindings' == Bindings(conds')
  {
    conds', bindings' := conds, bindings;
    if !FieldEmpty(params, "trainer_id") {
      PlaceholderCountAppend(conds', TrainerIs(params["trainer_id"]));
      conds' := conds' + [TrainerIs(params["trainer_id"])];
      bindings' := bindings' + [params["trainer_id"]];
    } else {
      assert conds' + [] == conds';
    }
  }

  method AddStatusFilter(params: Params, conds: seq<PlanCondition>, bindings: seq<string>)
    returns (conds': seq<PlanCondition>, bindings': seq<string>)
    requires bindings == Bindings(conds)
    ensures conds' == conds + StatusConditions(params) && bindings' == Bindings(conds')
  {
    conds', bindings' := conds, bindings;
    if !FieldEmpty(params, "status") {
      // the strtolower branches are StatusCondition's; only the last binds a value
      var c := StatusCondition(params["status"]);
      if c.StatusParam? {
        bindings' := bindings' + [c.status];
      } else {
        assert bindings' + [] == bindings';
      }
      PlaceholderCountAppend(conds', c);
      conds' := conds' + [c];
    } else {
      assert conds' + [] == conds';
    }
  }

  /** A date range adds a clause without placeholders, or nothing for an unknown range. */
  method AddDateRange(params: Params, conds: seq<PlanCondition>, bindings: seq<string>)
    returns (conds': seq<PlanCondition>, bindings': seq<string>)
    requires bindings == Bindings(conds)
    ensures conds' == conds + DateConditions(params) && bindings' == Bindings(conds')
  {
    conds', bindings' := conds, bindings;
    if !FieldEmpty(params, "date_range") {
      var range := RangeConditions(params["date_range"]);
      if |range| == 1 {
        PlaceholderCountAppend(conds', range[0]);
        assert [range[0]] == range;
        assert bindings' + [] == bindings';
      } else {
        assert range == [];
      }
      conds' := conds' + range;
    } else {
      assert conds' + [] == conds';
    }
  }

  lemma {:induction false} BindingsConcat(a: seq<PlanCondition>, b: seq<PlanCondition>)
    ensures Bindings(a + b) == Bindings(a) + Bindings(b)
  {
    if |b| == 0 {
      assert a + b == a;
    } else {
      var init, last := b[..|b| - 1], b[|b| - 1];
      assert (a + b)[..|a + b| - 1] == a + init && (a + b)[|a + b| - 1] == last;
      BindingsConcat(a, init);
      assert Bindings(a + b) == (Bindings(a) + Bindings(init)) + Bound(last);
      assert Bindings(b) == Bindings(init) + Bound(last);
    }
  }

  lemma {:induction false} PlaceholderCountConcat(a: seq<PlanCondition>, b: seq<PlanCondition>)
    ensures PlaceholderCount(a + b) == PlaceholderCount(a) + PlaceholderCount(b)
  {
    if |b| == 0 {
      assert a + b == a;
    } else {
      assert (a + b)[..|a + b| - 1] == a + b[..|b| - 1];
      PlaceholderCountConcat(a, b[..|b| - 1]);
    }
  }

  /** Each filter's share of the placeholders: three for a search term, one
      for a trainer, one for a status other than active, completed and
      inactive, none for a date range. */
  lemma SearchPlaceholderShares(params: Params)
    ensures PlaceholderCount(SearchConditions(params)) ==
      (if FieldEmpty(params, "search") then 0 else 3)
      + (if FieldEmpty(params, "trainer_id") then 0 else 1)
      + (if FieldEmpty(params, "status") || !StatusCondition(params["status"]).StatusParam? then 0 else 1)
  {
    var t, r, st, d := TextConditions(params), TrainerConditions(params), StatusConditions(params), DateConditions(params);
    PlaceholderCountConcat(t, r);
    PlaceholderCountConcat(t + r, st);
    PlaceholderCountConcat(t + r + st, d);
    assert PlaceholderCount(t) == (if FieldEmpty(params, "search") then 0 else 3) by {
      if |t| == 1 { assert t[..0] == []; }
    }
    assert PlaceholderCount(r) == (if FieldEmpty(params, "trainer_id") then 0 else 1) by {
      if |r| == 1 { assert r[..0] == []; }
    }
    assert PlaceholderCount(st) == (if FieldEmpty(params, "status") || !StatusCondition(params["status"]).StatusParam? then 0 else 1) by {
      if |st| == 1 { assert st[..0] == []; }
    }
    assert PlaceholderCount(d) == 0 by {
      if |d| == 1 { assert d[..0] == []; }
    }
  }

  lemma {:induction false} BindingsCount(conds: seq<PlanCondition>)
    ensures |Bindings(conds)| == PlaceholderCount(conds)
  {
    if |conds| > 0 {
      BindingsCount(conds[..|conds| - 1]);
    }
  }

  /** The Monday-based week a day falls in. Day 0 (0000-01-01) was a
      Saturday, so weeks start at day numbers 2, 9, 16, ... A `YEARWEEK(d, 1)`
      value names one such week. */
  function WeekIndex(d: CalendarDate): int {
    (DayNumber(d) + 5) / 7
  }

  function PersonName(first: string, last: string): string {
    first + " " + last
  }

  /** Whether a plan meets one clause; `members` and `trainers` serve the
      LEFT JOINs, so a plan without a matching person cannot match on that name. */
  predicate Holds(c: PlanCondition, p: PlanRow, members: seq<MemberRow>, trainers: seq<TrainerRow>, today: CalendarDate) {
    match c
    case TextLike(t) =>
      || Contains(p.planName, t)
      || (var m := FindMember(members, p.memberId); m.Some? && Contains(PersonName(m.value.firstName, m.value.lastName), t))
      || (p.trainerId.Some? &&
          var tr := FindTrainer(trainers, p.trainerId.value);
          tr.Some? && Contains(PersonName(tr.value.firstName, tr.value.lastName), t))
    case TrainerIs(t) => p.trainerId.Some? && ParseInt(t) == Some(p.trainerId.value)
    case StatusLiteral(s) => p.status == s
    case StatusNotActiveOrCompleted => p.status != "Active" && p.status != "Completed"
    case StatusParam(s) => p.status == s
    case StartThisWeek => p.startDate.Some? && WeekIndex(p.startDate.value) == WeekIndex(today)
    case StartThisMonth => p.startDate.Some? && MonthIndex(p.startDate.value) == MonthIndex(today)
    case StartLastMonth => p.startDate.Some? && MonthIndex(p.startDate.value) + 1 == MonthIndex(today)
  }

  predicate WhereAll(conds: seq<PlanCondition>, p: PlanRow, members: seq<MemberRow>, trainers: seq<TrainerRow>, today: CalendarDate) {
    forall k :: 0 <= k < |conds| ==> Holds(conds[k], p, members, trainers, today)
  }

  /** The rows `search` returns, newest first. */
  function SearchResult(plans: seq<PlanRow>, members: seq<MemberRow>, trainers: seq<TrainerRow>, params: Params, today: CalendarDate): (r: seq<PlanRow>)
    ensures forall p :: p in r <==> p in plans && WhereAll(SearchConditions(params), p, members, trainers, today)
  {
    var conds := SearchConditions(params);
    Reverse(Filter(plans, p => WhereAll(conds, p, members, trainers, today)))
  }

  /** `WorkoutPlan::search`: builds the clauses and bindings and runs the query. */
  method Search(db: Database, params: Params, today: CalendarDate) returns (rows: seq<PlanRow>)
    ensures rows == SearchResult(db.plans, db.members, db.trainers, params, today)
    ensures |rows| <= |db.plans|
  {
    var conds, bindings := BuildSearch(params);
    var members, trainers := db.members, db.trainers;
    rows := Reverse(Filter(db.plans, p => WhereAll(conds, p, members, trainers, today)));
  }

  /** With no filter every plan is listed, newest first. */
  lemma SearchUnfiltered(plans: seq<PlanRow>, members: seq<MemberRow>, trainers: seq<TrainerRow>, params: Params, today: CalendarDate)
    requires FieldEmpty(params, "search") && FieldEmpty(params, "trainer_id")
    requires FieldEmpty(params, "status") && FieldEmpty(params, "date_range")
    ensures SearchResult(plans, members, trainers, params, today) == Reverse(plans)
  {
    assert SearchConditions(params) == [];
    FilterAll(plans, p => WhereAll([], p, members, trainers, today));
  }

  /** What the status filter selects, case by case. */
  lemma StatusFilterSelects(input: string, p: PlanRow, members: seq<MemberRow>, trainers: seq<TrainerRow>, today: CalendarDate)
    ensures ToLower(input) == "active" ==> (Holds(StatusCondition(input), p, members, trainers, today) <==> p.status == "Active")
    ensures ToLower(input) == "completed" ==> (Holds(StatusCondition(input), p, members, trainers, today) <==> p.status == "Completed")
    ensures ToLower(input) == "inactive" ==>
      (Holds(StatusCondition(input), p, members, trainers, today) <==> p.status !in {"Active", "Completed"})
    ensures ToLower(input) !in {"active", "completed", "inactive"} ==>
      (Holds(StatusCondition(input), p, members, trainers, today) <==> p.status == Ucfirst(input))
  {
  }

  /** A plan is listed iff it meets every filter that was given. */
  lemma SearchSelects(plans: seq<PlanRow>, members: seq<MemberRow>, trainers: seq<TrainerRow>, params: Params, today: CalendarDate, p: PlanRow)
    ensures p in SearchResult(plans, members, trainers, params, today) <==>
      && p in plans
      && (FieldEmpty(params, "search") || Holds(TextLike(params["search"]), p, members, trainers, today))
      && (FieldEmpty(params, "trainer_id") || Holds(TrainerIs(params["trainer_id"]), p, members, trainers, today))
      && (FieldEmpty(params, "status") || Holds(StatusCondition(params["status"]), p, members, trainers, today))
      && (FieldEmpty(params, "date_range") ||
          forall c :: c in RangeConditions(params["date_range"]) ==> Holds(c, p, members, trainers, today))
  {
    var a, b, c, d := TextConditions(params), TrainerConditions(params), StatusConditions(params), DateConditions(params);
    WhereAllConcat(a, b, p, members, trainers, today);
    WhereAllConcat(a + b, c, p, members, trainers, today);
    WhereAllConcat(a + b + c, d, p, members, trainers, today);
    if |a| == 1 { WhereAllSingle(a[0], p, members, trainers, today); }
    if |b| == 1 { WhereAllSingle(b[0], p, members, trainers, today); }
    if |c| == 1 { WhereAllSingle(c[0], p, members, trainers, today); }
    assert WhereAll(a, p, members, trainers, today) <==>
      FieldEmpty(params, "search") || Holds(TextLike(params["search"]), p, members, trainers, today);
    assert WhereAll(b, p, members, trainers, today) <==>
      FieldEmpty(params, "trainer_id") || Holds(TrainerIs(params["trainer_id"]), p, members, trainers, today);
    assert WhereAll(c, p, members, trainers, today) <==>
      FieldEmpty(params, "status") || Holds(StatusCondition(params["status"]), p, members, trainers, today);
    assert WhereAll(d, p, members, trainers, today) <==>
      FieldEmpty(params, "date_range") ||
      forall x :: x in RangeConditions(params["date_range"]) ==> Holds(x, p, members, trainers, today);
  }

  lemma WhereAllSingle(c: PlanCondition, p: PlanRow, members: seq<MemberRow>, trainers: seq<TrainerRow>, today: CalendarDate)
    ensures WhereAll([c], p, members, trainers, today) <==> Holds(c, p, members, trainers, today)
  {
    assert [c][0] == c;
  }

  /** A plan meets a conjunction of clause lists iff it meets each list. */
  lemma WhereAllConcat(a: seq<PlanCondition>, b: seq<PlanCondition>, p: PlanRow, members: seq<MemberRow>, trainers: seq<TrainerRow>, today: CalendarDate)
    ensures WhereAll(a + b, p, members, trainers, today) <==>
      WhereAll(a, p, members, trainers, today) && WhereAll(b, p, members, trainers, today)
  {
    if WhereAll(a + b, p, members, trainers, today) {
      forall k | 0 <= k < |a| ensures Holds(a[k], p, members, trainers, today) {
        assert (a + b)[k] == a[k];
      }
      forall k | 0 <= k < |b| ensures Holds(b[k], p, members, trainers, today) {
        assert (a + b)[|a| + k] == b[k];
      }
    }
    if WhereAll(a, p, members, trainers, today) && WhereAll(b, p, members, trainers, today) {
      forall k | 0 <= k < |a + b| ensures Holds((a + b)[k], p, members, trainers, today) {
        if k >= |a| {
          assert (a + b)[k] == b[k - |a|];
        }
      }
    }
  }

  // ---------------------------------------------------------------------
  // Statistics

  datatype PlanStats = PlanStats(total: nat, active: nat, completed: nat, thisMonth: nat)

  predicate IsActive(p: PlanRow) { p.status == "Active" }
  predicate IsCompleted(p: PlanRow) { p.status == "Completed" }

  /** The four counts, read from a table. */
  function CountPlans(plans: seq<PlanRow>, today: CalendarDate): (s: PlanStats)
    ensures s.total == |plans|
    ensures s.active == |Filter(plans, IsActive)|
    ensures s.completed == |Filter(plans, IsCompleted)|
    ensures s.thisMonth == |Filter(plans, CreatedInMonthOf(today))|
    ensures s.active + s.completed <= s.total && s.thisMonth <= s.total
  {
    CountDisjoint(plans, IsActive, IsCompleted);
    PlanStats(
      |plans|,
      CountWhere(plans, IsActive),
      CountWhere(plans, IsCompleted),
      CountWhere(plans, CreatedInMonthOf(today)))
  }

  /** `MONTH(created_at) = MONTH(NOW()) AND YEAR(created_at) = YEAR(NOW())`. */
  function CreatedInMonthOf(today: CalendarDate): PlanRow -> bool {
    (p: PlanRow) => MonthIndex(p.createdOn) == MonthIndex(today)
  }

  /** `WorkoutPlan::getStats`: the sweep runs first, so the counts are of the swept table. */
  method GetStats(db: Database, today: CalendarDate) returns (s: PlanStats)
    modifies db
    ensures db.plans == Sweep(old(db.plans), today)
    ensures s == CountPlans(db.plans, today)
    ensures db.members == old(db.members) && db.trainers == old(db.trainers)
  {
    UpdateExpiredPlans(db, today);
    s := CountPlans(db.plans, today);
  }

  /** Counted after the sweep, active plans are those still running and the
      lapsed ones are counted as completed; the total is unchanged. */
  lemma {:induction false} SweptCounts(plans: seq<PlanRow>, today: CalendarDate)
    ensures CountWhere(Sweep(plans, today), IsActive) == CountWhere(plans, p => IsActive(p) && !Lapsed(p, today))
    ensures CountWhere(Sweep(plans, today), IsCompleted) == CountWhere(plans, p => IsCompleted(p) || Lapsed(p, today))
  {
    if |plans| > 0 {
      var swept := Sweep(plans, today);
      assert swept[1..] == Sweep(plans[1..], today);
      SweptCounts(plans[1..], today);
    }
  }
}
