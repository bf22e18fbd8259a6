/** The workout-plan controller (`app/Controllers/WorkoutPlanController.php`):
    the listing page (sweep first, then search or list all), the JSON
    `store` endpoint with its field validation, and the JSON status update. */
module WorkoutPlanController {
  import opened Options
  import opened Strings
  import opened Dates
  import opened Tables
  import opened Requests
  import opened WorkoutPlanModel
  import TrainerModel

  // ---------------------------------------------------------------------
  // Validation

  /** One entry of the `$errors` array: the field's key and its message. */
  datatype FieldError = FieldError(key: string, message: string)

  /** Adds an entry when the field is PHP-empty. */
  function RequireField(errors: seq<FieldError>, data: Params, key: string, message: string): seq<FieldError> {
    if FieldEmpty(data, key) then errors + [FieldError(key, message)] else errors
  }

  /** `validateWorkoutPlan`: the entries in the order the checks run. The end
      date is compared with the start date as text, and only when both are given. */
  function ValidateWorkoutPlan(data: Params): seq<FieldError> {
    var e1 := RequireField([], data, "plan_name", "Plan name is required");
    var e2 := RequireField(e1, data, "plan_type", "Plan type is required");
    var e3 := RequireField(e2, data, "member_id", "Member selection is required");
    var e4 := RequireField(e3, data, "trainer_id", "Trainer selection is required");
    var e5 := RequireField(e4, data, "start_date", "Start date is required");
    var e6 := CheckEndDate(e5, data);
    var e7 := RequireField(e6, data, "sessions_per_week", "Sessions per week is required");
    RequireField(e7, data, "session_duration", "Session duration is required")
  }

  /** The end date is required and, when the start date is given too, must
      come after it as text. */
  function CheckEndDate(errors: seq<FieldError>, data: Params): seq<FieldError> {
    if FieldEmpty(data, "end_date") then errors + [FieldError("end_date", "End date is required")]
    else if !FieldEmpty(data, "start_date") && LessEq(data["end_date"], data["start_date"]) then
      errors + [FieldError("end_date", "End date must be after start date")]
    else errors
  }

  /** The keys checked for presence, in order, each with its message. */
  function RequiredFields(): seq<FieldError> {
    [ FieldError("plan_name", "Plan name is required"),
      FieldError("plan_type", "Plan type is required"),
      FieldError("member_id", "Member selection is required"),
      FieldError("trainer_id", "Trainer selection is required"),
      FieldError("start_date", "Start date is required"),
      FieldError("end_date", "End date is required"),
      FieldError("sessions_per_week", "Sessions per week is required"),
      FieldError("session_duration", "Session duration is required") ]
  }

  /** Both dates are given and the end does not come after the start, as text. */
  predicate EndNotAfterStart(data: Params) {
    !FieldEmpty(data, "start_date") && !FieldEmpty(data, "end_date") && LessEq(data["end_date"], data["start_date"])
  }

  /** The entry the reference list expects for one required field. */
  function ExpectedEntry(data: Params, f: FieldError): seq<FieldError> {
    if FieldEmpty(data, f.key) then [f]
    else if f.key == "end_date" && EndNotAfterStart(data) then [FieldError("end_date", "End date must be after start date")]
    else []
  }

  /** The reference list: each required field, in order, contributes the
      entry it calls for on its own, whatever the other fields hold. */
  function ExpectedErrors(data: Params): seq<FieldError> {
    var fs := RequiredFields();
    ExpectedEntry(data, fs[0]) + ExpectedEntry(data, fs[1]) + ExpectedEntry(data, fs[2])
      + ExpectedEntry(data, fs[3]) + ExpectedEntry(data, fs[4]) + ExpectedEntry(data, fs[5])
      + ExpectedEntry(data, fs[6]) + ExpectedEntry(data, fs[7])
  }

  /** The validation yields, in field order, one entry per PHP-empty required
      field with that field's message, and for a given end date not after the
      given start date the ordering message under `end_date`. */
  lemma ValidateWorkoutPlanSpec(data: Params)
    ensures ValidateWorkoutPlan(data) == ExpectedErrors(data)
  {
    var fs := RequiredFields();
    var e1 := PresenceStep([], data, fs[0]);
    var e2 := PresenceStep(e1, data, fs[1]);
    var e3 := PresenceStep(e2, data, fs[2]);
    var e4 := PresenceStep(e3, data, fs[3]);
    var e5 := PresenceStep(e4, data, fs[4]);
    EndDateStep(e5, data);
    var e6 := CheckEndDate(e5, data);
    var e7 := PresenceStep(e6, data, fs[6]);
    var e8 := PresenceStep(e7, data, fs[7]);
    assert [] + ExpectedEntry(data, fs[0]) == ExpectedEntry(data, fs[0]);
  }

  /** A presence check appends the field's own entry. */
  lemma PresenceStep(errors: seq<FieldError>, data: Params, f: FieldError) returns (next: seq<FieldError>)
    requires f.key != "end_date"
    ensures next == RequireField(errors, data, f.key, f.message)
    ensures next == errors + ExpectedEntry(data, f)
  {
    next := RequireField(errors, data, f.key, f.message);
  }

  /** The end-date check appends the end date's own entry. */
  lemma EndDateStep(errors: seq<FieldError>, data: Params)
    ensures CheckEndDate(errors, data) == errors + ExpectedEntry(data, FieldError("end_date", "End date is required"))
  {
  }

  /** Every required field is given (none PHP-empty). */
  predicate AllGiven(data: Params) {
    && !FieldEmpty(data, "plan_name") && !FieldEmpty(data, "plan_type")
    && !FieldEmpty(data, "member_id") && !FieldEmpty(data, "trainer_id")
    && !FieldEmpty(data, "start_date") && !FieldEmpty(data, "end_date")
    && !FieldEmpty(data, "sessions_per_week") && !FieldEmpty(data, "session_duration")
  }

  /** No entry at all exactly when every field is given and the end date
      comes after the start date as text. */
  lemma ValidateWorkoutPlanEmpty(data: Params)
    ensures ValidateWorkoutPlan(data) == [] <==> AllGiven(data) && Less(data["start_date"], data["end_date"])
  {
    if ValidateWorkoutPlan(data) == [] {
      LessTrichotomy(data["start_date"], data["end_date"]);
    } else if AllGiven(data) && Less(data["start_date"], data["end_date"]) {
      LessIrreflexive(data["start_date"]);
      if Less(data["end_date"], data["start_date"]) {
        LessTransitive(data["start_date"], data["end_date"], data["start_date"]);
      }
    }
  }

  /** For two `Y-m-d` dates the text comparison is the calendar one: an end
      date on or before the start date is refused, so a one-day plan is refused. */
  lemma EndDateOrder(data: Params, start: CalendarDate, end: CalendarDate)
    requires "start_date" in data && data["start_date"] == Format(start)
    requires "end_date" in data && data["end_date"] == Format(end)
    ensures EndNotAfterStart(data) <==> DayNumber(end) <= DayNumber(start)
    ensures FieldError("end_date", "End date must be after start date") in ValidateWorkoutPlan(data) <==>
      DayNumber(end) <= DayNumber(start)
  {
    FormatOrder(end, start);
    DayNumberOrder(end, start);
    assert !IsEmpty(Format(start)) && !IsEmpty(Format(end));
    OrderMessageMeaning(data);
  }

  /** The ordering message is listed exactly when both dates are given and
      the end date does not come after the start date as text. */
  lemma OrderMessageMeaning(data: Params)
    ensures FieldError("end_date", "End date must be after start date") in ValidateWorkoutPlan(data) <==>
      EndNotAfterStart(data)
  {
    ValidateWorkoutPlanSpec(data);
    var fs := RequiredFields();
    var m := FieldError("end_date", "End date must be after start date");
    forall i | 0 <= i < |fs| && i != 5 ensures m !in ExpectedEntry(data, fs[i]) {
      assert fs[i].key != m.key;
    }
    assert m in ExpectedEntry(data, fs[5]) <==> EndNotAfterStart(data) by {
      assert fs[5].message != m.message;
    }
  }

  // ---------------------------------------------------------------------
  // store

  datatype StoreResponse =
    | Invalid(errors: seq<FieldError>)
    | Stored(planId: int)
    | StoreFailed

  /** `store`: a plan is created only when validation found nothing. */
  method Store(db: Database, post: Params, exercises: Option<seq<Exercise>>, today: CalendarDate, refused: bool)
    returns (response: StoreResponse)
    modifies db
    ensures ValidateWorkoutPlan(post) != [] ==>
      response == Invalid(ValidateWorkoutPlan(post)) && db.plans == old(db.plans)
    ensures ValidateWorkoutPlan(post) == [] && NewPlan(old(db.plans), post, exercises, today).Some? && !refused ==>
      && response == Stored(NewPlan(old(db.plans), post, exercises, today).value.id)
      && db.plans == old(db.plans) + [NewPlan(old(db.plans), post, exercises, today).value]
    ensures ValidateWorkoutPlan(post) == [] && (refused || NewPlan(old(db.plans), post, exercises, today).None?) ==>
      response == StoreFailed && db.plans == old(db.plans)
    ensures db.members == old(db.members) && db.trainers == old(db.trainers)
  {
    var errors := ValidateWorkoutPlan(post);
    if errors != [] {
      return Invalid(errors);
    }
    var outcome := Create(db, post, exercises, today, refused);
    if outcome.Created? {
      response := Stored(outcome.id);
    } else {
      response := StoreFailed;
    }
  }

  /** A plan that passed validation has both dates, so whenever it is
      stored its duration is known and its end comes after its start. */
  lemma StoredPlanDates(plans: seq<PlanRow>, post: Params, exercises: Option<seq<Exercise>>, today: CalendarDate)
    requires ValidateWorkoutPlan(post) == [] && NewPlan(plans, post, exercises, today).Some?
    ensures NewPlan(plans, post, exercises, today).value.durationWeeks.Some?
    ensures var p := NewPlan(plans, post, exercises, today).value;
      p.startDate.Some? && p.endDate.Some? && DayNumber(p.startDate.value) < DayNumber(p.endDate.value)
  {
    ValidateWorkoutPlanEmpty(post);
    var p := NewPlan(plans, post, exercises, today).value;
    var s := ParseDate(post["start_date"]);
    var e := ParseDate(post["end_date"]);
    assert s.Some? && e.Some?;
    FormatOrder(s.value, e.value);
  }

  // ---------------------------------------------------------------------
  // index

  /** `array_filter($filters)` is non-empty: some filter is truthy. */
  predicate AnyFilter(query: Params) {
    !FieldEmpty(query, "search") || !FieldEmpty(query, "trainer_id")
    || !FieldEmpty(query, "status") || !FieldEmpty(query, "date_range")
  }

  datatype IndexPage = IndexPage(
    plans: seq<PlanRow>,
    trainers: seq<TrainerRow>,
    stats: PlanStats,
    totalPlans: nat)

  /** `index`: the sweep runs before anything is read; the listing is the
      search when a filter is set and the whole table otherwise; `getStats`
      sweeps again, which changes nothing more. */
  method Index(db: Database, query: Params, today: CalendarDate) returns (page: IndexPage)
    modifies db
    ensures db.plans == Sweep(old(db.plans), today)
    ensures AnyFilter(query) ==> page.plans == SearchResult(db.plans, db.members, db.trainers, query, today)
    ensures !AnyFilter(query) ==> page.plans == Reverse(db.plans)
    ensures page.trainers == TrainerModel.GetActive(db.trainers)
    ensures page.stats == CountPlans(db.plans, today)
    ensures page.totalPlans == |page.plans|
    ensures db.members == old(db.members) && db.trainers == old(db.trainers)
  {
    UpdateExpiredPlans(db, today);
    var plans;
    if AnyFilter(query) {
      plans := Search(db, query, today);
    } else {
      plans := Reverse(db.plans);
    }
    var trainers := TrainerModel.GetActive(db.trainers);
    var stats := GetStats(db, today);
    SweepIdempotent(old(db.plans), today);
    page := IndexPage(plans, trainers, stats, |plans|);
  }

  /** Listing every plan and searching with no filter give the same rows,
      so the choice between `all` and `search` only saves work. */
  lemma IndexChoiceAgrees(plans: seq<PlanRow>, members: seq<MemberRow>, trainers: seq<TrainerRow>, query: Params, today: CalendarDate)
    requires !AnyFilter(query)
    ensures SearchResult(plans, members, trainers, query, today) == Reverse(plans)
  {
    SearchUnfiltered(plans, members, trainers, query, today);
  }

  // ---------------------------------------------------------------------
  // updateStatus

  datatype JsonReply = JsonReply(success: bool, message: string)

  /** `updateStatus`: a missing or falsy id or status is refused before the
      model is called; an unknown status is refused by the model's whitelist. */
  method UpdateStatusAction(db: Database, post: Params) returns (reply: JsonReply)
    modifies db
    ensures FieldEmpty(post, "id") || FieldEmpty(post, "status") ==>
      reply == JsonReply(false, "ID and status are required") && db.plans == old(db.plans)
    ensures !FieldEmpty(post, "id") && !FieldEmpty(post, "status") && post["status"] !in ValidStatuses() ==>
      reply == JsonReply(false, InvalidStatusMessage()) && db.plans == old(db.plans)
    ensures !FieldEmpty(post, "id") && !FieldEmpty(post, "status") && post["status"] in ValidStatuses() ==>
      reply == JsonReply(true, "Status updated successfully")
      && db.plans == SetPlanStatus(old(db.plans), post["id"], post["status"])
    ensures db.members == old(db.members) && db.trainers == old(db.trainers)
  {
    if FieldEmpty(post, "id") || FieldEmpty(post, "status") {
      return JsonReply(false, "ID and status are required");
    }
    var outcome := UpdateStatus(db, post["id"], post["status"]);
    if outcome.InvalidStatus? {
      reply := JsonReply(false, outcome.message);
    } else {
      reply := JsonReply(true, "Status updated successfully");
    }
  }
}
