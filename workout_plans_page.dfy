/** The legacy workout-plans page (`public/workout_plans.php`): a post with
    `action=add` reads a short plan form, checks three required fields and
    inserts the plan only when nothing was reported. Unlike
    `WorkoutPlanController::store`, this path has no check that the end
    date follows the start date. The database's refusal of the insert (a
    member or trainer id no row has, for instance) is the parameter
    `refusal`, as on the add page; the column default of `status` is
    `defaultStatus`, and the day the row is created is `today`. */
module WorkoutPlansPage {
  import opened Options
  import opened Strings
  import opened Dates
  import opened Tables
  import opened Requests
  import Helpers

  /** The values lines 17-23 compute from the post. */
  datatype PlanForm = PlanForm(
    memberId: int, trainerId: Option<int>, planName: string, description: string,
    durationWeeks: Option<int>, startDate: string, endDate: Option<string>)

  /** Lines 17-23: the member id is cast to an integer (0 without one);
      trainer id, duration and end date are NULL when the posted value is
      PHP-empty; the texts are sanitised. */
  function PostedPlan(post: Params): (p: PlanForm)
    ensures p.memberId == (if "member_id" in post then IntCast(post["member_id"]) else 0)
    ensures p.trainerId == (if FieldEmpty(post, "trainer_id") then None else Some(IntCast(post["trainer_id"])))
    ensures p.durationWeeks == (if FieldEmpty(post, "duration_weeks") then None else Some(IntCast(post["duration_weeks"])))
    ensures p.endDate == (if FieldEmpty(post, "end_date") then None else Some(Helpers.SanitizeInput(post["end_date"])))
    ensures p.planName == Helpers.SanitizeInput(Field(post, "plan_name"))
    ensures p.description == Helpers.SanitizeInput(Field(post, "description"))
    ensures p.startDate == Helpers.SanitizeInput(Field(post, "start_date"))
  {
    PlanForm(
      if "member_id" in post then IntCast(post["member_id"]) else 0,
      if !FieldEmpty(post, "trainer_id") then Some(IntCast(post["trainer_id"])) else None,
      Helpers.SanitizeInput(Field(post, "plan_name")),
      Helpers.SanitizeInput(Field(post, "description")),
      if !FieldEmpty(post, "duration_weeks") then Some(IntCast(post["duration_weeks"])) else None,
      Helpers.SanitizeInput(Field(post, "start_date")),
      if !FieldEmpty(post, "end_date") then Some(Helpers.SanitizeInput(post["end_date"])) else None)
  }

  /** Lines 25-33: the messages, in the order the page appends them. */
  function PlanErrors(p: PlanForm): seq<string> {
    (if p.memberId == 0 then ["Member is required."] else [])
      + (if IsEmpty(p.planName) then ["Plan name is required."] else [])
      + (if IsEmpty(p.startDate) then ["Start date is required."] else [])
  }

  /** Each message is reported exactly when its field is missing, and the
      list is empty iff member, plan name and start date are all given. */
  lemma PlanErrorsMeaning(p: PlanForm)
    ensures var errs := PlanErrors(p);
      && |errs| <= 3
      && ("Member is required." in errs <==> p.memberId == 0)
      && ("Plan name is required." in errs <==> IsEmpty(p.planName))
      && ("Start date is required." in errs <==> IsEmpty(p.startDate))
      && (errs == [] <==> p.memberId != 0 && !IsEmpty(p.planName) && !IsEmpty(p.startDate))
  {
  }

  /** A missing member id, the id `0` and one that does not start with a
      number all cast to 0 and are reported as a missing member. */
  lemma MemberIdZero(post: Params)
    requires "member_id" in post ==> post["member_id"] == IntText(0) || NumericPrefix(post["member_id"]).None?
    ensures "Member is required." in PlanErrors(PostedPlan(post))
  {
    if "member_id" in post && post["member_id"] == IntText(0) {
      IntCastText(0);
    }
  }

  /** A posted member id that is the text of a positive number is that
      member's id, and the message about a missing member is not given. */
  lemma MemberIdRead(post: Params, id: int)
    requires 0 < id <= IntMax && "member_id" in post && post["member_id"] == IntText(id)
    ensures PostedPlan(post).memberId == id
    ensures "Member is required." !in PlanErrors(PostedPlan(post))
  {
    IntCastText(id);
    var p := PostedPlan(post);
    assert p.memberId == id;
    PlanErrorsMeaning(p);
  }

  /** The checks never look at the end date or the duration: a plan ending
      before it starts passes them. */
  lemma ChecksIgnoreEndDate(p: PlanForm, end: Option<string>, weeks: Option<int>)
    ensures PlanErrors(p.(endDate := end, durationWeeks := weeks)) == PlanErrors(p)
  {
  }

  /** The row the insert of lines 37-39 stores, or `None` when a date is
      text the DATE column refuses. The description is NULL when
      PHP-empty; the columns the insert does not name take their defaults. */
  function InsertedPlan(plans: seq<PlanRow>, p: PlanForm, defaultStatus: string, today: CalendarDate): (r: Option<PlanRow>)
    ensures r.Some? ==>
      && r.value.id !in PlanIds(plans)
      && r.value.memberId == p.memberId && r.value.trainerId == p.trainerId
      && r.value.planName == p.planName
      && r.value.description == EmptyToNull(p.description)
      && r.value.durationWeeks == p.durationWeeks
      && r.value.startDate.Some? && Format(r.value.startDate.value) == p.startDate
      && (r.value.endDate.None? <==> p.endDate.None?)
      && (r.value.endDate.Some? ==> Format(r.value.endDate.value) == p.endDate.value)
      && r.value.status == defaultStatus && r.value.exercises == [] && r.value.createdOn == today
      && r.value.planType.None? && r.value.sessionsPerWeek.None? && r.value.sessionDuration.None?
      && r.value.difficulty.None? && r.value.goals.None? && r.value.notes.None?
    ensures r.None? <==> ParseDate(p.startDate).None? || (p.endDate.Some? && ParseDate(p.endDate.value).None?)
  {
    var start := DateColumn(Some(p.startDate));
    var end := DateColumn(p.endDate);
    if start.BadDate? || end.BadDate? then None
    else Some(PlanRow(NextId(PlanIds(plans)), p.memberId, p.trainerId, p.planName, None,
                      EmptyToNull(p.description), p.durationWeeks, DateValue(start), DateValue(end),
                      None, None, None, None, None, [], defaultStatus, today))
  }

  /** Lines 25-33: the checks, appended one by one. */
  method PlanChecks(p: PlanForm) returns (errors: seq<string>)
    ensures errors == PlanErrors(p)
  {
    errors := [];
    if p.memberId == 0 {
      errors := errors + ["Member is required."];
    }
    if IsEmpty(p.planName) {
      errors := errors + ["Plan name is required."];
    }
    if IsEmpty(p.startDate) {
      errors := errors + ["Start date is required."];
    }
  }

  /** Lines 25-45: the checks, then the insert and its `catch`. */
  method AddPlan(db: Database, p: PlanForm, defaultStatus: string, today: CalendarDate,
                 refusal: Option<string>, dateRefusal: string)
    returns (errors: seq<string>, success: bool)
    modifies db
    ensures var row := InsertedPlan(old(db.plans), p, defaultStatus, today);
      && (success <==> PlanErrors(p) == [] && refusal.None? && row.Some?)
      && (success ==> db.plans == old(db.plans) + [row.value] && errors == [])
      && (!success ==> db.plans == old(db.plans) && errors != [])
      && (PlanErrors(p) != [] ==> errors == PlanErrors(p))
      && (PlanErrors(p) == [] && refusal.Some? ==> errors == ["Error adding workout plan: " + refusal.value])
      && (PlanErrors(p) == [] && refusal.None? && row.None? ==> errors == ["Error adding workout plan: " + dateRefusal])
    ensures db.members == old(db.members) && db.trainers == old(db.trainers)
  {
    errors := PlanChecks(p);
    success := false;
    if errors == [] {
      var row := InsertedPlan(db.plans, p, defaultStatus, today);
      if refusal.Some? {
        errors := ["Error adding workout plan: " + refusal.value];
      } else if row.None? {
        errors := ["Error adding workout plan: " + dateRefusal];
      } else {
        db.plans := db.plans + [row.value];
        success := true;
      }
    }
  }

  /** Lines 15-47: only a post whose `action` is `add` touches the table. */
  method Handle(db: Database, isPost: bool, post: Params, defaultStatus: string, today: CalendarDate,
                refusal: Option<string>, dateRefusal: string)
    returns (errors: seq<string>, success: bool)
    modifies db
    ensures !(isPost && "action" in post && post["action"] == "add") ==>
      errors == [] && !success && db.plans == old(db.plans)
    ensures isPost && "action" in post && post["action"] == "add" ==>
      var p := PostedPlan(post);
      var row := InsertedPlan(old(db.plans), p, defaultStatus, today);
      && (success <==> PlanErrors(p) == [] && refusal.None? && row.Some?)
      && (success ==> db.plans == old(db.plans) + [row.value] && errors == [])
      && (!success ==> errors != [])
      && (PlanErrors(p) != [] ==> errors == PlanErrors(p))
      && (PlanErrors(p) == [] && refusal.Some? ==> errors == ["Error adding workout plan: " + refusal.value])
      && (PlanErrors(p) == [] && refusal.None? && row.None? ==> errors == ["Error adding workout plan: " + dateRefusal])
    ensures !success ==> db.plans == old(db.plans)
    ensures db.members == old(db.members) && db.trainers == old(db.trainers)
  {
    errors := [];
    success := false;
    if isPost && "action" in post && post["action"] == "add" {
      var p := PostedPlan(post);
      errors, success := AddPlan(db, p, defaultStatus, today, refusal, dateRefusal);
    }
  }
}
