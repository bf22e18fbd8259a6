/** The three tables the back-office keeps in MySQL — members, trainers and
    workout plans — as sequences of records in insertion order (the order
    `created_at` and the auto-increment id follow), and the generic queries
    every model runs over them: selection, counting, lookup by id, reversal
    for `ORDER BY created_at DESC` and `LIMIT`. */
module Tables {
  import opened Options
  import opened Dates

  /** A row of `members`. Nullable columns are `Option`s. */
  datatype MemberRow = MemberRow(
    id: int,
    firstName: string,
    lastName: string,
    email: string,
    phone: string,
    membershipType: string,
    startDate: Option<CalendarDate>,
    expiryDate: Option<CalendarDate>,
    status: string,
    address: Option<string>,
    birthDate: Option<CalendarDate>,
    emergencyName: Option<string>,
    emergencyPhone: Option<string>)

  /** A row of `trainers`. */
  datatype TrainerRow = TrainerRow(
    id: int,
    firstName: string,
    lastName: string,
    email: string,
    phone: string,
    specialization: Option<string>,
    experienceYears: Option<string>,
    certification: Option<string>,
    hireDate: Option<CalendarDate>,
    status: string)

  /** One exercise of a plan, as the form posts it (`name`, `sets`, `reps`, ...). */
  type Exercise = map<string, string>

  /** A row of `workout_plans`; `createdOn` is the day part of `created_at`. */
  datatype PlanRow = PlanRow(
    id: int,
    memberId: int,
    trainerId: Option<int>,
    planName: string,
    planType: Option<string>,
    description: Option<string>,
    durationWeeks: Option<int>,
    startDate: Option<CalendarDate>,
    endDate: Option<CalendarDate>,
    sessionsPerWeek: Option<string>,
    sessionDuration: Option<string>,
    difficulty: Option<string>,
    goals: Option<string>,
    notes: Option<string>,
    exercises: seq<Exercise>,
    status: string,
    createdOn: CalendarDate)

  // ---------------------------------------------------------------------
  // Generic queries

  /** `WHERE p`: the rows satisfying `p`, in table order. */
  function Filter<T(!new)>(s: seq<T>, p: T -> bool): (r: seq<T>)
    ensures |r| <= |s|
    ensures forall x :: x in r <==> x in s && p(x)
    ensures forall k :: 0 <= k < |r| ==> p(r[k])
  {
    if |s| == 0 then []
    else if p(s[0]) then [s[0]] + Filter(s[1..], p)
    else Filter(s[1..], p)
  }

  /** Selection distributes over concatenation, so it keeps the table's order. */
  lemma {:induction false} FilterAppend<T(!new)>(a: seq<T>, b: seq<T>, p: T -> bool)
    ensures Filter(a + b, p) == Filter(a, p) + Filter(b, p)
  {
    if |a| > 0 {
      assert (a + b)[1..] == a[1..] + b;
      FilterAppend(a[1..], b, p);
    } else {
      assert a + b == b;
    }
  }

  /** Selecting with two conditions one after the other is selecting with both. */
  lemma {:induction false} FilterFilter<T(!new)>(s: seq<T>, p: T -> bool, q: T -> bool)
    ensures Filter(Filter(s, p), q) == Filter(s, x => p(x) && q(x))
  {
    if |s| > 0 {
      FilterFilter(s[1..], p, q);
    }
  }

  /** A condition every row meets selects the whole table. */
  lemma {:induction false} FilterAll<T(!new)>(s: seq<T>, p: T -> bool)
    requires forall k :: 0 <= k < |s| ==> p(s[k])
    ensures Filter(s, p) == s
  {
    if |s| > 0 {
      FilterAll(s[1..], p);
    }
  }

  /** `SELECT COUNT(*) ... WHERE p`. */
  function CountWhere<T(!new)>(s: seq<T>, p: T -> bool): (n: nat)
    ensures n <= |s|
  {
    |Filter(s, p)|
  }

  /** Counts of two conditions that never hold together add up to at most the total. */
  lemma {:induction false} CountDisjoint<T(!new)>(s: seq<T>, p: T -> bool, q: T -> bool)
    requires forall x :: !(p(x) && q(x))
    ensures CountWhere(s, p) + CountWhere(s, q) <= |s|
  {
    if |s| > 0 {
      CountDisjoint(s[1..], p, q);
    }
  }

  /** A condition implied by another counts at least as many rows. */
  lemma {:induction false} CountImplied<T(!new)>(s: seq<T>, p: T -> bool, q: T -> bool)
    requires forall x :: p(x) ==> q(x)
    ensures CountWhere(s, p) <= CountWhere(s, q)
  {
    if |s| > 0 {
      CountImplied(s[1..], p, q);
    }
  }

  /** `ORDER BY created_at DESC` on a table kept in insertion order. */
  function Reverse<T(!new)>(s: seq<T>): (r: seq<T>)
    ensures |r| == |s|
    ensures forall x :: x in r <==> x in s
    ensures forall k :: 0 <= k < |s| ==> r[k] == s[|s| - 1 - k]
  {
    if |s| == 0 then [] else Reverse(s[1..]) + [s[0]]
  }

  /** `LIMIT n`: the first `n` rows, or all of them when there are fewer. */
  function Take<T>(s: seq<T>, n: nat): (r: seq<T>)
    ensures |r| <= n && |r| <= |s|
    ensures r == s[..|r|]
    ensures |s| <= n ==> r == s
  {
    if |s| <= n then s else s[..n]
  }

  /** `SELECT * FROM members WHERE id = ?`: the first row with that id. */
  function FindMember(rows: seq<MemberRow>, id: int): (r: Option<MemberRow>)
    ensures r.Some? ==> r.value in rows && r.value.id == id
    ensures r.Some? ==> exists k :: 0 <= k < |rows| && rows[k] == r.value && forall j :: 0 <= j < k ==> rows[j].id != id
    ensures r.None? <==> forall k :: 0 <= k < |rows| ==> rows[k].id != id
  {
    if |rows| == 0 then None
    else if rows[0].id == id then Some(rows[0])
    else FindMember(rows[1..], id)
  }

  /** `SELECT * FROM trainers WHERE id = ?`: the first row with that id. */
  function FindTrainer(rows: seq<TrainerRow>, id: int): (r: Option<TrainerRow>)
    ensures r.Some? ==> r.value in rows && r.value.id == id
    ensures r.Some? ==> exists k :: 0 <= k < |rows| && rows[k] == r.value && forall j :: 0 <= j < k ==> rows[j].id != id
    ensures r.None? <==> forall k :: 0 <= k < |rows| ==> rows[k].id != id
  {
    if |rows| == 0 then None
    else if rows[0].id == id then Some(rows[0])
    else FindTrainer(rows[1..], id)
  }

  /** Some member other than `skip` has this e-mail. */
  predicate MemberEmailTaken(rows: seq<MemberRow>, email: string, skip: Option<int>) {
    exists k :: 0 <= k < |rows| && rows[k].email == email && (skip.None? || rows[k].id != skip.value)
  }

  /** Some trainer other than `skip` has this e-mail. */
  predicate TrainerEmailTaken(rows: seq<TrainerRow>, email: string, skip: Option<int>) {
    exists k :: 0 <= k < |rows| && rows[k].email == email && (skip.None? || rows[k].id != skip.value)
  }

  /** The id AUTO_INCREMENT hands out next: an id above every id in use. */
  function NextId(ids: seq<int>): (n: int)
    ensures n >= 1
    ensures forall k :: 0 <= k < |ids| ==> ids[k] < n
  {
    if |ids| == 0 then 1
    else
      var rest := NextId(ids[1..]);
      if ids[0] < rest then rest else ids[0] + 1
  }

  function MemberIds(rows: seq<MemberRow>): (ids: seq<int>)
    ensures |ids| == |rows| && forall k :: 0 <= k < |rows| ==> ids[k] == rows[k].id
  {
    seq(|rows|, k requires 0 <= k < |rows| => rows[k].id)
  }

  function TrainerIds(rows: seq<TrainerRow>): (ids: seq<int>)
    ensures |ids| == |rows| && forall k :: 0 <= k < |rows| ==> ids[k] == rows[k].id
  {
    seq(|rows|, k requires 0 <= k < |rows| => rows[k].id)
  }

  function PlanIds(rows: seq<PlanRow>): (ids: seq<int>)
    ensures |ids| == |rows| && forall k :: 0 <= k < |rows| ==> ids[k] == rows[k].id
  {
    seq(|rows|, k requires 0 <= k < |rows| => rows[k].id)
  }

  /** The three tables of the gym's database, updated in place by the models. */
  class Database {
    var members: seq<MemberRow>
    var trainers: seq<TrainerRow>
    var plans: seq<PlanRow>

    constructor(members: seq<MemberRow>, trainers: seq<TrainerRow>, plans: seq<PlanRow>)
      ensures this.members == members && this.trainers == trainers && this.plans == plans
    {
      this.members := members;
      this.trainers := trainers;
      this.plans := plans;
    }
  }
}
