/** The legacy "edit member / edit trainer" page (`public/edit.php`): it
    settles the kind of record as the add page does, turns the `id` query
    parameter into an integer, sends the browser back to `index.php` when
    that id is not positive or names no record, and on a post reads the
    same fields as the add page plus `status`, runs the same checks in the
    same order, updates the record only when there are no messages, and
    reads the record again after a successful update. The database's
    answers are parameters as on the add page. */
module EditPage {
  import opened Options
  import opened Strings
  import opened Dates
  import opened Tables
  import opened Requests
  import Helpers
  import AddPage

  // ---------------------------------------------------------------------
  // The record to edit

  /** Line 19: `(int) $_GET['id']`, or 0 without one. */
  function RequestedId(query: Params): (id: int)
    ensures "id" !in query ==> id == 0
    ensures "id" in query ==> id == IntCast(query["id"])
  {
    if "id" in query then IntCast(query["id"]) else 0
  }

  /** The `id` parameter written as a 64-bit integer is read as that
      integer; one that does not start with a number reads as 0. */
  lemma RequestedIdReads(query: Params, n: int)
    requires "id" in query && IntMin <= n <= IntMax
    ensures query["id"] == IntText(n) ==> RequestedId(query) == n
    ensures NumericPrefix(query["id"]).None? ==> RequestedId(query) == 0
  {
    if query["id"] == IntText(n) {
      IntCastText(n);
    }
  }

  /** Lines 21-35: the id of the record the page edits, or `None` when it
      redirects to `index.php` (an id that is not positive, or one no row
      of the chosen table has). */
  method Locate(db: Database, query: Params, kind: string) returns (target: Option<int>)
    ensures target.None? <==>
      RequestedId(query) <= 0
      || (kind == "member" && FindMember(db.members, RequestedId(query)).None?)
      || (kind != "member" && FindTrainer(db.trainers, RequestedId(query)).None?)
    ensures target.Some? ==> target.value == RequestedId(query) && target.value > 0
  {
    var id := if "id" in query then IntCast(query["id"]) else 0;
    if id <= 0 {
      return None;
    }
    var found: bool;
    if kind == "member" {
      found := FindMember(db.members, id).Some?;
    } else {
      found := FindTrainer(db.trainers, id).Some?;
    }
    if !found {
      return None;
    }
    target := Some(id);
  }

  // ---------------------------------------------------------------------
  // The posted status

  /** Lines 50 and 100: `sanitizeInput($_POST['status'] ?? 'Active')`. */
  function PostedStatus(post: Params): string {
    Helpers.SanitizeInput(OrDefault(post, "status", "Active"))
  }

  /** Without a posted status the record becomes `Active`; a posted one,
      even an empty one, is used as sent (after sanitising). */
  lemma StatusDefault(post: Params)
    ensures "status" !in post ==> PostedStatus(post) == "Active"
    ensures "status" in post ==> PostedStatus(post) == Helpers.SanitizeInput(post["status"])
  {
    if "status" !in post {
      WordKept("Active");
    }
  }

  /** A word of letters passes `sanitizeInput` unchanged. */
  lemma WordKept(w: string)
    requires w != [] && forall i :: 0 <= i < |w| ==> IsUpper(w[i]) || IsLower(w[i])
    ensures Helpers.SanitizeInput(w) == w
  {
    assert TrimLeft(w) == w;
    assert TrimRight(w) == w;
    assert '\\' !in w;
    assert forall i :: 0 <= i < |w| ==> !Helpers.IsHtmlSpecial(w[i]);
    Helpers.SanitizeInputSafe(w);
  }

  // ---------------------------------------------------------------------
  // The update

  /** The row `UPDATE members ... WHERE id = ?` (lines 70-80) writes, or
      `None` when a date is text the DATE column refuses. The id is kept;
      optional texts that are PHP-empty become NULL. */
  function UpdatedMember(id: int, f: AddPage.Form, status: string): (r: Option<MemberRow>)
    ensures r.Some? ==>
      && r.value.id == id
      && r.value.firstName == f.firstName && r.value.lastName == f.lastName
      && r.value.email == f.email && r.value.phone == f.phone
      && r.value.membershipType == f.membershipType
      && r.value.status == status
      && r.value.startDate.Some? && Format(r.value.startDate.value) == f.startDate
      && r.value.expiryDate.Some? && Format(r.value.expiryDate.value) == f.expiryDate
      && r.value.address == EmptyToNull(f.address)
      && (r.value.birthDate.None? <==> IsEmpty(f.birthDate))
      && (r.value.birthDate.Some? ==> Format(r.value.birthDate.value) == f.birthDate)
      && r.value.emergencyName == EmptyToNull(f.emergencyName)
      && r.value.emergencyPhone == EmptyToNull(f.emergencyPhone)
    ensures r.None? <==>
      ParseDate(f.startDate).None? || ParseDate(f.expiryDate).None?
      || (!IsEmpty(f.birthDate) && ParseDate(f.birthDate).None?)
  {
    var start := DateColumn(Some(f.startDate));
    var expiry := DateColumn(Some(f.expiryDate));
    var birth := DateColumn(EmptyToNull(f.birthDate));
    if start.BadDate? || expiry.BadDate? || birth.BadDate? then None
    else Some(MemberRow(id, f.firstName, f.lastName, f.email, f.phone, f.membershipType,
                        DateValue(start), DateValue(expiry), status,
                        EmptyToNull(f.address), DateValue(birth),
                        EmptyToNull(f.emergencyName), EmptyToNull(f.emergencyPhone)))
  }

  /** The row `UPDATE trainers ... WHERE id = ?` (lines 118-124) writes, or
      `None` when the hire date is text the DATE column refuses. */
  function UpdatedTrainer(id: int, f: AddPage.Form, status: string): (r: Option<TrainerRow>)
    ensures r.Some? ==>
      && r.value.id == id
      && r.value.firstName == f.firstName && r.value.lastName == f.lastName
      && r.value.email == f.email && r.value.phone == f.phone
      && r.value.status == status
      && r.value.hireDate.Some? && Format(r.value.hireDate.value) == f.hireDate
      && r.value.specialization == EmptyToNull(f.specialization)
      && r.value.experienceYears == EmptyToNull(f.experienceYears)
      && r.value.certification == EmptyToNull(f.certification)
    ensures r.None? <==> ParseDate(f.hireDate).None?
  {
    var hire := DateColumn(Some(f.hireDate));
    if hire.BadDate? then None
    else Some(TrainerRow(id, f.firstName, f.lastName, f.email, f.phone,
                         EmptyToNull(f.specialization), EmptyToNull(f.experienceYears),
                         EmptyToNull(f.certification), DateValue(hire), status))
  }

  /** `WHERE id = ?`: every member row with the id becomes `row`; the
      others, and the order, stay. */
  function ReplaceMember(rows: seq<MemberRow>, id: int, row: MemberRow): (r: seq<MemberRow>)
    ensures |r| == |rows|
    ensures forall k :: 0 <= k < |rows| ==> r[k] == if rows[k].id == id then row else rows[k]
  {
    if |rows| == 0 then []
    else [if rows[0].id == id then row else rows[0]] + ReplaceMember(rows[1..], id, row)
  }

  /** The same for trainer rows. */
  function ReplaceTrainer(rows: seq<TrainerRow>, id: int, row: TrainerRow): (r: seq<TrainerRow>)
    ensures |r| == |rows|
    ensures forall k :: 0 <= k < |rows| ==> r[k] == if rows[k].id == id then row else rows[k]
  {
    if |rows| == 0 then []
    else [if rows[0].id == id then row else rows[0]] + ReplaceTrainer(rows[1..], id, row)
  }

  /** Reading the record again after the update (line 82) gives the row
      the update wrote. */
  lemma {:induction false} ReloadMember(rows: seq<MemberRow>, id: int, row: MemberRow)
    requires FindMember(rows, id).Some? && row.id == id
    ensures FindMember(ReplaceMember(rows, id, row), id) == Some(row)
  {
    if rows[0].id != id {
      ReloadMember(rows[1..], id, row);
    }
  }

  /** Line 126: the same for trainers. */
  lemma {:induction false} ReloadTrainer(rows: seq<TrainerRow>, id: int, row: TrainerRow)
    requires FindTrainer(rows, id).Some? && row.id == id
    ensures FindTrainer(ReplaceTrainer(rows, id, row), id) == Some(row)
  {
    if rows[0].id != id {
      ReloadTrainer(rows[1..], id, row);
    }
  }

  /** The update and its `catch` (lines 69-89): on success every row with
      the id holds the new values; a refusal changes nothing and reports
      one message. */
  method UpdateMember(db: Database, id: int, f: AddPage.Form, status: string, refusal: Option<string>, dateRefusal: string)
    returns (errors: seq<string>, success: bool)
    modifies db
    ensures var row := UpdatedMember(id, f, status);
      && (success <==> refusal.None? && row.Some?)
      && (success ==> db.members == ReplaceMember(old(db.members), id, row.value) && errors == [])
      && (!success ==> db.members == old(db.members))
      && (refusal.Some? ==> errors == [AddPage.RefusalMessage(refusal.value, "Error updating member: ")])
      && (refusal.None? && row.None? ==> errors == [AddPage.RefusalMessage(dateRefusal, "Error updating member: ")])
    ensures db.trainers == old(db.trainers) && db.plans == old(db.plans)
  {
    errors := [];
    success := false;
    var row := UpdatedMember(id, f, status);
    if refusal.Some? {
      errors := [AddPage.RefusalMessage(refusal.value, "Error updating member: ")];
    } else if row.None? {
      errors := [AddPage.RefusalMessage(dateRefusal, "Error updating member: ")];
    } else {
      db.members := ReplaceMember(db.members, id, row.value);
      success := true;
    }
  }

  /** Lines 52-89: the checks of the add page, then the update, then the
      record read again. `item` is the record the page shows afterwards. */
  method EditMember(db: Database, id: int, f: AddPage.Form, status: string, isEmail: string -> bool,
                    refusal: Option<string>, dateRefusal: string)
    returns (item: MemberRow, errors: seq<string>, success: bool)
    requires FindMember(db.members, id).Some?
    modifies db
    ensures var checks := AddPage.MemberErrors(f.firstName, f.lastName, f.email, f.phone, f.membershipType, f.startDate, f.expiryDate, isEmail);
      var row := UpdatedMember(id, f, status);
      && (success <==> checks == [] && refusal.None? && row.Some?)
      && (success ==> db.members == ReplaceMember(old(db.members), id, row.value) && item == row.value && errors == [])
      && (!success ==> db.members == old(db.members) && item == FindMember(old(db.members), id).value && errors != [])
      && (checks != [] ==> errors == checks)
    ensures db.trainers == old(db.trainers) && db.plans == old(db.plans)
  {
    item := FindMember(db.members, id).value;
    errors := AddPage.MemberChecks(f, isEmail);
    success := false;
    if errors == [] {
      errors, success := UpdateMember(db, id, f, status, refusal, dateRefusal);
      if success {
        ReloadMember(old(db.members), id, UpdatedMember(id, f, status).value);
        item := FindMember(db.members, id).value;
      }
    }
  }

  /** The update and its `catch` (lines 117-133). */
  method UpdateTrainer(db: Database, id: int, f: AddPage.Form, status: string, refusal: Option<string>, dateRefusal: string)
    returns (errors: seq<string>, success: bool)
    modifies db
    ensures var row := UpdatedTrainer(id, f, status);
      && (success <==> refusal.None? && row.Some?)
      && (success ==> db.trainers == ReplaceTrainer(old(db.trainers), id, row.value) && errors == [])
      && (!success ==> db.trainers == old(db.trainers))
      && (refusal.Some? ==> errors == [AddPage.RefusalMessage(refusal.value, "Error updating trainer: ")])
      && (refusal.None? && row.None? ==> errors == [AddPage.RefusalMessage(dateRefusal, "Error updating trainer: ")])
    ensures db.members == old(db.members) && db.plans == old(db.plans)
  {
    errors := [];
    success := false;
    var row := UpdatedTrainer(id, f, status);
    if refusal.Some? {
      errors := [AddPage.RefusalMessage(refusal.value, "Error updating trainer: ")];
    } else if row.None? {
      errors := [AddPage.RefusalMessage(dateRefusal, "Error updating trainer: ")];
    } else {
      db.trainers := ReplaceTrainer(db.trainers, id, row.value);
      success := true;
    }
  }

  /** Lines 102-133: the trainer checks of the add page, then the update,
      then the record read again. */
  method EditTrainer(db: Database, id: int, f: AddPage.Form, status: string, isEmail: string -> bool,
                     refusal: Option<string>, dateRefusal: string)
    returns (item: TrainerRow, errors: seq<string>, success: bool)
    requires FindTrainer(db.trainers, id).Some?
    modifies db
    ensures var checks := AddPage.TrainerErrors(f.firstName, f.lastName, f.email, f.phone, f.hireDate, isEmail);
      var row := UpdatedTrainer(id, f, status);
      && (success <==> checks == [] && refusal.None? && row.Some?)
      && (success ==> db.trainers == ReplaceTrainer(old(db.trainers), id, row.value) && item == row.value && errors == [])
      && (!success ==> db.trainers == old(db.trainers) && item == FindTrainer(old(db.trainers), id).value && errors != [])
      && (checks != [] ==> errors == checks)
    ensures db.members == old(db.members) && db.plans == old(db.plans)
  {
    item := FindTrainer(db.trainers, id).value;
    errors := AddPage.TrainerChecks(f, isEmail);
    success := false;
    if errors == [] {
      errors, success := UpdateTrainer(db, id, f, status, refusal, dateRefusal);
      if success {
        ReloadTrainer(old(db.trainers), id, UpdatedTrainer(id, f, status).value);
        item := FindTrainer(db.trainers, id).value;
      }
    }
  }
}
