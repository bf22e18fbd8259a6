/** The membership lifecycle of `App\Models\Membership`: checking whether a
    member may train today (which lazily marks a lapsed membership
    `Expired`) and renewing a membership by whole months. The clock is the
    parameter `today`. */
module MembershipModel {
  import opened Options
  import opened Strings
  import opened Dates
  import opened Tables

  /** `Membership::getTypes()`. */
  function Types(): seq<string> {
    ["Basic", "Standard", "Premium"]
  }

  /** `Membership::getStatuses()`. */
  function Statuses(): seq<string> {
    ["Active", "Expired", "Suspended"]
  }

  /** The associative array `validateMembership` returns; `warning` is
      false where the source leaves the key out. */
  datatype Verdict = Verdict(valid: bool, message: string, warning: bool, member: Option<MemberRow>)

  /** `$expiryDate < $today`, a comparison of the two `Y-m-d` texts in
      which a NULL expiry reads as `''`. */
  predicate Lapsed(expiry: Option<CalendarDate>, today: CalendarDate) {
    Less(DateText(expiry), Format(today))
  }

  /** Whole days from `today` to the expiry date. */
  function DaysLeft(expiry: CalendarDate, today: CalendarDate): int {
    DayNumber(expiry) - DayNumber(today)
  }

  /** `date('M d, Y', strtotime($expiryDate))`; a NULL expiry makes
      `strtotime` fail, which `date` reads as the epoch. */
  function ExpiryText(expiry: Option<CalendarDate>): string {
    LongFormat(expiry.GetOr(Date(1970, 1, 1)))
  }

  /** The answer for the row `SELECT ... WHERE id = ?` fetched. */
  function Decide(found: Option<MemberRow>, today: CalendarDate): Verdict {
    if found.None? then Verdict(false, "Member not found", false, None)
    else
      var m := found.value;
      if m.status != "Active" then
        Verdict(false, "Membership is " + ToLower(m.status), false, found)
      else if Lapsed(m.expiryDate, today) then
        Verdict(false, "Membership expired on " + ExpiryText(m.expiryDate), false, found)
      else
        DateTextBefore(m.expiryDate, today);
        var days := DaysLeft(m.expiryDate.value, today);
        if days <= 7 then
          Verdict(true, "Membership expires in " + [DigitChar(days)] + " days", true, found)
        else
          Verdict(true, "Membership is valid until " + LongFormat(m.expiryDate.value), false, found)
  }

  /** `UPDATE members SET status = ? WHERE id = ?`. */
  function SetStatus(rows: seq<MemberRow>, id: int, status: string): (r: seq<MemberRow>)
    ensures |r| == |rows|
    ensures forall k :: 0 <= k < |rows| ==>
      r[k] == if rows[k].id == id then rows[k].(status := status) else rows[k]
  {
    seq(|rows|, k requires 0 <= k < |rows| =>
      if rows[k].id == id then rows[k].(status := status) else rows[k])
  }

  /** `validateMembership($memberId)`: the verdict and the members table afterwards. */
  function Validation(rows: seq<MemberRow>, id: int, today: CalendarDate): (seq<MemberRow>, Verdict) {
    var found := FindMember(rows, id);
    var v := Decide(found, today);
    if found.Some? && found.value.status == "Active" && Lapsed(found.value.expiryDate, today)
    then (SetStatus(rows, id, "Expired"), v)
    else (rows, v)
  }

  /** `Membership::validateMembership`, updating the table in place. */
  method ValidateMembership(db: Database, memberId: int, today: CalendarDate) returns (v: Verdict)
    modifies db
    ensures (db.members, v) == Validation(old(db.members), memberId, today)
    ensures db.trainers == old(db.trainers) && db.plans == old(db.plans)
  {
    var member := FindMember(db.members, memberId);
    if member.None? {
      return Verdict(false, "Member not found", false, None);
    }
    var m := member.value;
    if m.status != "Active" {
      return Verdict(false, "Membership is " + ToLower(m.status), false, member);
    }
    if Lapsed(m.expiryDate, today) {
      db.members := SetStatus(db.members, memberId, "Expired");
      return Verdict(false, "Membership expired on " + ExpiryText(m.expiryDate), false, member);
    }
    v := Decide(member, today);
  }

  // ---------------------------------------------------------------------
  // What validation promises

  /** An unknown id: not valid, "Member not found", nothing written. */
  lemma ValidateUnknown(rows: seq<MemberRow>, id: int, today: CalendarDate)
    requires forall k :: 0 <= k < |rows| ==> rows[k].id != id
    ensures Validation(rows, id, today).0 == rows
    ensures !Validation(rows, id, today).1.valid
    ensures Validation(rows, id, today).1.message == "Member not found"
  {
  }

  /** A status other than `Active` is refused whatever the expiry date, with
      the status lower-cased in the message, and nothing is written. */
  lemma ValidateInactive(rows: seq<MemberRow>, id: int, today: CalendarDate)
    requires FindMember(rows, id).Some? && FindMember(rows, id).value.status != "Active"
    ensures Validation(rows, id, today).0 == rows
    ensures !Validation(rows, id, today).1.valid
    ensures Validation(rows, id, today).1.message
      == "Membership is " + ToLower(FindMember(rows, id).value.status)
  {
  }

  /** An active membership whose expiry is missing or strictly before today
      is refused, and that member's rows — only they, and only their
      status — become `Expired`. */
  lemma ValidateLapsed(rows: seq<MemberRow>, id: int, today: CalendarDate)
    requires FindMember(rows, id).Some? && FindMember(rows, id).value.status == "Active"
    requires var e := FindMember(rows, id).value.expiryDate;
      e.None? || DayNumber(e.value) < DayNumber(today)
    ensures !Validation(rows, id, today).1.valid
    ensures Validation(rows, id, today).0 == SetStatus(rows, id, "Expired")
    ensures Validation(rows, id, today).0 != rows
  {
    var m := FindMember(rows, id).value;
    DateTextBefore(m.expiryDate, today);
    var k :| 0 <= k < |rows| && rows[k] == m;
    assert SetStatus(rows, id, "Expired")[k].status == "Expired";
  }

  /** An active membership expiring today or later is valid and nothing is
      written; it carries a warning exactly when at most 7 days are left. */
  lemma ValidateCurrent(rows: seq<MemberRow>, id: int, today: CalendarDate)
    requires FindMember(rows, id).Some? && FindMember(rows, id).value.status == "Active"
    requires var e := FindMember(rows, id).value.expiryDate;
      e.Some? && DayNumber(e.value) >= DayNumber(today)
    ensures Validation(rows, id, today).0 == rows
    ensures Validation(rows, id, today).1.valid
    ensures Validation(rows, id, today).1.warning
      <==> DaysLeft(FindMember(rows, id).value.expiryDate.value, today) <= 7
  {
    DateTextBefore(FindMember(rows, id).value.expiryDate, today);
  }

  /** The boundary: a membership expiring today is still valid (with a
      warning), one that expired yesterday is not. */
  lemma ValidateBoundary(rows: seq<MemberRow>, id: int, today: CalendarDate, yesterday: CalendarDate)
    requires FindMember(rows, id).Some? && FindMember(rows, id).value.status == "Active"
    requires DayNumber(yesterday) + 1 == DayNumber(today)
    ensures FindMember(rows, id).value.expiryDate == Some(today) ==>
      Validation(rows, id, today).1.valid && Validation(rows, id, today).1.warning
    ensures FindMember(rows, id).value.expiryDate == Some(yesterday) ==>
      !Validation(rows, id, today).1.valid
  {
    DateTextBefore(FindMember(rows, id).value.expiryDate, today);
  }

  /** Validation writes no status outside `getStatuses()`, and only `Active`
      — the first listed status — can be valid. */
  lemma ValidationStatuses(rows: seq<MemberRow>, id: int, today: CalendarDate)
    ensures var after := Validation(rows, id, today).0;
      |after| == |rows| &&
      forall k :: 0 <= k < |rows| && after[k] != rows[k] ==> after[k].status in Statuses()
    ensures Validation(rows, id, today).1.valid ==> FindMember(rows, id).value.status == Statuses()[0]
  {
  }

  // ---------------------------------------------------------------------
  // Renewal

  /** The day the new period counts from: today for a lapsed (or missing)
      expiry, else the current expiry. */
  function Anchor(expiry: Option<CalendarDate>, today: CalendarDate): CalendarDate {
    if Lapsed(expiry, today) then today else expiry.value
  }

  /** The anchor is the later of the current expiry and today. */
  lemma AnchorIsLater(expiry: Option<CalendarDate>, today: CalendarDate)
    ensures expiry.None? ==> Anchor(expiry, today) == today
    ensures expiry.Some? ==>
      DayNumber(Anchor(expiry, today)) == Max(DayNumber(expiry.value), DayNumber(today))
    ensures expiry.Some? ==> Anchor(expiry, today) in {expiry.value, today}
  {
    DateTextBefore(expiry, today);
  }

  function Max(a: int, b: int): int {
    if a < b then b else a
  }

  /** `strtotime("$startDate +$months months")`. */
  function NewExpiry(expiry: Option<CalendarDate>, today: CalendarDate, months: nat): Date {
    AddMonths(Anchor(expiry, today), months)
  }

  /** What `renewMembership` reports: `false` for an unknown member, `true`
      after the update, or an exception from the database when the new date
      is past year 9999, which a DATE column cannot hold. */
  datatype RenewOutcome = NotFound | Renewed | Rejected

  /** `UPDATE members SET membership_expiry_date = ?, status = 'Active' WHERE id = ?`. */
  function SetRenewed(rows: seq<MemberRow>, id: int, expiry: CalendarDate): (r: seq<MemberRow>)
    ensures |r| == |rows|
    ensures forall k :: 0 <= k < |rows| ==>
      r[k] == if rows[k].id == id then rows[k].(expiryDate := Some(expiry), status := "Active") else rows[k]
  {
    seq(|rows|, k requires 0 <= k < |rows| =>
      if rows[k].id == id then rows[k].(expiryDate := Some(expiry), status := "Active") else rows[k])
  }

  /** `renewMembership($memberId, $months)`: the outcome and the table afterwards. */
  function Renewal(rows: seq<MemberRow>, id: int, months: nat, today: CalendarDate): (seq<MemberRow>, RenewOutcome) {
    var found := FindMember(rows, id);
    if found.None? then (rows, NotFound)
    else
      var e := NewExpiry(found.value.expiryDate, today, months);
      if !Valid(e) then (rows, Rejected)
      else (SetRenewed(rows, id, e), Renewed)
  }

  /** `Membership::renewMembership`, updating the table in place. */
  method RenewMembership(db: Database, memberId: int, months: nat, today: CalendarDate) returns (outcome: RenewOutcome)
    modifies db
    ensures (db.members, outcome) == Renewal(old(db.members), memberId, months, today)
    ensures db.trainers == old(db.trainers) && db.plans == old(db.plans)
  {
    var member := FindMember(db.members, memberId);
    if member.None? {
      return NotFound;
    }
    var anchor := if Lapsed(member.value.expiryDate, today) then today else member.value.expiryDate.value;
    var newExpiry := AddMonths(anchor, months);
    if !Valid(newExpiry) {
      return Rejected;
    }
    db.members := SetRenewed(db.members, memberId, newExpiry);
    outcome := Renewed;
  }

  /** Renewing an unknown member reports failure and changes nothing. */
  lemma RenewUnknown(rows: seq<MemberRow>, id: int, months: nat, today: CalendarDate)
    requires forall k :: 0 <= k < |rows| ==> rows[k].id != id
    ensures Renewal(rows, id, months, today) == (rows, NotFound)
  {
  }

  /** A renewal by `n >= 1` months ends strictly after the anchor, hence
      strictly after both today and the previous expiry; and the renewed
      member is `Active` with exactly that expiry, no other row or field
      changing. */
  lemma RenewExtends(rows: seq<MemberRow>, id: int, months: nat, today: CalendarDate)
    requires FindMember(rows, id).Some?
    requires months >= 1
    requires Renewal(rows, id, months, today).1 == Renewed
    ensures var m := FindMember(rows, id).value;
      var e := NewExpiry(m.expiryDate, today, months);
      && DayNumber(e) > DayNumber(Anchor(m.expiryDate, today))
      && DayNumber(e) > DayNumber(today)
      && (m.expiryDate.Some? ==> DayNumber(e) > DayNumber(m.expiryDate.value))
      && forall k :: 0 <= k < |rows| ==>
           Renewal(rows, id, months, today).0[k]
             == if rows[k].id == id then rows[k].(expiryDate := Some(e), status := "Active") else rows[k]
  {
    var m := FindMember(rows, id).value;
    var a := Anchor(m.expiryDate, today);
    AnchorIsLater(m.expiryDate, today);
    AddMonthsLater(a, months);
  }

  /** Renewing for zero months re-activates the member with the anchor as expiry. */
  lemma RenewZeroMonths(rows: seq<MemberRow>, id: int, today: CalendarDate)
    requires FindMember(rows, id).Some?
    ensures var m := FindMember(rows, id).value;
      Renewal(rows, id, 0, today) == (SetRenewed(rows, id, Anchor(m.expiryDate, today)), Renewed)
  {
    var m := FindMember(rows, id).value;
    AddZeroMonths(Anchor(m.expiryDate, today));
  }

  /** A lapsed membership (expired 2024-01-15) renewed on 2024-02-01 for one
      month runs from today, to 2024-03-01. */
  lemma RenewLapsedExample()
    ensures NewExpiry(Some(Date(2024, 1, 15)), Date(2024, 2, 1), 1) == Date(2024, 3, 1)
  {
    RenewExample(Date(2024, 1, 15), Date(2024, 2, 1), 1, Date(2024, 3, 1));
  }

  /** A current membership (to 2024-06-30) renewed on 2024-02-01 for one
      month runs from its expiry, to 2024-07-30. */
  lemma RenewCurrentExample()
    ensures NewExpiry(Some(Date(2024, 6, 30)), Date(2024, 2, 1), 1) == Date(2024, 7, 30)
  {
    RenewExample(Date(2024, 6, 30), Date(2024, 2, 1), 1, Date(2024, 7, 30));
  }

  /** A renewal counts from the later of expiry and today in calendar order. */
  lemma RenewExample(expiry: CalendarDate, today: CalendarDate, months: nat, expected: Date)
    requires Valid(expiry) && Valid(today)
    requires expected == AddMonths(if Before(expiry, today) then today else expiry, months)
    ensures NewExpiry(Some(expiry), today, months) == expected
  {
    FormatOrder(expiry, today);
  }
}
