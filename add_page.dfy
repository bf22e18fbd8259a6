/** The legacy "add member / add trainer" page (`public/add.php`): it
    settles which kind of record is added, reads and sanitises the posted
    form, collects the validation messages in a fixed order, inserts only
    when there are none, empties the form after a successful insert and
    turns a database refusal into a message. The rules for the messages are
    shared with the edit page. `filter_var`'s e-mail check is the parameter
    `isEmail`; the database's answer to the insert is the parameter
    `refusal` (the text of the exception it raises, if any), and
    `dateRefusal` is the text of the exception it raises for date text a
    DATE column does not accept. The column default of `status` is
    `defaultStatus`. */
module AddPage {
  import opened Options
  import opened Strings
  import opened Dates
  import opened Tables
  import opened Requests
  import Helpers

  // ---------------------------------------------------------------------
  // Kind of record

  /** Lines 10-13: `sanitizeInput($_GET['type'])`, or `member` when it is
      missing or names neither kind. */
  method NormaliseType(query: Params) returns (kind: string)
    ensures kind == "member" || kind == "trainer"
    ensures kind == "trainer" <==> "type" in query && Helpers.SanitizeInput(query["type"]) == "trainer"
  {
    kind := if "type" in query then Helpers.SanitizeInput(query["type"]) else "member";
    if kind != "member" && kind != "trainer" {
      kind := "member";
    }
  }

  // ---------------------------------------------------------------------
  // Validation messages (also used by the edit page)

  /** `if (empty($value)) $errors[] = $message;` */
  function Required(value: string, message: string): (r: seq<string>)
    ensures r == [] <==> !IsEmpty(value)
    ensures r != [] ==> r == [message]
  {
    if IsEmpty(value) then [message] else []
  }

  /** The e-mail check: required, and otherwise well-formed. */
  function EmailErrors(email: string, isEmail: string -> bool): (r: seq<string>)
    ensures r == [] <==> !IsEmpty(email) && isEmail(email)
  {
    if IsEmpty(email) then ["Email is required."]
    else if !isEmail(email) then ["Invalid email format."]
    else []
  }

  /** The phone check: required, and otherwise `validatePhone`. */
  function PhoneErrors(phone: string): (r: seq<string>)
    ensures r == [] <==> !IsEmpty(phone) && Helpers.ValidatePhone(phone)
  {
    if IsEmpty(phone) then ["Phone is required."]
    else if !Helpers.ValidatePhone(phone) then ["Invalid phone format."]
    else []
  }

  /** The checks members and trainers share, in the order they run. */
  function ContactErrors(first: string, last: string, email: string, phone: string, isEmail: string -> bool): seq<string> {
    Required(first, "First name is required.") + Required(last, "Last name is required.")
      + EmailErrors(email, isEmail) + PhoneErrors(phone)
  }

  /** The messages for a member, in the order the page appends them. */
  function MemberErrors(first: string, last: string, email: string, phone: string,
                        membershipType: string, start: string, expiry: string, isEmail: string -> bool): seq<string> {
    ContactErrors(first, last, email, phone, isEmail)
      + Required(membershipType, "Membership type is required.")
      + Required(start, "Membership start date is required.")
      + Required(expiry, "Membership expiry date is required.")
  }

  /** The messages for a trainer: the shared checks, then the hire date. */
  function TrainerErrors(first: string, last: string, email: string, phone: string,
                         hire: string, isEmail: string -> bool): seq<string> {
    ContactErrors(first, last, email, phone, isEmail) + Required(hire, "Hire date is required.")
  }

  /** The shared checks report nothing iff every one of them passes, and at
      most one message per field. */
  lemma ContactErrorsMeaning(first: string, last: string, email: string, phone: string, isEmail: string -> bool)
    ensures var errs := ContactErrors(first, last, email, phone, isEmail);
      && |errs| <= 4
      && (errs == [] <==> !IsEmpty(first) && !IsEmpty(last) && !IsEmpty(email) && isEmail(email)
                          && !IsEmpty(phone) && Helpers.ValidatePhone(phone))
  {
  }

  /** Each name message is reported exactly when its name is empty. */
  lemma NameMessages(first: string, last: string, email: string, phone: string, isEmail: string -> bool)
    ensures var errs := ContactErrors(first, last, email, phone, isEmail);
      && ("First name is required." in errs <==> IsEmpty(first))
      && ("Last name is required." in errs <==> IsEmpty(last))
  {
  }

  /** An e-mail is reported missing or malformed, never both. */
  lemma EmailMessages(first: string, last: string, email: string, phone: string, isEmail: string -> bool)
    ensures var errs := ContactErrors(first, last, email, phone, isEmail);
      && ("Email is required." in errs <==> IsEmpty(email))
      && ("Invalid email format." in errs <==> !IsEmpty(email) && !isEmail(email))
  {
    MessagesDiffer();
    var names := Required(first, "First name is required.") + Required(last, "Last name is required.");
    var e, p := EmailErrors(email, isEmail), PhoneErrors(phone);
    assert ContactErrors(first, last, email, phone, isEmail) == names + e + p;
    assert "Email is required." !in names && "Invalid email format." !in names;
    assert "Email is required." !in p && "Invalid email format." !in p;
  }

  /** A phone number is reported missing or malformed, never both. */
  lemma PhoneMessages(first: string, last: string, email: string, phone: string, isEmail: string -> bool)
    ensures var errs := ContactErrors(first, last, email, phone, isEmail);
      && ("Phone is required." in errs <==> IsEmpty(phone))
      && ("Invalid phone format." in errs <==> !IsEmpty(phone) && !Helpers.ValidatePhone(phone))
  {
    MessagesDiffer();
    var names := Required(first, "First name is required.") + Required(last, "Last name is required.");
    var e, p := EmailErrors(email, isEmail), PhoneErrors(phone);
    assert ContactErrors(first, last, email, phone, isEmail) == names + e + p;
    assert "Phone is required." !in names && "Invalid phone format." !in names;
    assert "Phone is required." !in e && "Invalid phone format." !in e;
  }

  /** The e-mail and phone messages are told apart by their second word. */
  lemma MessagesDiffer()
    ensures "Email is required." != "Phone is required."
    ensures "Invalid email format." != "Invalid phone format."
  {
    assert "Email is required."[0] != "Phone is required."[0];
    assert "Invalid email format."[8] != "Invalid phone format."[8];
  }

  /** A member passes iff the shared checks pass and the membership type,
      start date and expiry date are all given. */
  lemma MemberErrorsEmpty(first: string, last: string, email: string, phone: string,
                          membershipType: string, start: string, expiry: string, isEmail: string -> bool)
    ensures MemberErrors(first, last, email, phone, membershipType, start, expiry, isEmail) == [] <==>
      ContactErrors(first, last, email, phone, isEmail) == []
      && !IsEmpty(membershipType) && !IsEmpty(start) && !IsEmpty(expiry)
    ensures |MemberErrors(first, last, email, phone, membershipType, start, expiry, isEmail)| <= 7
  {
    ContactErrorsMeaning(first, last, email, phone, isEmail);
  }

  /** A trainer passes iff the shared checks pass and a hire date is given. */
  lemma TrainerErrorsEmpty(first: string, last: string, email: string, phone: string, hire: string, isEmail: string -> bool)
    ensures TrainerErrors(first, last, email, phone, hire, isEmail) == [] <==>
      ContactErrors(first, last, email, phone, isEmail) == [] && !IsEmpty(hire)
    ensures |TrainerErrors(first, last, email, phone, hire, isEmail)| <= 5
  {
    ContactErrorsMeaning(first, last, email, phone, isEmail);
  }

  /** The message for a refused insert or update: a duplicate key (the
      unique e-mail) gets a fixed message; anything else is shown after the
      page's own prefix. */
  function RefusalMessage(message: string, prefix: string): (r: string)
    ensures Contains(message, "Duplicate entry") ==> r == "Email already exists. Please use a different email."
    ensures !Contains(message, "Duplicate entry") ==> IsPrefix(prefix, r) && r[|prefix|..] == message
  {
    if Contains(message, "Duplicate entry") then "Email already exists. Please use a different email."
    else prefix + message
  }

  // ---------------------------------------------------------------------
  // The form

  /** `$form`: the fifteen fields the template shows. */
  datatype Form = Form(
    firstName: string, lastName: string, email: string, phone: string,
    membershipType: string, startDate: string, expiryDate: string,
    birthDate: string, address: string, emergencyName: string, emergencyPhone: string,
    specialization: string, experienceYears: string, certification: string, hireDate: string)

  /** Lines 20-25 and 70-75: every field `''`. */
  function EmptyForm(): Form {
    Form("", "", "", "", "", "", "", "", "", "", "", "", "", "", "")
  }

  /** `sanitizeInput($_POST[$key] ?? '')`. */
  function Posted(post: Params, key: string): string {
    Helpers.SanitizeInput(Field(post, key))
  }

  /** Lines 29-39: the member fields read from the post; the rest stay `''`. */
  function MemberForm(post: Params): Form {
    EmptyForm().(firstName := Posted(post, "first_name"), lastName := Posted(post, "last_name"),
                 email := Posted(post, "email"), phone := Posted(post, "phone"),
                 membershipType := Posted(post, "membership_type"),
                 startDate := Posted(post, "membership_start_date"),
                 expiryDate := Posted(post, "membership_expiry_date"),
                 birthDate := Posted(post, "date_of_birth"), address := Posted(post, "address"),
                 emergencyName := Posted(post, "emergency_contact_name"),
                 emergencyPhone := Posted(post, "emergency_contact_phone"))
  }

  /** Lines 85-92: the trainer fields read from the post; the rest stay `''`. */
  function TrainerForm(post: Params): Form {
    EmptyForm().(firstName := Posted(post, "first_name"), lastName := Posted(post, "last_name"),
                 email := Posted(post, "email"), phone := Posted(post, "phone"),
                 specialization := Posted(post, "specialization"),
                 experienceYears := Posted(post, "experience_years"),
                 certification := Posted(post, "certification"),
                 hireDate := Posted(post, "hire_date"))
  }

  /** The member row the insert of lines 59-68 stores, or `None` when a
      date is text the DATE column refuses. Optional texts that are PHP-empty
      are stored as NULL; `status` is left to the column default. */
  function InsertedMember(rows: seq<MemberRow>, f: Form, defaultStatus: string): (r: Option<MemberRow>)
    ensures r.Some? ==>
      && r.value.id !in MemberIds(rows)
      && r.value.firstName == f.firstName && r.value.lastName == f.lastName
      && r.value.email == f.email && r.value.phone == f.phone
      && r.value.status == defaultStatus
      && r.value.membershipType == f.membershipType
      && r.value.startDate.Some? && Format(r.value.startDate.value) == f.startDate
      && r.value.expiryDate.Some? && Format(r.value.expiryDate.value) == f.expiryDate
      && r.value.address == EmptyToNull(f.address)
      && (r.value.birthDate.None? <==> IsEmpty(f.birthDate))
      && (r.value.birthDate.Some? ==> Format(r.value.birthDate.value) == f.birthDate)
      && r.value.emergencyName == EmptyToNull(f.emergencyName)
      && r.value.emergencyPhone == EmptyToNull(f.emergencyPhone)
    ensures r.None? <==>
      ParseDate(f.startDate).None? || ParseDate(f.expiryDate).None?
      || (!IsEmpty(f.birthDate) && ParseDate(f.birthDate).None?)
  {
    var start := DateColumn(Some(f.startDate));
    var expiry := DateColumn(Some(f.expiryDate));
    var birth := DateColumn(EmptyToNull(f.birthDate));
    if start.BadDate? || expiry.BadDate? || birth.BadDate? then None
    else Some(MemberRow(NextId(MemberIds(rows)), f.firstName, f.lastName, f.email, f.phone, f.membershipType,
                        DateValue(start), DateValue(expiry), defaultStatus,
                        EmptyToNull(f.address), DateValue(birth),
                        EmptyToNull(f.emergencyName), EmptyToNull(f.emergencyPhone)))
  }

  /** The trainer row the insert of lines 110-116 stores, or `None` when
      the hire date is text the DATE column refuses. */
  function InsertedTrainer(rows: seq<TrainerRow>, f: Form, defaultStatus: string): (r: Option<TrainerRow>)
    ensures r.Some? ==>
      && r.value.id !in TrainerIds(rows)
      && r.value.firstName == f.firstName && r.value.lastName == f.lastName
      && r.value.email == f.email && r.value.phone == f.phone
      && r.value.status == defaultStatus
      && r.value.hireDate.Some? && Format(r.value.hireDate.value) == f.hireDate
      && r.value.specialization == EmptyToNull(f.specialization)
      && r.value.experienceYears == EmptyToNull(f.experienceYears)
      && r.value.certification == EmptyToNull(f.certification)
    ensures r.None? <==> ParseDate(f.hireDate).None?
  {
    var hire := DateColumn(Some(f.hireDate));
    if hire.BadDate? then None
    else Some(TrainerRow(NextId(TrainerIds(rows)), f.firstName, f.lastName, f.email, f.phone,
                         EmptyToNull(f.specialization), EmptyToNull(f.experienceYears),
                         EmptyToNull(f.certification), DateValue(hire), defaultStatus))
  }

  // ---------------------------------------------------------------------
  // The page

  /** Lines 29-39: the member fields, assigned one by one. */
  method ReadMemberForm(post: Params) returns (form: Form)
    ensures form == MemberForm(post)
  {
    form := EmptyForm();
    form := form.(firstName := Posted(post, "first_name"));
    form := form.(lastName := Posted(post, "last_name"));
    form := form.(email := Posted(post, "email"));
    form := form.(phone := Posted(post, "phone"));
    form := form.(membershipType := Posted(post, "membership_type"));
    form := form.(startDate := Posted(post, "membership_start_date"));
    form := form.(expiryDate := Posted(post, "membership_expiry_date"));
    form := form.(birthDate := Posted(post, "date_of_birth"));
    form := form.(address := Posted(post, "address"));
    form := form.(emergencyName := Posted(post, "emergency_contact_name"));
    form := form.(emergencyPhone := Posted(post, "emergency_contact_phone"));
  }

  /** Lines 41-55: the member checks, appended in order. */
  method MemberChecks(f: Form, isEmail: string -> bool) returns (errors: seq<string>)
    ensures errors == MemberErrors(f.firstName, f.lastName, f.email, f.phone, f.membershipType, f.startDate, f.expiryDate, isEmail)
  {
    errors := ContactChecks(f.firstName, f.lastName, f.email, f.phone, isEmail);
    ghost var before := errors;
    if IsEmpty(f.membershipType) { errors := errors + ["Membership type is required."]; }
    assert errors == before + Required(f.membershipType, "Membership type is required.");
    before := errors;
    if IsEmpty(f.startDate) { errors := errors + ["Membership start date is required."]; }
    assert errors == before + Required(f.startDate, "Membership start date is required.");
    before := errors;
    if IsEmpty(f.expiryDate) { errors := errors + ["Membership expiry date is required."]; }
    assert errors == before + Required(f.expiryDate, "Membership expiry date is required.");
  }

  /** Lines 85-92: the trainer fields, assigned one by one. */
  method ReadTrainerForm(post: Params) returns (form: Form)
    ensures form == TrainerForm(post)
  {
    form := EmptyForm();
    form := form.(firstName := Posted(post, "first_name"));
    form := form.(lastName := Posted(post, "last_name"));
    form := form.(email := Posted(post, "email"));
    form := form.(phone := Posted(post, "phone"));
    form := form.(specialization := Posted(post, "specialization"));
    form := form.(experienceYears := Posted(post, "experience_years"));
    form := form.(certification := Posted(post, "certification"));
    form := form.(hireDate := Posted(post, "hire_date"));
  }

  /** Lines 94-106: the trainer checks, appended in order. */
  method TrainerChecks(f: Form, isEmail: string -> bool) returns (errors: seq<string>)
    ensures errors == TrainerErrors(f.firstName, f.lastName, f.email, f.phone, f.hireDate, isEmail)
  {
    errors := ContactChecks(f.firstName, f.lastName, f.email, f.phone, isEmail);
    if IsEmpty(f.hireDate) { errors := errors + ["Hire date is required."]; }
  }

  /** The insert and its `catch`: on success the row is stored and the
      form emptied; a refusal leaves the table and the form as they were and
      reports one message. */
  method InsertMember(db: Database, f: Form, defaultStatus: string, refusal: Option<string>, dateRefusal: string)
    returns (form: Form, errors: seq<string>, success: bool)
    modifies db
    ensures var row := InsertedMember(old(db.members), f, defaultStatus);
      && (success <==> refusal.None? && row.Some?)
      && (success ==> db.members == old(db.members) + [row.value] && form == EmptyForm() && errors == [])
      && (!success ==> db.members == old(db.members) && form == f)
      && (refusal.Some? ==> errors == [RefusalMessage(refusal.value, "Error adding member: ")])
      && (refusal.None? && row.None? ==> errors == [RefusalMessage(dateRefusal, "Error adding member: ")])
    ensures db.trainers == old(db.trainers) && db.plans == old(db.plans)
  {
    form := f;
    errors := [];
    success := false;
    var row := InsertedMember(db.members, f, defaultStatus);
    if refusal.Some? {
      errors := [RefusalMessage(refusal.value, "Error adding member: ")];
    } else if row.None? {
      errors := [RefusalMessage(dateRefusal, "Error adding member: ")];
    } else {
      db.members := db.members + [row.value];
      success := true;
      form := EmptyForm();
    }
  }

  /** Lines 41-83: the checks and the insert for a posted member. */
  method AddMember(db: Database, f: Form, isEmail: string -> bool, defaultStatus: string, refusal: Option<string>, dateRefusal: string)
    returns (form: Form, errors: seq<string>, success: bool)
    modifies db
    ensures var checks := MemberErrors(f.firstName, f.lastName, f.email, f.phone, f.membershipType, f.startDate, f.expiryDate, isEmail);
      var row := InsertedMember(old(db.members), f, defaultStatus);
      && (success <==> checks == [] && refusal.None? && row.Some?)
      && (success ==> db.members == old(db.members) + [row.value] && form == EmptyForm() && errors == [])
      && (!success ==> db.members == old(db.members) && form == f)
      && (checks != [] ==> errors == checks)
      && (checks == [] && refusal.Some? ==> errors == [RefusalMessage(refusal.value, "Error adding member: ")])
      && (checks == [] && refusal.None? && row.None? ==> errors == [RefusalMessage(dateRefusal, "Error adding member: ")])
    ensures success ==> errors == [] && form == EmptyForm()
    ensures db.trainers == old(db.trainers) && db.plans == old(db.plans)
  {
    form := f;
    errors := MemberChecks(f, isEmail);
    success := false;
    if errors == [] {
      form, errors, success := InsertMember(db, form, defaultStatus, refusal, dateRefusal);
    }
  }

  /** Lines 41-52 (and 94-105): the shared checks, appended one by one. */
  method ContactChecks(first: string, last: string, email: string, phone: string, isEmail: string -> bool)
    returns (errors: seq<string>)
    ensures errors == ContactErrors(first, last, email, phone, isEmail)
  {
    errors := [];
    if IsEmpty(first) { errors := errors + ["First name is required."]; }
    assert errors == Required(first, "First name is required.");
    ghost var before := errors;
    if IsEmpty(last) { errors := errors + ["Last name is required."]; }
    assert errors == before + Required(last, "Last name is required.");
    before := errors;
    if IsEmpty(email) {
      errors := errors + ["Email is required."];
    } else if !isEmail(email) {
      errors := errors + ["Invalid email format."];
    }
    assert errors == before + EmailErrors(email, isEmail);
    before := errors;
    if IsEmpty(phone) {
      errors := errors + ["Phone is required."];
    } else if !Helpers.ValidatePhone(phone) {
      errors := errors + ["Invalid phone format."];
    }
    assert errors == before + PhoneErrors(phone);
  }

  /** The insert and its `catch`: on success the row is stored and the
      form emptied; a refusal leaves the table and the form as they were and
      reports one message. */
  method InsertTrainer(db: Database, f: Form, defaultStatus: string, refusal: Option<string>, dateRefusal: string)
    returns (form: Form, errors: seq<string>, success: bool)
    modifies db
    ensures var row := InsertedTrainer(old(db.trainers), f, defaultStatus);
      && (success <==> refusal.None? && row.Some?)
      && (success ==> db.trainers == old(db.trainers) + [row.value] && form == EmptyForm() && errors == [])
      && (!success ==> db.trainers == old(db.trainers) && form == f)
      && (refusal.Some? ==> errors == [RefusalMessage(refusal.value, "Error adding trainer: ")])
      && (refusal.None? && row.None? ==> errors == [RefusalMessage(dateRefusal, "Error adding trainer: ")])
    ensures db.members == old(db.members) && db.plans == old(db.plans)
  {
    form := f;
    errors := [];
    success := false;
    var row := InsertedTrainer(db.trainers, f, defaultStatus);
    if refusal.Some? {
      errors := [RefusalMessage(refusal.value, "Error adding trainer: ")];
    } else if row.None? {
      errors := [RefusalMessage(dateRefusal, "Error adding trainer: ")];
    } else {
      db.trainers := db.trainers + [row.value];
      success := true;
      form := EmptyForm();
    }
  }

  /** Lines 94-131: the checks and the insert for a posted trainer. */
  method AddTrainer(db: Database, f: Form, isEmail: string -> bool, defaultStatus: string, refusal: Option<string>, dateRefusal: string)
    returns (form: Form, errors: seq<string>, success: bool)
    modifies db
    ensures var checks := TrainerErrors(f.firstName, f.lastName, f.email, f.phone, f.hireDate, isEmail);
      var row := InsertedTrainer(old(db.trainers), f, defaultStatus);
      && (success <==> checks == [] && refusal.None? && row.Some?)
      && (success ==> db.trainers == old(db.trainers) + [row.value] && form == EmptyForm() && errors == [])
      && (!success ==> db.trainers == old(db.trainers) && form == f)
      && (checks != [] ==> errors == checks)
      && (checks == [] && refusal.Some? ==> errors == [RefusalMessage(refusal.value, "Error adding trainer: ")])
      && (checks == [] && refusal.None? && row.None? ==> errors == [RefusalMessage(dateRefusal, "Error adding trainer: ")])
    ensures success ==> errors == [] && form == EmptyForm()
    ensures db.members == old(db.members) && db.plans == old(db.plans)
  {
    form := f;
    errors := TrainerChecks(f, isEmail);
    success := false;
    if errors == [] {
      form, errors, success := InsertTrainer(db, form, defaultStatus, refusal, dateRefusal);
    }
  }
}
