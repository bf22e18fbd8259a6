/** The procedural helpers of `includes/functions.php` used by the pages
    under `public/`: output escaping and input sanitising, the phone check,
    the expiry test on a date text, the read-only membership check, the
    e-mail uniqueness probe and the two member searches. Database errors
    that the helpers swallow are the parameter `dbFails` where the result
    depends on them. */
module Helpers {
  import opened Options
  import opened Strings
  import opened Dates
  import opened Tables
  import opened Sorting
  import MembershipModel

  // ---------------------------------------------------------------------
  // escape / sanitizeInput

  /** The characters `htmlspecialchars(..., ENT_QUOTES)` rewrites. */
  predicate IsHtmlSpecial(c: char) {
    c == '&' || c == '"' || c == '\'' || c == '<' || c == '>'
  }

  /** A character that cannot appear raw in escaped output. */
  predicate IsMarkup(c: char) {
    c == '"' || c == '\'' || c == '<' || c == '>'
  }

  function EscapeChar(c: char): string {
    if c == '&' then "&amp;"
    else if c == '"' then "&quot;"
    else if c == '\'' then "&#039;"
    else if c == '<' then "&lt;"
    else if c == '>' then "&gt;"
    else [c]
  }

  /** `escape($s)`: no quote or angle bracket survives, and text without
      special characters is unchanged. */
  function Escape(s: string): (r: string)
    ensures forall i :: 0 <= i < |r| ==> !IsMarkup(r[i])
    ensures (forall i :: 0 <= i < |s| ==> !IsHtmlSpecial(s[i])) ==> r == s
  {
    if |s| == 0 then "" else EscapeChar(s[0]) + Escape(s[1..])
  }

  /** Decoding the five entities `escape` produces (`htmlspecialchars_decode`). */
  function Unescape(s: string): string {
    if |s| == 0 then ""
    else if s[0] != '&' then [s[0]] + Unescape(s[1..])
    else if IsPrefix("&amp;", s) then "&" + Unescape(s[5..])
    else if IsPrefix("&quot;", s) then "\"" + Unescape(s[6..])
    else if IsPrefix("&#039;", s) then "'" + Unescape(s[6..])
    else if IsPrefix("&lt;", s) then "<" + Unescape(s[4..])
    else if IsPrefix("&gt;", s) then ">" + Unescape(s[4..])
    else [s[0]] + Unescape(s[1..])
  }

  /** Decoding one escaped character in front of the rest of the text. */
  lemma UnescapeFront(c: char, rest: string)
    ensures Unescape(EscapeChar(c) + rest) == [c] + Unescape(rest)
  {
    var e := EscapeChar(c);
    var x := e + rest;
    assert x[|e|..] == rest;
    if c == '&' {
      assert x[..5] == "&amp;";
    } else if c == '"' {
      UnescapeEntity(x, "&quot;", rest);
    } else if c == '\'' {
      UnescapeEntity(x, "&#039;", rest);
    } else if c == '<' {
      UnescapeEntity(x, "&lt;", rest);
    } else if c == '>' {
      UnescapeEntity(x, "&gt;", rest);
    } else {
      assert x[0] == c;
    }
  }

  /** The entity at the front is the one that is decoded. */
  lemma UnescapeEntity(x: string, entity: string, rest: string)
    requires entity in {"&quot;", "&#039;", "&lt;", "&gt;"}
    requires x == entity + rest
    ensures !IsPrefix("&amp;", x)
    ensures entity != "&quot;" ==> !IsPrefix("&quot;", x)
    ensures entity == "&lt;" || entity == "&gt;" ==> !IsPrefix("&#039;", x)
    ensures entity == "&gt;" ==> !IsPrefix("&lt;", x)
    ensures IsPrefix(entity, x) && x[|entity|..] == rest
  {
    assert x[1] == entity[1];
    assert x[..|entity|] == entity;
  }

  /** Escaping loses nothing: decoding gives back the original text. */
  lemma {:induction false} EscapeRoundTrip(s: string)
    ensures Unescape(Escape(s)) == s
  {
    if |s| > 0 {
      EscapeRoundTrip(s[1..]);
      UnescapeFront(s[0], Escape(s[1..]));
      assert s == [s[0]] + s[1..];
    }
  }

  /** PHP `stripslashes`: a backslash quotes the next character (`\0` is
      NUL); a trailing lone backslash disappears. */
  function StripSlashes(s: string): (r: string)
    ensures '\\' !in s ==> r == s
  {
    if |s| == 0 then ""
    else if s[0] == '\\' then
      if |s| == 1 then ""
      else (if s[1] == '0' then "\0" else [s[1]]) + StripSlashes(s[2..])
    else [s[0]] + StripSlashes(s[1..])
  }

  /** PHP `addslashes`, the quoting `stripslashes` undoes: a backslash
      before `'`, `"` and `\`, and NUL written as `\0`. */
  function AddSlashes(s: string): (r: string)
    ensures |r| >= |s|
  {
    if |s| == 0 then ""
    else
      var c := s[0];
      (if c == '\0' then "\\0"
       else if c == '\'' || c == '"' || c == '\\' then ['\\', c]
       else [c]) + AddSlashes(s[1..])
  }

  /** `stripslashes` takes back exactly what `addslashes` added. */
  lemma {:induction false} StripSlashesUndoesAddSlashes(s: string)
    ensures StripSlashes(AddSlashes(s)) == s
  {
    if |s| > 0 {
      StripSlashesUndoesAddSlashes(s[1..]);
      var c := s[0];
      var rest := AddSlashes(s[1..]);
      if c == '\0' || c == '\'' || c == '"' || c == '\\' {
        var q := if c == '\0' then '0' else c;
        assert AddSlashes(s) == ['\\', q] + rest;
        assert (['\\', q] + rest)[2..] == rest;
      } else {
        assert AddSlashes(s) == [c] + rest;
        assert ([c] + rest)[1..] == rest;
      }
      assert s == [c] + s[1..];
    }
  }

  /** `sanitizeInput($s)`: trimmed, unquoted and escaped. */
  function SanitizeInput(s: string): string {
    Escape(StripSlashes(Trim(s)))
  }

  /** The result of `sanitizeInput` holds no quote or angle bracket, and
      trimmed text with no special character and no backslash passes
      unchanged. */
  lemma SanitizeInputSafe(s: string)
    ensures forall i :: 0 <= i < |SanitizeInput(s)| ==> !IsMarkup(SanitizeInput(s)[i])
    ensures ('\\' !in Trim(s) && forall i :: 0 <= i < |Trim(s)| ==> !IsHtmlSpecial(Trim(s)[i]))
      ==> SanitizeInput(s) == Trim(s)
  {
  }

  // ---------------------------------------------------------------------
  // validatePhone

  /** What `preg_replace('/[-\s()]/', '', $phone)` deletes. */
  predicate IsPhoneFiller(c: char) {
    c == '-' || c == '(' || c == ')' || IsJsSpace(c)
  }

  function StripFillers(s: string): (r: string)
    ensures |r| <= |s|
    ensures forall i :: 0 <= i < |r| ==> !IsPhoneFiller(r[i])
  {
    if |s| == 0 then ""
    else if IsPhoneFiller(s[0]) then StripFillers(s[1..])
    else [s[0]] + StripFillers(s[1..])
  }

  function DigitCount(s: string): nat {
    if |s| == 0 then 0 else (if IsDigit(s[0]) then 1 else 0) + DigitCount(s[1..])
  }

  /** `validatePhone($phone)`: `^\d{10,}$` after deleting the fillers. */
  predicate ValidatePhone(s: string) {
    var t := StripFillers(s);
    |t| >= 10 && forall i :: 0 <= i < |t| ==> IsDigit(t[i])
  }

  predicate AllDigits(s: string) {
    forall i :: 0 <= i < |s| ==> IsDigit(s[i])
  }

  predicate AllPhoneChars(s: string) {
    forall i :: 0 <= i < |s| ==> IsDigit(s[i]) || IsPhoneFiller(s[i])
  }

  lemma {:induction false} StripFillersDigits(s: string)
    ensures AllDigits(StripFillers(s)) <==> AllPhoneChars(s)
    ensures AllPhoneChars(s) ==> |StripFillers(s)| == DigitCount(s)
  {
    if |s| > 0 {
      var t := StripFillers(s[1..]);
      StripFillersDigits(s[1..]);
      assert AllPhoneChars(s) <==> (IsDigit(s[0]) || IsPhoneFiller(s[0])) && AllPhoneChars(s[1..]) by {
        assert forall i :: 0 < i < |s| ==> s[i] == s[1..][i - 1];
      }
      if !IsPhoneFiller(s[0]) {
        assert StripFillers(s) == [s[0]] + t;
        var x := [s[0]] + t;
        if AllDigits(x) {
          assert IsDigit(x[0]);
          forall i | 0 <= i < |t| ensures IsDigit(t[i]) {
            assert x[i + 1] == t[i];
          }
        }
        if IsDigit(s[0]) && AllDigits(t) {
          forall i | 0 <= i < |x| ensures IsDigit(x[i]) {
            if i > 0 { assert x[i] == t[i - 1]; }
          }
        }
      }
    }
  }

  /** The phone check in its own terms: only digits and fillers, and at
      least ten digits. A `+` (international prefix) is always refused. */
  lemma ValidatePhoneSpec(s: string)
    ensures ValidatePhone(s) <==> AllPhoneChars(s) && DigitCount(s) >= 10
    ensures '+' in s ==> !ValidatePhone(s)
  {
    StripFillersDigits(s);
  }

  // ---------------------------------------------------------------------
  // isMembershipExpired / validateMembership (the read-only helper)

  /** `isMembershipExpired($expiryDate)`: a missing, empty or all-zero date is
      expired; otherwise the date is expired when it is strictly before
      today. Text `strtotime` cannot read compares as `false`, which PHP
      orders before any timestamp. */
  predicate IsMembershipExpired(text: string, today: CalendarDate) {
    if IsEmpty(text) || text == "0000-00-00" then true
    else
      var d := Parse(text);
      d.None? || DayNumber(d.value) < DayNumber(today)
  }

  /** On a stored expiry the helper agrees with the model's `$expiryDate < $today`:
      expired means NULL or strictly before today, so a membership expiring
      today is not expired. */
  lemma ExpiredStoredDate(e: Option<CalendarDate>, today: CalendarDate)
    ensures IsMembershipExpired(DateText(e), today) <==> e.None? || DayNumber(e.value) < DayNumber(today)
    ensures IsMembershipExpired(DateText(e), today) == MembershipModel.Lapsed(e, today)
    ensures e == Some(today) ==> !IsMembershipExpired(DateText(e), today)
  {
    DateTextBefore(e, today);
    if e.Some? {
      ParseFormat(e.value);
    }
  }

  /** The array the helper `validateMembership` returns. */
  datatype Check = Check(valid: bool, message: string, expiryDate: Option<string>, daysUntilExpiry: Option<int>)

  /** `validateMembership($pdo, $memberId)` of the helpers: the same checks
      in the same order as the model's, with fixed messages, and no write. */
  function CheckMembership(rows: seq<MemberRow>, id: int, today: CalendarDate, dbFails: bool): Check {
    if dbFails then Check(false, "Error validating membership", None, None)
    else
      var found := FindMember(rows, id);
      if found.None? then Check(false, "Member not found", None, None)
      else if found.value.status != "Active" then Check(false, "Membership is not active", None, None)
      else
        var text := DateText(found.value.expiryDate);
        if IsMembershipExpired(text, today) then Check(false, "Membership has expired", None, None)
        else
          var d := Parse(text).value;
          Check(true, "Membership is valid", Some(text), Some(DayNumber(d) - DayNumber(today)))
  }

  /** A valid answer reports the expiry and a non-negative number of days
      left, the same count the model's check uses. */
  lemma CheckMembershipDays(rows: seq<MemberRow>, id: int, today: CalendarDate)
    requires CheckMembership(rows, id, today, false).valid
    ensures var m := FindMember(rows, id).value;
      && m.expiryDate.Some?
      && CheckMembership(rows, id, today, false).expiryDate == Some(Format(m.expiryDate.value))
      && CheckMembership(rows, id, today, false).daysUntilExpiry
           == Some(MembershipModel.DaysLeft(m.expiryDate.value, today))
      && MembershipModel.DaysLeft(m.expiryDate.value, today) >= 0
  {
    var m := FindMember(rows, id).value;
    ExpiredStoredDate(m.expiryDate, today);
    ParseFormat(m.expiryDate.value);
  }

  /** The read-only helper and the model's check accept exactly the same
      members on the same day; only the model writes `Expired`. */
  lemma CheckMembershipAgrees(rows: seq<MemberRow>, id: int, today: CalendarDate)
    ensures CheckMembership(rows, id, today, false).valid == MembershipModel.Validation(rows, id, today).1.valid
  {
    var found := FindMember(rows, id);
    if found.Some? {
      ExpiredStoredDate(found.value.expiryDate, today);
    }
  }

  // ---------------------------------------------------------------------
  // emailExists

  /** `emailExists($pdo, $email, $type, $excludeId)`. */
  predicate EmailExists(members: seq<MemberRow>, trainers: seq<TrainerRow>, email: string,
                        kind: string, excludeId: Option<int>, dbFails: bool) {
    var e := Trim(email);
    var skip := if excludeId.Some? && excludeId.value > 0 then excludeId else None;
    if e == "" || dbFails then false
    else if kind == "trainer" then TrainerEmailTaken(trainers, e, skip)
    else MemberEmailTaken(members, e, skip)
  }

  /** A blank address never exists; a trainer probe never reads members and
      any other kind never reads trainers; a non-positive exclusion is no
      exclusion. */
  lemma EmailExistsScope(members: seq<MemberRow>, trainers: seq<TrainerRow>, email: string,
                         kind: string, excludeId: Option<int>,
                         members': seq<MemberRow>, trainers': seq<TrainerRow>)
    ensures Trim(email) == "" ==> !EmailExists(members, trainers, email, kind, excludeId, false)
    ensures kind == "trainer" ==>
      EmailExists(members, trainers, email, kind, excludeId, false)
        == EmailExists(members', trainers, email, kind, excludeId, false)
    ensures kind != "trainer" ==>
      EmailExists(members, trainers, email, kind, excludeId, false)
        == EmailExists(members, trainers', email, kind, excludeId, false)
    ensures excludeId.Some? && excludeId.value <= 0 ==>
      EmailExists(members, trainers, email, kind, excludeId, false)
        == EmailExists(members, trainers, email, kind, None, false)
  {
  }

  /** The row being edited never counts against its own e-mail: for a
      member probe (any kind but `trainer`), appending the excluded row to
      the table changes nothing. */
  lemma EmailExistsIgnoresExcluded(members: seq<MemberRow>, trainers: seq<TrainerRow>, email: string,
                                   kind: string, row: MemberRow)
    requires row.id > 0 && kind != "trainer"
    ensures EmailExists(members + [row], trainers, email, kind, Some(row.id), false)
      == EmailExists(members, trainers, email, kind, Some(row.id), false)
  {
    MemberTakenIgnoresRow(members, Trim(email), row);
  }

  lemma MemberTakenIgnoresRow(members: seq<MemberRow>, e: string, row: MemberRow)
    ensures MemberEmailTaken(members + [row], e, Some(row.id)) == MemberEmailTaken(members, e, Some(row.id))
  {
    if MemberEmailTaken(members + [row], e, Some(row.id)) {
      var k :| 0 <= k < |members + [row]| && (members + [row])[k].email == e && (members + [row])[k].id != row.id;
      assert k < |members| && members[k] == (members + [row])[k];
    }
    if MemberEmailTaken(members, e, Some(row.id)) {
      var k :| 0 <= k < |members| && members[k].email == e && members[k].id != row.id;
      assert (members + [row])[k] == members[k];
    }
  }

  // ---------------------------------------------------------------------
  // searchMembersByName

  /** The five `LIKE '%q%'` alternatives of the autocomplete query. */
  predicate NameMatches(m: MemberRow, q: string) {
    || Contains(m.firstName, q) || Contains(m.lastName, q) || Contains(m.email, q)
    || Contains(m.firstName + " " + m.lastName, q) || Contains(m.lastName + " " + m.firstName, q)
  }

  function ByLastThenFirst(): (MemberRow, MemberRow) -> bool {
    ByKeys((m: MemberRow) => m.lastName, (m: MemberRow) => m.firstName)
  }

  /** `searchMembersByName($pdo, $query, $limit)`: nothing for a blank
      query and nothing when the `LIMIT` is negative (the statement fails
      and the helper returns `[]`); otherwise at most `limit` matching
      members, by last then first name. */
  function SearchMembersByName(rows: seq<MemberRow>, query: string, limit: int): (r: seq<MemberRow>)
    ensures IsEmpty(Trim(query)) ==> r == []
    ensures limit < 0 ==> r == []
    ensures limit >= 0 ==> |r| <= limit
    ensures forall k :: 0 <= k < |r| ==> r[k] in rows && NameMatches(r[k], Trim(query))
    ensures Sorted(r, ByLastThenFirst())
    ensures !IsEmpty(Trim(query)) && limit >= 0 ==> r == Take(Ranked(rows, Trim(query)), limit)
    ensures !IsEmpty(Trim(query)) && limit >= |rows| ==>
      multiset(r) == multiset(Filter(rows, Matching(Trim(query))))
  {
    var q := Trim(query);
    if IsEmpty(q) || limit < 0 then []
    else
      var ranked := Ranked(rows, q);
      var r := Take(ranked, limit);
      assert forall k :: 0 <= k < |r| ==> r[k] == ranked[k];
      assert limit >= |rows| ==> r == ranked;
      r
  }

  /** `WHERE` the five alternatives. */
  function Matching(q: string): MemberRow -> bool {
    (m: MemberRow) => NameMatches(m, q)
  }

  /** The matching members, by last then first name, before the `LIMIT`:
      every match, each as often as it occurs. */
  function Ranked(rows: seq<MemberRow>, q: string): (r: seq<MemberRow>)
    ensures forall k :: 0 <= k < |r| ==> r[k] in rows && NameMatches(r[k], q)
    ensures Sorted(r, ByLastThenFirst())
    ensures multiset(r) == multiset(Filter(rows, Matching(q)))
    ensures |r| <= |rows|
  {
    ByKeysTotal((m: MemberRow) => m.lastName, (m: MemberRow) => m.firstName);
    var hits := Filter(rows, Matching(q));
    var sorted := SortBy(hits, ByLastThenFirst());
    assert forall k :: 0 <= k < |sorted| ==> sorted[k] in multiset(hits);
    sorted
  }

  // ---------------------------------------------------------------------
  // searchMembers

  /** One entry of `$conditions`. */
  datatype MemberCondition = TypeIs(membershipType: string) | ExpiryOn(date: string)

  /** `$conditions`, appended to in the order of the source. */
  function SearchConditions(membershipType: Option<string>, expiryDate: Option<string>): seq<MemberCondition> {
    var c0 := [];
    var c1 := if membershipType.Some? && !IsEmpty(membershipType.value) then c0 + [TypeIs(membershipType.value)] else c0;
    var c2 := if expiryDate.Some? && !IsEmpty(expiryDate.value) then c1 + [ExpiryOn(expiryDate.value)] else c1;
    c2
  }

  /** One condition on a row; a NULL expiry equals nothing. */
  predicate Holds(c: MemberCondition, m: MemberRow) {
    match c
    case TypeIs(t) => m.membershipType == t
    case ExpiryOn(d) => m.expiryDate.Some? && Format(m.expiryDate.value) == d
  }

  /** `WHERE c1 AND c2 ...`, or no `WHERE` for an empty list. */
  predicate WhereAll(conds: seq<MemberCondition>, m: MemberRow) {
    forall k :: 0 <= k < |conds| ==> Holds(conds[k], m)
  }

  function ByExpiryThenLast(): (MemberRow, MemberRow) -> bool {
    ByKeys((m: MemberRow) => DateText(m.expiryDate), (m: MemberRow) => m.lastName)
  }

  /** `searchMembers($pdo, $membershipType, $expiryDate)`: the members the
      conditions select, ordered by expiry (NULL first) then last name. */
  function SearchMembers(rows: seq<MemberRow>, membershipType: Option<string>, expiryDate: Option<string>): (r: seq<MemberRow>)
    ensures Sorted(r, ByExpiryThenLast())
    ensures multiset(r) == multiset(Filter(rows, (m: MemberRow) => WhereAll(SearchConditions(membershipType, expiryDate), m)))
  {
    ByKeysTotal((m: MemberRow) => DateText(m.expiryDate), (m: MemberRow) => m.lastName);
    SortBy(Filter(rows, (m: MemberRow) => WhereAll(SearchConditions(membershipType, expiryDate), m)), ByExpiryThenLast())
  }

  /** The conditions the two optional filters contribute, read back. */
  lemma SearchConditionsMeaning(membershipType: Option<string>, expiryDate: Option<string>, m: MemberRow)
    ensures WhereAll(SearchConditions(membershipType, expiryDate), m) <==>
      && (membershipType.None? || IsEmpty(membershipType.value) || m.membershipType == membershipType.value)
      && (expiryDate.None? || IsEmpty(expiryDate.value)
          || (m.expiryDate.Some? && Format(m.expiryDate.value) == expiryDate.value))
  {
    var conds := SearchConditions(membershipType, expiryDate);
    if membershipType.Some? && !IsEmpty(membershipType.value) {
      assert conds[0] == TypeIs(membershipType.value);
    }
    if expiryDate.Some? && !IsEmpty(expiryDate.value) {
      assert conds[|conds| - 1] == ExpiryOn(expiryDate.value);
    }
  }

  /** The filters are AND-combined and an absent (or PHP-empty) filter adds
      no condition: a member is returned exactly when it matches every
      filter given. */
  lemma SearchMembersSelects(rows: seq<MemberRow>, membershipType: Option<string>, expiryDate: Option<string>, m: MemberRow)
    ensures m in SearchMembers(rows, membershipType, expiryDate) <==>
      && m in rows
      && (membershipType.None? || IsEmpty(membershipType.value) || m.membershipType == membershipType.value)
      && (expiryDate.None? || IsEmpty(expiryDate.value)
          || (m.expiryDate.Some? && Format(m.expiryDate.value) == expiryDate.value))
  {
    var p := (x: MemberRow) => WhereAll(SearchConditions(membershipType, expiryDate), x);
    var hits := Filter(rows, p);
    assert m in SearchMembers(rows, membershipType, expiryDate) <==> m in multiset(hits);
    assert m in hits <==> m in rows && p(m);
    SearchConditionsMeaning(membershipType, expiryDate, m);
  }

  /** Without filters every member is listed once, by expiry then last name. */
  lemma SearchMembersAll(rows: seq<MemberRow>)
    ensures multiset(SearchMembers(rows, None, None)) == multiset(rows)
    ensures Sorted(SearchMembers(rows, None, None), ByExpiryThenLast())
  {
    FilterAll(rows, (m: MemberRow) => WhereAll(SearchConditions(None, None), m));
  }
}
