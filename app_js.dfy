/** The browser-side state of `public/assets/js/app.js`: the open flags of
    modals and dropdowns, the form validator's error map with its
    required, e-mail and phone checks, and the active marking of the
    navigation links. Styling, animation, timers and the DOM tree are not
    part of this model; a field is the few attributes the checks read. */
module AppJs {
  import opened Options
  import opened Strings
  import Helpers

  // ---------------------------------------------------------------------
  // Modal

  /** A modal dialog. `backdropsAdded` counts the backdrops `show` has put
      on the page and `removalsScheduled` the removals `hide` has set off,
      so a repeated `show` or `hide` that returns early leaves both alone. */
  class Modal {
    var isShown: bool
    var backdropsAdded: nat
    var removalsScheduled: nat

    /** Each `show` that got past its guard is matched by one `hide` that
        got past its guard, except the latest while the modal is shown.
        The counters record calls only: which backdrop the delayed removal
        finally takes is left to the timer and not modelled. */
    predicate Valid()
      reads this
    {
      backdropsAdded == removalsScheduled + (if isShown then 1 else 0)
    }

    constructor()
      ensures Valid() && !isShown && backdropsAdded == 0 && removalsScheduled == 0
    {
      isShown := false;
      backdropsAdded := 0;
      removalsScheduled := 0;
    }

    /** Lines 41-65: returns at once when shown; otherwise shows the modal
        and adds one backdrop. */
    method Show()
      requires Valid()
      modifies this
      ensures Valid() && isShown
      ensures old(isShown) ==> backdropsAdded == old(backdropsAdded)
      ensures !old(isShown) ==> backdropsAdded == old(backdropsAdded) + 1
      ensures removalsScheduled == old(removalsScheduled)
    {
      if isShown {
        return;
      }
      isShown := true;
      backdropsAdded := backdropsAdded + 1;
    }

    /** Lines 67-83: returns at once when hidden; otherwise hides the modal
        and sets off the removal of its backdrop. */
    method Hide()
      requires Valid()
      modifies this
      ensures Valid() && !isShown
      ensures old(isShown) ==> removalsScheduled == old(removalsScheduled) + 1
      ensures !old(isShown) ==> removalsScheduled == old(removalsScheduled)
      ensures backdropsAdded == old(backdropsAdded)
    {
      if !isShown {
        return;
      }
      isShown := false;
      removalsScheduled := removalsScheduled + 1;
    }

    /** Lines 85-91: hides a shown modal and shows a hidden one. */
    method Toggle()
      requires Valid()
      modifies this
      ensures Valid() && isShown == !old(isShown)
      ensures backdropsAdded + removalsScheduled == old(backdropsAdded) + old(removalsScheduled) + 1
    {
      if isShown {
        Hide();
      } else {
        Show();
      }
    }
  }

  // ---------------------------------------------------------------------
  // Dropdown

  class Dropdown {
    var isOpen: bool

    constructor()
      ensures !isOpen
    {
      isOpen := false;
    }

    /** Lines 133-137. */
    method Open()
      modifies this
      ensures isOpen
    {
      isOpen := true;
    }

    /** Lines 139-143. */
    method Close()
      modifies this
      ensures !isOpen
    {
      isOpen := false;
    }

    /** Lines 125-131: closes an open menu and opens a closed one. */
    method ToggleDropdown()
      modifies this
      ensures isOpen == !old(isOpen)
    {
      if isOpen {
        Close();
      } else {
        Open();
      }
    }

    /** Lines 111-115: a click outside the dropdown closes it; a click
        inside leaves it as it was. */
    method OnDocumentClick(inside: bool)
      modifies this
      ensures isOpen == (old(isOpen) && inside)
    {
      if !inside && isOpen {
        Close();
      }
    }

    /** Lines 118-122: Escape closes it; any other key leaves it. */
    method OnKeyDown(key: string)
      modifies this
      ensures isOpen == (old(isOpen) && key != "Escape")
    {
      if key == "Escape" && isOpen {
        Close();
      }
    }
  }

  // ---------------------------------------------------------------------
  // Trimming

  function JsTrimLeft(s: string): (r: string)
    ensures |r| <= |s| && r == s[|s| - |r|..]
    ensures r == [] || !IsJsSpace(r[0])
    ensures forall i :: 0 <= i < |s| - |r| ==> IsJsSpace(s[i])
  {
    if |s| > 0 && IsJsSpace(s[0]) then JsTrimLeft(s[1..]) else s
  }

  function JsTrimRight(s: string): (r: string)
    ensures |r| <= |s| && r == s[..|r|]
    ensures r == [] || !IsJsSpace(r[|r| - 1])
    ensures forall i :: |r| <= i < |s| ==> IsJsSpace(s[i])
  {
    if |s| > 0 && IsJsSpace(s[|s| - 1]) then JsTrimRight(s[..|s| - 1]) else s
  }

  /** `String.prototype.trim` (for the ASCII white space): only white
      space is cut, from the two ends, and none is left at either end. */
  function JsTrim(s: string): (r: string)
    ensures |r| <= |s|
    ensures r == [] || (!IsJsSpace(r[0]) && !IsJsSpace(r[|r| - 1]))
    ensures CutFromEnds(s, r, IsJsSpace)
  {
    var l := JsTrimLeft(s);
    var r := JsTrimRight(l);
    CutBothEnds(s, l, r, IsJsSpace);
    r
  }

  /** A value is blank after trimming iff it is white space only. */
  lemma BlankIffSpaces(s: string)
    ensures JsTrim(s) == "" <==> forall i :: 0 <= i < |s| ==> IsJsSpace(s[i])
  {
    var l := JsTrimLeft(s);
    assert forall i :: 0 <= i < |l| ==> l[i] == s[|s| - |l| + i];
    if JsTrim(s) == "" {
      assert l == [];
    }
  }

  // ---------------------------------------------------------------------
  // The e-mail and phone patterns

  /** `[^\s@]+` matches all of `s`. */
  predicate Plain(s: string) {
    s != "" && forall i :: 0 <= i < |s| ==> !IsJsSpace(s[i]) && s[i] != '@'
  }

  /** `/^[^\s@]+@[^\s@]+\.[^\s@]+$/` read as the regular expression it is:
      the value is three plain runs joined by `@` and `.`. */
  ghost predicate EmailPattern(v: string) {
    exists user :: Plain(user) && exists host :: Plain(host) && exists tld :: Plain(tld) && v == user + "@" + host + "." + tld
  }

  /** The same test by position: one `@` after some plain text, then a
      plain domain with a `.` neither first nor last. */
  predicate EmailAccepted(v: string) {
    exists a :: 0 < a < |v| && v[a] == '@' && Plain(v[..a]) && DomainAccepted(v[a + 1..])
  }

  predicate DomainAccepted(d: string) {
    Plain(d) && exists k :: 0 < k < |d| - 1 && d[k] == '.'
  }

  /** An accepted value is the pattern, has no white space and exactly one `@`. */
  lemma EmailAcceptedMatches(v: string)
    requires EmailAccepted(v)
    ensures EmailPattern(v)
    ensures forall i :: 0 <= i < |v| ==> !IsJsSpace(v[i])
    ensures exists a :: 0 <= a < |v| && v[a] == '@' && forall j :: 0 <= j < |v| && v[j] == '@' ==> j == a
  {
    var a :| 0 < a < |v| && v[a] == '@' && Plain(v[..a]) && DomainAccepted(v[a + 1..]);
    var d := v[a + 1..];
    var k :| 0 < k < |d| - 1 && d[k] == '.';
    var user, host, tld := EmailParts(v, a, k);
    EmailCharacters(v, a);
  }

  /** The three runs an accepted value splits into at its `@` and a `.`. */
  lemma EmailParts(v: string, a: nat, k: nat) returns (user: string, host: string, tld: string)
    requires 0 < a < |v| && v[a] == '@' && Plain(v[..a]) && Plain(v[a + 1..])
    requires 0 < k < |v| - a - 2 && v[a + 1 + k] == '.'
    ensures Plain(user) && Plain(host) && Plain(tld) && v == user + "@" + host + "." + tld
  {
    var d := v[a + 1..];
    user, host, tld := v[..a], d[..k], d[k + 1..];
    assert d[k] == '.';
    assert v == user + "@" + host + "." + tld;
    assert forall i :: 0 <= i < |host| ==> host[i] == d[i];
    assert forall i :: 0 <= i < |tld| ==> tld[i] == d[k + 1 + i];
  }

  /** Two plain runs around an `@`: no white space, and that `@` is the only one. */
  lemma EmailCharacters(v: string, a: nat)
    requires 0 < a < |v| && v[a] == '@' && Plain(v[..a]) && Plain(v[a + 1..])
    ensures forall i :: 0 <= i < |v| ==> !IsJsSpace(v[i]) && (v[i] == '@' ==> i == a)
  {
    var user, d := v[..a], v[a + 1..];
    forall i | 0 <= i < |v|
      ensures !IsJsSpace(v[i]) && (v[i] == '@' ==> i == a)
    {
      if i < a { assert v[i] == user[i]; }
      else if i > a { assert v[i] == d[i - a - 1]; }
    }
  }

  /** A value of the pattern is accepted. */
  lemma PatternAccepted(v: string, user: string, host: string, tld: string)
    requires Plain(user) && Plain(host) && Plain(tld) && v == user + "@" + host + "." + tld
    ensures EmailAccepted(v)
  {
    var a := |user|;
    var d := host + "." + tld;
    assert v == user + "@" + d;
    assert v[..a] == user;
    assert v[a + 1..] == d;
    assert d[|host|] == '.';
    forall i | 0 <= i < |d| ensures !IsJsSpace(d[i]) && d[i] != '@' {
      if i < |host| { assert d[i] == host[i]; }
      else if i > |host| { assert d[i] == tld[i - |host| - 1]; }
    }
    assert DomainAccepted(d);
  }

  /** The positional test is exactly the pattern. */
  lemma EmailAcceptedIsPattern(v: string)
    ensures EmailAccepted(v) <==> EmailPattern(v)
  {
    if EmailAccepted(v) {
      EmailAcceptedMatches(v);
    }
    if EmailPattern(v) {
      var user :| Plain(user) && exists host :: Plain(host) && exists tld :: Plain(tld) && v == user + "@" + host + "." + tld;
      var host :| Plain(host) && exists tld :: Plain(tld) && v == user + "@" + host + "." + tld;
      var tld :| Plain(tld) && v == user + "@" + host + "." + tld;
      PatternAccepted(v, user, host, tld);
    }
  }

  /** `[\d\s\-\(\)]`. */
  predicate IsPhoneChar(c: char) {
    IsDigit(c) || IsJsSpace(c) || c == '-' || c == '(' || c == ')'
  }

  predicate PhoneChars(s: string) {
    s != "" && forall i :: 0 <= i < |s| ==> IsPhoneChar(s[i])
  }

  /** `/^[\+]?[\d\s\-\(\)]+$/` read as the regular expression it is. */
  ghost predicate PhonePattern(v: string) {
    exists body :: PhoneChars(body) && (v == body || v == "+" + body)
  }

  /** The same test: drop one leading `+`, then one or more phone characters. */
  predicate PhoneAccepted(v: string) {
    PhoneChars(if |v| > 0 && v[0] == '+' then v[1..] else v)
  }

  lemma PhoneAcceptedIsPattern(v: string)
    ensures PhoneAccepted(v) <==> PhonePattern(v)
  {
    if PhoneAccepted(v) {
      if |v| > 0 && v[0] == '+' {
        assert v == "+" + v[1..];
      }
    }
    if PhonePattern(v) {
      var body :| PhoneChars(body) && (v == body || v == "+" + body);
      if v == "+" + body {
        assert v[1..] == body;
      } else {
        assert v[0] != '+';
      }
    }
  }

  /** Every phone number the server's `validatePhone` accepts passes the
      browser check too. */
  lemma PhoneChecksCompared(s: string)
    ensures Helpers.ValidatePhone(s) ==> PhoneAccepted(s)
  {
    Helpers.ValidatePhoneSpec(s);
    if Helpers.ValidatePhone(s) {
      assert Helpers.DigitCount(s) >= 10;
      assert s != "";
      assert s[0] != '+';
    }
  }

  /** The browser lets a leading `+` through, which the server refuses. */
  lemma LeadingPlusDiffers()
    ensures PhoneAccepted("+1234567890") && !Helpers.ValidatePhone("+1234567890")
  {
    PlusNumber("+1234567890");
  }

  lemma PlusNumber(v: string)
    requires |v| > 1 && v[0] == '+' && forall i :: 1 <= i < |v| ==> IsDigit(v[i])
    ensures PhoneAccepted(v) && !Helpers.ValidatePhone(v)
  {
    Helpers.ValidatePhoneSpec(v);
    assert v[0] in v;
    assert forall i :: 0 <= i < |v[1..]| ==> v[1..][i] == v[i + 1];
  }

  /** The browser lets a short number through, which the server refuses. */
  lemma ShortNumberDiffers()
    ensures PhoneAccepted("123") && !Helpers.ValidatePhone("123")
  {
    ShortNumber("123");
  }

  lemma ShortNumber(v: string)
    requires 0 < |v| < 10 && forall i :: 0 <= i < |v| ==> IsDigit(v[i])
    ensures PhoneAccepted(v) && !Helpers.ValidatePhone(v)
  {
  }

  // ---------------------------------------------------------------------
  // FormValidator

  /** What a check reads of a form control: `name`, `id`, the `required`
      attribute, `type` and `value`. `numberMessage` is the message the
      floating-point `min`/`max` checks give a number field, if any. */
  datatype Input = Input(name: string, id: string, required: bool, kind: string, value: string,
                         numberMessage: Option<string>)

  /** `field.name || field.id`. */
  function Key(f: Input): string {
    if f.name != "" then f.name else f.id
  }

  /** Lines 202-256: the first message `validateField` records, if any. */
  function FieldMessage(f: Input): (m: Option<string>)
    ensures f.required && JsTrim(f.value) == "" ==> m == Some("This field is required")
    ensures JsTrim(f.value) == "" ==> (m.Some? <==> f.required)
    ensures JsTrim(f.value) != "" && f.kind != "email" && f.kind != "tel" && f.kind != "number" ==> m.None?
  {
    var value := JsTrim(f.value);
    if f.required && value == "" then Some("This field is required")
    else if f.kind == "email" && value != "" && !EmailAccepted(value) then Some("Please enter a valid email address")
    else if f.kind == "tel" && value != "" && !PhoneAccepted(value) then Some("Please enter a valid phone number")
    else if f.kind == "number" && value != "" then f.numberMessage
    else None
  }

  /** A filled e-mail field passes iff its trimmed value matches the
      pattern, and a filled phone field iff its trimmed value does. */
  lemma FieldMessageFormats(f: Input)
    ensures f.kind == "email" && JsTrim(f.value) != "" ==> (FieldMessage(f).None? <==> EmailPattern(JsTrim(f.value)))
    ensures f.kind == "tel" && JsTrim(f.value) != "" ==> (FieldMessage(f).None? <==> PhonePattern(JsTrim(f.value)))
  {
    EmailAcceptedIsPattern(JsTrim(f.value));
    PhoneAcceptedIsPattern(JsTrim(f.value));
  }

  /** The error map after `validateField(f)`: the field's old entry is
      removed and its new message, if any, recorded. */
  function Step(errors: map<string, string>, f: Input): (r: map<string, string>)
    ensures Key(f) in r <==> FieldMessage(f).Some?
    ensures forall k :: k != Key(f) ==> (k in r <==> k in errors) && (k in r ==> r[k] == errors[k])
  {
    var cleared := errors - {Key(f)};
    if FieldMessage(f).Some? then cleared[Key(f) := FieldMessage(f).value] else cleared
  }

  /** The error map after validating the required fields among `fields`, in order. */
  function Recorded(errors: map<string, string>, fields: seq<Input>): map<string, string> {
    if |fields| == 0 then errors
    else
      var before := Recorded(errors, fields[..|fields| - 1]);
      var f := fields[|fields| - 1];
      if f.required then Step(before, f) else before
  }

  class FormValidator {
    var errors: map<string, string>

    constructor()
      ensures errors == map[]
    {
      errors := map[];
    }

    /** Lines 258-260: the message is recorded under the field's key. */
    method AddFieldError(f: Input, message: string)
      modifies this
      ensures errors == old(errors)[Key(f) := message]
    {
      errors := errors[Key(f) := message];
    }

    /** Lines 277-279: the field's entry is removed. */
    method RemoveFieldError(f: Input)
      modifies this
      ensures errors == old(errors) - {Key(f)}
    {
      errors := errors - {Key(f)};
    }

    /** Lines 202-256: removes the field's old message, runs the checks in
        order and records the first failure. */
    method ValidateField(f: Input) returns (passed: bool)
      modifies this
      ensures errors == Step(old(errors), f)
      ensures passed <==> FieldMessage(f).None?
    {
      var value := JsTrim(f.value);
      RemoveFieldError(f);
      if f.required && value == "" {
        AddFieldError(f, "This field is required");
        return false;
      }
      if f.kind == "email" && value != "" && !EmailAccepted(value) {
        AddFieldError(f, "Please enter a valid email address");
        return false;
      }
      if f.kind == "tel" && value != "" && !PhoneAccepted(value) {
        AddFieldError(f, "Please enter a valid phone number");
        return false;
      }
      if f.kind == "number" && value != "" && f.numberMessage.Some? {
        AddFieldError(f, f.numberMessage.value);
        return false;
      }
      passed := true;
    }

    /** Lines 191-200: clears the errors, validates each required field and
        answers whether no error is recorded. */
    method Validate(fields: seq<Input>) returns (ok: bool)
      modifies this
      ensures errors == Recorded(map[], fields)
      ensures ok <==> errors == map[]
    {
      errors := map[];
      var i := 0;
      while i < |fields|
        invariant 0 <= i <= |fields|
        invariant errors == Recorded(map[], fields[..i])
      {
        assert fields[..i + 1][..i] == fields[..i];
        if fields[i].required {
          var passed := ValidateField(fields[i]);
        }
        i := i + 1;
      }
      assert fields[..|fields|] == fields;
      ok := |errors.Keys| == 0;
      assert !ok ==> exists k :: k in errors.Keys;
    }
  }

  /** When every required field passes, `validate` answers true. */
  lemma {:induction false} AllPassValidates(fields: seq<Input>)
    requires forall i :: 0 <= i < |fields| && fields[i].required ==> FieldMessage(fields[i]).None?
    ensures Recorded(map[], fields) == map[]
  {
    if |fields| > 0 {
      AllPassValidates(fields[..|fields| - 1]);
    }
  }

  /** A key no required field has is never recorded. */
  lemma {:induction false} KeyNotRecorded(fields: seq<Input>, k: string)
    requires forall i :: 0 <= i < |fields| && fields[i].required ==> Key(fields[i]) != k
    ensures k !in Recorded(map[], fields)
  {
    if |fields| > 0 {
      var before := fields[..|fields| - 1];
      assert forall i :: 0 <= i < |before| ==> before[i] == fields[i];
      KeyNotRecorded(before, k);
    }
  }

  /** No two required fields share a key. */
  predicate DistinctKeys(fields: seq<Input>) {
    forall i, j :: 0 <= i < j < |fields| && fields[i].required && fields[j].required ==> Key(fields[i]) != Key(fields[j])
  }

  /** With distinct keys, `validate` answers true only when every required
      field passes. */
  lemma {:induction false} ValidatesOnlyIfAllPass(fields: seq<Input>)
    requires DistinctKeys(fields) && Recorded(map[], fields) == map[]
    ensures forall i :: 0 <= i < |fields| && fields[i].required ==> FieldMessage(fields[i]).None?
  {
    if |fields| > 0 {
      var before := fields[..|fields| - 1];
      var f := fields[|fields| - 1];
      var m := Recorded(map[], before);
      if f.required {
        assert Key(f) !in Step(m, f);
        assert forall i :: 0 <= i < |before| ==> before[i] == fields[i];
        KeyNotRecorded(before, Key(f));
        assert forall k :: k in m ==> k in Step(m, f);
        assert m == map[];
      }
      assert DistinctKeys(before) by {
        forall i, j | 0 <= i < j < |before| && before[i].required && before[j].required
          ensures Key(before[i]) != Key(before[j])
        {
          assert before[i] == fields[i] && before[j] == fields[j];
        }
      }
      ValidatesOnlyIfAllPass(before);
      forall i | 0 <= i < |fields| && fields[i].required ensures FieldMessage(fields[i]).None? {
        if i < |before| { assert fields[i] == before[i]; }
      }
    }
  }

  /** Without distinct keys the answer can be wrong: a blank required field
      followed by a filled one with the same name leaves no error, because
      checking the second removes the first one's message. */
  lemma SharedKeyHidesError(name: string, kind: string, v: string)
    requires name != "" && kind != "email" && kind != "tel" && kind != "number"
    requires v != "" && !IsJsSpace(v[0])
    ensures var blank := Input(name, "", true, kind, "", None);
      var filled := Input(name, "", true, kind, v, None);
      FieldMessage(blank).Some? && Recorded(map[], [blank, filled]) == map[]
  {
    var blank := Input(name, "", true, kind, "", None);
    var filled := Input(name, "", true, kind, v, None);
    assert [blank, filled][..1] == [blank];
    assert [blank][..0] == [];
    assert Recorded(map[], [blank]) == Step(map[], blank);
    var m1 := Step(map[], blank);
    assert m1.Keys == {name};
    assert Recorded(map[], [blank, filled]) == Step(m1, filled);
    BlankIffSpaces(v);
    assert FieldMessage(filled).None?;
    assert Step(m1, filled).Keys == {};
  }

  /** Unlike PHP's `empty`, the text `0` satisfies a required field: a
      field that is not an e-mail, phone or number field and holds `0`
      passes, required or not. */
  lemma ZeroIsNotBlank(f: Input)
    requires f.value == "0"
    requires f.kind != "email" && f.kind != "tel" && f.kind != "number"
    ensures FieldMessage(f).None?
  {
    BlankIffSpaces(f.value);
    assert !IsJsSpace(f.value[0]);
  }

  // ---------------------------------------------------------------------
  // Navigation

  /** Lines 523-527: the link's last non-empty path segment is among the
      current path's non-empty segments. */
  predicate NavActive(linkPath: string, currentPath: string) {
    var links := Segments(linkPath, '/');
    |links| > 0 && links[|links| - 1] in Segments(currentPath, '/')
  }

  /** Lines 520-530: every link whose path matches is marked active; no
      mark is ever removed. `links[i]` is the path of the i-th link's
      `href`, `None` for a link without one. */
  method MarkActive(links: seq<Option<string>>, currentPath: string, active: array<bool>)
    requires active.Length == |links|
    modifies active
    ensures forall i :: 0 <= i < |links| ==>
      active[i] == (old(active[i]) || (links[i].Some? && NavActive(links[i].value, currentPath)))
  {
    var i := 0;
    while i < |links|
      invariant 0 <= i <= |links|
      invariant forall j :: 0 <= j < i ==>
        active[j] == (old(active[j]) || (links[j].Some? && NavActive(links[j].value, currentPath)))
      invariant forall j :: i <= j < |links| ==> active[j] == old(active[j])
    {
      if links[i].Some? && NavActive(links[i].value, currentPath) {
        active[i] := true;
      }
      i := i + 1;
    }
  }

  lemma {:induction false} BeforeFirstTrailing(s: string, sep: char)
    ensures BeforeFirst(s + [sep], sep) == BeforeFirst(s, sep)
  {
    if |s| > 0 && s[0] != sep {
      assert (s + [sep])[1..] == s[1..] + [sep];
      BeforeFirstTrailing(s[1..], sep);
    }
  }

  /** A trailing separator adds no segment. */
  lemma {:induction false} SegmentsTrailing(s: string, sep: char)
    ensures Segments(s + [sep], sep) == Segments(s, sep)
    decreases |s|
  {
    if |s| == 0 {
      assert [sep][1..] == [];
    } else if s[0] == sep {
      assert (s + [sep])[1..] == s[1..] + [sep];
      SegmentsTrailing(s[1..], sep);
    } else {
      BeforeFirstTrailing(s, sep);
      var head := BeforeFirst(s, sep);
      assert (s + [sep])[|head|..] == s[|head|..] + [sep];
      SegmentsTrailing(s[|head|..], sep);
    }
  }

  /** A link is active on its own page, and a trailing `/` on either path
      changes nothing; the root link `/` is never active. */
  lemma NavActiveProperties(linkPath: string, currentPath: string)
    ensures Segments(linkPath, '/') != [] ==> NavActive(linkPath, linkPath)
    ensures NavActive(linkPath + "/", currentPath) == NavActive(linkPath, currentPath)
    ensures NavActive(linkPath, currentPath + "/") == NavActive(linkPath, currentPath)
    ensures !NavActive("/", currentPath)
  {
    SegmentsTrailing(linkPath, '/');
    SegmentsTrailing(currentPath, '/');
    assert Segments("/", '/') == Segments("", '/');
  }
}
