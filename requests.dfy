/** Request and record arrays as PHP code reads them: `$_GET`, `$_POST` and
    the `$data` arrays the models receive are maps from keys to text. */
module Requests {
  import opened Options
  import opened Strings
  import opened Dates

  type Params = map<string, string>

  /** `$data[$key]`, with a missing key read as `''`. */
  function Field(data: Params, key: string): string {
    if key in data then data[key] else ""
  }

  /** `$data[$key] ?? null`. */
  function OrNull(data: Params, key: string): (r: Option<string>)
    ensures r.Some? <==> key in data
  {
    if key in data then Some(data[key]) else None
  }

  /** `$data[$key] ?? $default`: a present key wins even when its value is `''`. */
  function OrDefault(data: Params, key: string, default: string): (r: string)
    ensures key in data ==> r == data[key]
    ensures key !in data ==> r == default
  {
    if key in data then data[key] else default
  }

  /** `!empty($data[$key]) ? $data[$key] : null`. */
  function NonEmptyOrNull(data: Params, key: string): (r: Option<string>)
    ensures r.None? <==> FieldEmpty(data, key)
    ensures r.Some? ==> r.value == data[key]
  {
    if FieldEmpty(data, key) then None else Some(data[key])
  }

  /** `$text ?: null`: PHP-empty text becomes NULL. */
  function EmptyToNull(text: string): (r: Option<string>)
    ensures r.None? <==> IsEmpty(text)
    ensures r.Some? ==> r.value == text
  {
    if IsEmpty(text) then None else Some(text)
  }

  /** What a DATE column receives: NULL, a date, or text the model treats
      as refused. Only `Y-m-d` text is read as a date; the relaxed literals
      MySQL also converts (`2024/01/05`, `2024-1-5`) are not. */
  datatype DateInput = NoDate | OnDate(date: CalendarDate) | BadDate

  /** A nullable date parameter bound into an `INSERT` or `UPDATE`. */
  function DateColumn(text: Option<string>): (r: DateInput)
    ensures text.None? <==> r.NoDate?
    ensures r.OnDate? ==> text == Some(Format(r.date))
    ensures forall d: CalendarDate :: text == Some(Format(d)) ==> r == OnDate(d)
    ensures r.BadDate? <==> text.Some? && ParseDate(text.value).None?
  {
    if text.None? then NoDate
    else
      var d := ParseDate(text.value);
      if d.Some? then OnDate(d.value) else BadDate
  }

  /** The column value of an accepted date input. */
  function DateValue(input: DateInput): (r: Option<CalendarDate>)
    requires !input.BadDate?
    ensures r.None? <==> input.NoDate?
    ensures r.Some? ==> input == OnDate(r.value)
  {
    if input.OnDate? then Some(input.date) else None
  }

  // ---------------------------------------------------------------------
  // Integers in request text

  predicate AllDigits(s: string) {
    forall i :: 0 <= i < |s| ==> IsDigit(s[i])
  }

  /** The value of a run of decimal digits. */
  function DigitsValue(s: string): nat
    requires AllDigits(s)
  {
    if |s| == 0 then 0 else 10 * DigitsValue(s[..|s| - 1]) + (s[|s| - 1] as int - '0' as int)
  }

  /** The longest run of digits at the front of `s`. */
  function LeadingDigits(s: string): (r: string)
    ensures |r| <= |s| && AllDigits(r) && r == s[..|r|]
    ensures |r| < |s| ==> !IsDigit(s[|r|])
  {
    if |s| == 0 || !IsDigit(s[0]) then "" else [s[0]] + LeadingDigits(s[1..])
  }

  /** A text that is all digits is its own leading run, and so is a run of
      digits followed by text that starts with something else. */
  lemma LeadingDigitsOf(w: string, rest: string)
    requires AllDigits(w) && (rest == "" || !IsDigit(rest[0]))
    ensures LeadingDigits(w + rest) == w
  {
    assert forall i :: 0 <= i < |w| ==> (w + rest)[i] == w[i];
    assert |w| < |w + rest| ==> (w + rest)[|w|] == rest[0];
  }

  /** The decimal text of a natural number, without leading zeros. */
  function NatText(n: nat): (s: string)
    ensures s != "" && AllDigits(s)
  {
    if n < 10 then [DigitChar(n)] else NatText(n / 10) + [DigitChar(n % 10)]
  }

  /** The text of an integer: a negative one has `-` before its digits. */
  function IntText(n: int): (s: string)
    ensures s != ""
  {
    if n < 0 then "-" + NatText(-n) else NatText(n)
  }

  /** Reading the digits of a number gives the number back. */
  lemma {:induction false} NatTextValue(n: nat)
    ensures DigitsValue(NatText(n)) == n
  {
    if n >= 10 {
      NatTextValue(n / 10);
      var s := NatText(n);
      assert s[..|s| - 1] == NatText(n / 10);
    }
  }

  /** A decimal integer written exactly (`-`? digits). An INT column or an
      `id = ?` comparison reads such text as its value; any other text is
      read as refused, although MySQL converts some of it (` 5`, `+5`, `5.0`). */
  function ParseInt(s: string): (r: Option<int>)
    ensures r.Some? <==> (s != "" && AllDigits(s)) || (|s| > 1 && s[0] == '-' && AllDigits(s[1..]))
    ensures s != "" && AllDigits(s) ==> r == Some(DigitsValue(s) as int)
    ensures |s| > 1 && s[0] == '-' && AllDigits(s[1..]) ==> r == Some(-(DigitsValue(s[1..]) as int))
  {
    if |s| > 0 && s[0] == '-' && |s| > 1 && AllDigits(s[1..]) then Some(-(DigitsValue(s[1..]) as int))
    else if |s| > 0 && AllDigits(s) then Some(DigitsValue(s))
    else None
  }

  /** Every integer's text is read back as that integer. */
  lemma ParseIntText(n: int)
    ensures ParseInt(IntText(n)) == Some(n)
  {
    if n < 0 {
      NatTextValue(-n);
      assert IntText(n)[1..] == NatText(-n);
    } else {
      NatTextValue(n);
    }
  }

  /** The range of PHP's 64-bit integers. */
  const IntMax: int := 0x7FFF_FFFF_FFFF_FFFF
  const IntMin: int := -0x8000_0000_0000_0000

  /** A number cast to an integer is capped at the ends of the range. */
  function Saturate(x: int): (r: int)
    ensures IntMin <= r <= IntMax
    ensures IntMin <= x <= IntMax ==> r == x
    ensures x > IntMax ==> r == IntMax
    ensures x < IntMin ==> r == IntMin
  {
    if x > IntMax then IntMax else if x < IntMin then IntMin else x
  }

  function Pow10(n: nat): (r: nat)
    ensures r >= 1
  {
    if n == 0 then 1 else 10 * Pow10(n - 1)
  }

  /** A number in decimal notation: `±mantissa × 10^scale`. */
  datatype Decimal = Decimal(negative: bool, mantissa: nat, scale: int)

  /** The whole part of a decimal number, rounded toward zero. */
  function Truncate(d: Decimal): int {
    var magnitude := if d.scale >= 0 then d.mantissa * Pow10(d.scale) else d.mantissa / Pow10(-d.scale);
    if d.negative then -magnitude else magnitude
  }

  /** `e` or `E`, an optional sign and at least one digit: the power of ten
      it writes; text that is not an exponent counts as none. */
  function Exponent(s: string): int {
    if |s| > 0 && (s[0] == 'e' || s[0] == 'E') then
      var u := s[1..];
      var v := if |u| > 0 && (u[0] == '-' || u[0] == '+') then u[1..] else u;
      var digits := LeadingDigits(v);
      if |u| > 0 && u[0] == '-' then -(DigitsValue(digits) as int) else DigitsValue(digits)
    else 0
  }

  /** The number PHP reads at the start of a string: after leading white
      space, an optional sign, then an unsigned number. `None` when the
      text does not start with a number. */
  function NumericPrefix(s: string): (r: Option<Decimal>)
    ensures var t := TrimLeftWs(s);
      t == "" || !(IsDigit(t[0]) || t[0] == '-' || t[0] == '+' || t[0] == '.') ==> r.None?
  {
    var t := TrimLeftWs(s);
    if |t| > 0 && (t[0] == '-' || t[0] == '+') then
      var d := UnsignedPrefix(t[1..]);
      if d.Some? then Some(d.value.(negative := t[0] == '-')) else None
    else UnsignedPrefix(t)
  }

  /** Digits with an optional fraction (at least one digit in all) and an
      optional exponent, at the start of `u`. */
  function UnsignedPrefix(u: string): (r: Option<Decimal>)
    ensures u == "" || !(IsDigit(u[0]) || u[0] == '.') ==> r.None?
    ensures r.Some? ==> !r.value.negative
  {
    var whole := LeadingDigits(u);
    var rest := u[|whole|..];
    var dot := |rest| > 0 && rest[0] == '.';
    var frac := if dot then LeadingDigits(rest[1..]) else "";
    if whole == "" && frac == "" then None
    else
      var after := if dot then rest[1 + |frac|..] else rest;
      assert AllDigits(whole + frac);
      Some(Decimal(false, DigitsValue(whole + frac), Exponent(after) - |frac|))
  }

  /** A run of digits followed by text that continues no number. */
  lemma UnsignedDigits(w: string, rest: string)
    requires w != "" && AllDigits(w)
    requires rest == "" || !(IsDigit(rest[0]) || rest[0] == '.' || rest[0] == 'e' || rest[0] == 'E')
    ensures UnsignedPrefix(w + rest) == Some(Decimal(false, DigitsValue(w), 0))
  {
    LeadingDigitsOf(w, rest);
    assert (w + rest)[|w|..] == rest;
    assert w + "" == w;
  }

  /** A run of digits with an exponent. */
  lemma UnsignedExponent(w: string, x: string)
    requires w != "" && AllDigits(w) && x != "" && AllDigits(x)
    ensures UnsignedPrefix(w + "e" + x) == Some(Decimal(false, DigitsValue(w), DigitsValue(x)))
  {
    var s := w + "e" + x;
    assert s == w + ("e" + x);
    LeadingDigitsOf(w, "e" + x);
    assert s[|w|..] == "e" + x;
    ExponentDigits(x);
    assert w + "" == w;
  }

  lemma ExponentDigits(x: string)
    requires x != "" && AllDigits(x)
    ensures Exponent("e" + x) == DigitsValue(x)
  {
    assert ("e" + x)[1..] == x;
    LeadingDigitsOf(x, "");
    assert x + "" == x;
  }

  /** PHP 8's `(int)` cast of a string: the number at its start (0 if there
      is none), rounded toward zero and capped to the 64-bit range. */
  function IntCast(s: string): (n: int)
    ensures IntMin <= n <= IntMax
    ensures var t := TrimLeftWs(s);
      t == "" || !(IsDigit(t[0]) || t[0] == '-' || t[0] == '+' || t[0] == '.') ==> n == 0
  {
    var d := NumericPrefix(s);
    if d.None? then 0 else Saturate(Truncate(d.value))
  }

  /** Leading white space, as PHP skips it before a number: the text left
      starts with something else. */
  function TrimLeftWs(s: string): (r: string)
    ensures |r| <= |s| && r == s[|s| - |r|..]
    ensures r == [] || !IsJsSpace(r[0])
  {
    if |s| > 0 && IsJsSpace(s[0]) then TrimLeftWs(s[1..]) else s
  }

  /** A run of digits, followed by text that continues no number, is cast
      to its value; what follows it is ignored. */
  lemma IntCastDigits(w: string, rest: string)
    requires w != "" && AllDigits(w)
    requires rest == "" || !(IsDigit(rest[0]) || rest[0] == '.' || rest[0] == 'e' || rest[0] == 'E')
    ensures IntCast(w + rest) == Saturate(DigitsValue(w))
  {
    var s := w + rest;
    assert s[0] == w[0];
    assert TrimLeftWs(s) == s;
    UnsignedDigits(w, rest);
    assert NumericPrefix(s) == Some(Decimal(false, DigitsValue(w), 0));
  }

  /** A run of digits with an exponent is cast to the number it writes:
      `(int)"1e3"` is 1000. */
  lemma IntCastExponent(w: string, x: string)
    requires w != "" && AllDigits(w) && x != "" && AllDigits(x)
    ensures IntCast(w + "e" + x) == Saturate(DigitsValue(w) * Pow10(DigitsValue(x)))
  {
    var s := w + "e" + x;
    assert s[0] == w[0];
    assert TrimLeftWs(s) == s;
    UnsignedExponent(w, x);
    assert NumericPrefix(s) == Some(Decimal(false, DigitsValue(w), DigitsValue(x)));
  }

  /** Every 64-bit integer's text is cast back to that integer. */
  lemma IntCastText(n: int)
    requires IntMin <= n <= IntMax
    ensures IntCast(IntText(n)) == n
  {
    if n < 0 {
      IntCastNegative(n);
    } else {
      NatTextValue(n);
      IntCastDigits(IntText(n), "");
      assert IntText(n) + "" == IntText(n);
    }
  }

  lemma IntCastNegative(n: int)
    requires IntMin <= n < 0
    ensures IntCast(IntText(n)) == n
  {
    var s := IntText(n);
    var w := NatText(-n);
    NatTextValue(-n);
    assert s[0] == '-' && TrimLeftWs(s) == s;
    assert s[1..] == w;
    UnsignedDigits(w, "");
    assert w + "" == w;
    assert NumericPrefix(s) == Some(Decimal(true, -n, 0));
  }
}
