/** String primitives shared by the PHP and JavaScript parts of the back-office:
    byte-wise ordering (PHP `strcmp`, JavaScript `<`), prefixes, substrings,
    trimming, case mapping and PHP's notion of an "empty" string. */
module Strings {

  /** Byte-wise lexicographic order, as PHP compares two non-numeric strings:
      the first differing character decides, and a proper prefix is smaller. */
  predicate Less(a: string, b: string)
    decreases |a|
  {
    if |a| == 0 then |b| > 0
    else if |b| == 0 then false
    else if a[0] == b[0] then Less(a[1..], b[1..])
    else a[0] < b[0]
  }

  predicate LessEq(a: string, b: string) {
    a == b || Less(a, b)
  }

  lemma {:induction false} LessIrreflexive(a: string)
    ensures !Less(a, a)
    decreases |a|
  {
    if |a| > 0 { LessIrreflexive(a[1..]); }
  }

  lemma {:induction false} LessTransitive(a: string, b: string, c: string)
    requires Less(a, b) && Less(b, c)
    ensures Less(a, c)
    decreases |a|
  {
    if |a| > 0 && |b| > 0 && |c| > 0 && a[0] == b[0] && b[0] == c[0] {
      LessTransitive(a[1..], b[1..], c[1..]);
    }
  }

  /** Any two distinct strings are ordered one way or the other, never both. */
  lemma {:induction false} LessTrichotomy(a: string, b: string)
    ensures a == b || Less(a, b) || Less(b, a)
    ensures !(Less(a, b) && Less(b, a))
    decreases |a|
  {
    if |a| > 0 && |b| > 0 && a[0] == b[0] {
      LessTrichotomy(a[1..], b[1..]);
      if a[1..] == b[1..] {
        assert a == [a[0]] + a[1..] && b == [b[0]] + b[1..];
      }
    }
  }

  /** Comparing two concatenations whose first parts have the same length:
      the first parts decide unless they are equal. */
  lemma {:induction false} LessConcat(a: string, x: string, b: string, y: string)
    requires |a| == |b|
    ensures Less(a + x, b + y) <==> Less(a, b) || (a == b && Less(x, y))
    decreases |a|
  {
    if |a| > 0 {
      assert (a + x)[0] == a[0] && (b + y)[0] == b[0];
      assert (a + x)[1..] == a[1..] + x && (b + y)[1..] == b[1..] + y;
      LessConcat(a[1..], x, b[1..], y);
      if a[0] == b[0] && a[1..] == b[1..] {
        assert a == [a[0]] + a[1..] && b == [b[0]] + b[1..];
      }
      if a == b {
        LessIrreflexive(a);
      }
    } else {
      assert a + x == x && b + y == y;
    }
  }

  /** `strpos($s, $p) === 0`, `str_starts_with($s, $p)`, `s.startsWith(p)`. */
  predicate IsPrefix(p: string, s: string) {
    |p| <= |s| && s[..|p|] == p
  }

  /** `strpos($s, $sub) !== false`; SQL `LIKE '%sub%'` without wildcards. */
  predicate Contains(s: string, sub: string) {
    exists i :: 0 <= i <= |s| - |sub| && OccursAt(s, sub, i)
  }

  predicate OccursAt(s: string, sub: string, i: int) {
    0 <= i <= |s| - |sub| && s[i..i + |sub|] == sub
  }

  /** The characters PHP's `trim` removes by default. */
  predicate IsTrimmed(c: char) {
    c == ' ' || c == '\t' || c == '\n' || c == '\r' || c == '\0' || c == '\U{000B}'
  }

  /** JavaScript's `String.prototype.trim` treats these (the ASCII ones) as white space. */
  predicate IsJsSpace(c: char) {
    c == ' ' || c == '\t' || c == '\n' || c == '\r' || c == '\U{000B}' || c == '\U{000C}'
  }

  function TrimLeft(s: string): (r: string)
    ensures |r| <= |s| && r == s[|s| - |r|..]
    ensures r == [] || !IsTrimmed(r[0])
    ensures forall i :: 0 <= i < |s| - |r| ==> IsTrimmed(s[i])
  {
    if |s| > 0 && IsTrimmed(s[0]) then TrimLeft(s[1..]) else s
  }

  function TrimRight(s: string): (r: string)
    ensures |r| <= |s| && r == s[..|r|]
    ensures r == [] || !IsTrimmed(r[|r| - 1])
    ensures forall i :: |r| <= i < |s| ==> IsTrimmed(s[i])
  {
    if |s| > 0 && IsTrimmed(s[|s| - 1]) then TrimRight(s[..|s| - 1]) else s
  }

  /** `r` is what is left of `s` once some characters satisfying `cut`
      have been removed from its start and some from its end. */
  predicate CutFromEnds(s: string, r: string, cut: char -> bool) {
    exists i :: 0 <= i <= |s| - |r| && CutAt(s, r, i, cut)
  }

  predicate CutAt(s: string, r: string, i: int, cut: char -> bool) {
    && 0 <= i <= |s| - |r| && s[i..i + |r|] == r
    && (forall k :: 0 <= k < i ==> cut(s[k]))
    && (forall k :: i + |r| <= k < |s| ==> cut(s[k]))
  }

  /** PHP `trim($s)`: only trimmable characters are removed, from the two
      ends, and none is left at either end. */
  function Trim(s: string): (r: string)
    ensures r == [] || (!IsTrimmed(r[0]) && !IsTrimmed(r[|r| - 1]))
    ensures CutFromEnds(s, r, IsTrimmed)
    ensures Contains(s, r)
  {
    var l := TrimLeft(s);
    var r := TrimRight(l);
    CutBothEnds(s, l, r, IsTrimmed);
    assert OccursAt(s, r, |s| - |l|);
    r
  }

  /** Cutting characters from the start of `s` to get `l`, then from the
      end of `l` to get `r`, cuts from both ends of `s`. */
  lemma CutBothEnds(s: string, l: string, r: string, cut: char -> bool)
    requires |l| <= |s| && l == s[|s| - |l|..] && forall k :: 0 <= k < |s| - |l| ==> cut(s[k])
    requires |r| <= |l| && r == l[..|r|] && forall k :: |r| <= k < |l| ==> cut(l[k])
    ensures CutAt(s, r, |s| - |l|, cut)
  {
    var i := |s| - |l|;
    assert s[i..i + |r|] == r;
    forall k | i + |r| <= k < |s|
      ensures cut(s[k])
    {
      assert s[k] == l[k - i];
    }
  }
  /** PHP `empty($s)` for a string value: `''` and `'0'` are empty. */
  predicate IsEmpty(s: string) {
    s == "" || s == "0"
  }

  /** PHP `empty($data[$key])`: a missing key is empty too. */
  predicate FieldEmpty(data: map<string, string>, key: string) {
    key !in data || IsEmpty(data[key])
  }

  predicate IsUpper(c: char) { 'A' <= c <= 'Z' }
  predicate IsLower(c: char) { 'a' <= c <= 'z' }
  predicate IsDigit(c: char) { '0' <= c <= '9' }

  function LowerChar(c: char): (r: char)
    ensures !IsUpper(r)
    ensures !IsUpper(c) ==> r == c
  {
    if IsUpper(c) then (c as int + 32) as char else c
  }

  function UpperChar(c: char): (r: char)
    ensures !IsLower(r)
    ensures !IsLower(c) ==> r == c
  {
    if IsLower(c) then (c as int - 32) as char else c
  }

  /** PHP 8 `strtolower`: ASCII letters only. */
  function ToLower(s: string): (r: string)
    ensures |r| == |s|
    ensures forall i :: 0 <= i < |s| ==> r[i] == LowerChar(s[i])
  {
    seq(|s|, i requires 0 <= i < |s| => LowerChar(s[i]))
  }

  /** PHP `ucfirst`: only the first character changes. */
  function Ucfirst(s: string): (r: string)
    ensures |r| == |s|
    ensures |s| > 0 ==> r[0] == UpperChar(s[0]) && r[1..] == s[1..]
  {
    if |s| == 0 then s else [UpperChar(s[0])] + s[1..]
  }

  /** Every occurrence of `from` replaced by `to` (`str_replace` on one character). */
  function ReplaceChar(s: string, from: char, to: char): (r: string)
    ensures |r| == |s|
    ensures forall i :: 0 <= i < |s| ==> r[i] == (if s[i] == from then to else s[i])
  {
    seq(|s|, i requires 0 <= i < |s| => if s[i] == from then to else s[i])
  }

  /** `explode($sep, $s)[0]`: the text before the first separator (all of it if none). */
  function BeforeFirst(s: string, sep: char): (r: string)
    ensures IsPrefix(r, s)
    ensures sep !in r
    ensures |r| < |s| ==> s[|r|] == sep
  {
    if |s| == 0 || s[0] == sep then "" else [s[0]] + BeforeFirst(s[1..], sep)
  }

  /** The text before the first separator of a concatenation: found in the
      first part when it holds one, otherwise it runs into the second. */
  lemma {:induction false} BeforeFirstConcat(a: string, c: string, sep: char)
    ensures sep in a ==> BeforeFirst(a + c, sep) == BeforeFirst(a, sep)
    ensures sep !in a ==> BeforeFirst(a + c, sep) == a + BeforeFirst(c, sep)
  {
    if |a| > 0 {
      assert (a + c)[0] == a[0] && (a + c)[1..] == a[1..] + c;
      BeforeFirstConcat(a[1..], c, sep);
      if sep !in a {
        assert a == [a[0]] + a[1..];
      }
    } else {
      assert a + c == c;
    }
  }

  /** `s.split(sep).filter(Boolean)`: the non-empty pieces between
      separators, in order; a text without a separator is one piece. */
  function Segments(s: string, sep: char): (r: seq<string>)
    ensures forall k :: 0 <= k < |r| ==> r[k] != "" && sep !in r[k]
    ensures s != "" && sep !in s ==> r == [s]
    decreases |s|
  {
    if |s| == 0 then []
    else if s[0] == sep then Segments(s[1..], sep)
    else
      var head := BeforeFirst(s, sep);
      assert sep !in s ==> head == s && s[|head|..] == [];
      [head] + Segments(s[|head|..], sep)
  }

  /** Splitting at a separator and splitting the two sides give the same
      pieces in the same order; with `Segments` of a text without a
      separator being that text, this fixes every result. */
  lemma {:induction false} SegmentsConcat(a: string, b: string, sep: char)
    ensures Segments(a + [sep] + b, sep) == Segments(a, sep) + Segments(b, sep)
    decreases |a|, 1
  {
    var s := a + [sep] + b;
    if |a| == 0 {
      assert s[0] == sep && s[1..] == b;
    } else if a[0] == sep {
      assert s[0] == sep && s[1..] == a[1..] + [sep] + b;
      SegmentsConcat(a[1..], b, sep);
    } else {
      SegmentsConcatWord(a, b, sep);
    }
  }

  lemma {:induction false} SegmentsConcatWord(a: string, b: string, sep: char)
    requires |a| > 0 && a[0] != sep
    ensures Segments(a + [sep] + b, sep) == Segments(a, sep) + Segments(b, sep)
    decreases |a|, 0
  {
    var s := a + [sep] + b;
    var head := BeforeFirst(a, sep);
    var rest := a[|head|..];
    assert a == head + rest;
    assert s == head + (rest + [sep] + b);
    assert s[0] == a[0];
    BeforeFirstOfHead(a, head, [sep] + b, sep);
    SegmentsWord(a, sep);
    SegmentsWord(s, sep);
    assert s[|head|..] == rest + [sep] + b;
    var x, y := Segments(rest, sep), Segments(b, sep);
    assert |head| > 0;
    SegmentsConcat(rest, b, sep);
    assert Segments(s, sep) == [head] + (x + y);
    assert Segments(a, sep) == [head] + x;
    ConcatAssoc([head], x, y);
  }

  /** The text before the first separator stays the same when text that
      starts with a separator is appended. */
  lemma BeforeFirstOfHead(a: string, head: string, c: string, sep: char)
    requires head == BeforeFirst(a, sep) && |c| > 0 && c[0] == sep
    ensures BeforeFirst(a + c, sep) == head
  {
    BeforeFirstConcat(a, c, sep);
    if sep !in a {
      assert |head| == |a|;
      assert head == a;
    }
  }

  /** A text that starts with a character other than the separator
      contributes its first piece, then the pieces of the rest. */
  lemma SegmentsWord(s: string, sep: char)
    requires |s| > 0 && s[0] != sep
    ensures Segments(s, sep) == [BeforeFirst(s, sep)] + Segments(s[|BeforeFirst(s, sep)|..], sep)
  {
  }

  lemma ConcatAssoc<T>(x: seq<T>, y: seq<T>, z: seq<T>)
    ensures x + (y + z) == (x + y) + z
  {
  }
}
