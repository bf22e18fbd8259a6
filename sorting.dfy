/** Ordering of query results. The application leaves sorting to SQL's
    `ORDER BY`; the model states what such a result is — the selected rows,
    each exactly as often as selected, in non-decreasing order of a total
    preorder — and computes one such result with an insertion sort. Rows
    that tie may come back in any order from the database; the model picks one. */
module Sorting {
  import opened Strings

  ghost predicate IsTotalPreorder<T(!new)>(le: (T, T) -> bool) {
    && (forall a, b :: le(a, b) || le(b, a))
    && (forall a, b, c :: le(a, b) && le(b, c) ==> le(a, c))
  }

  predicate Sorted<T>(s: seq<T>, le: (T, T) -> bool) {
    forall i, j :: 0 <= i < j < |s| ==> le(s[i], s[j])
  }

  function Insert<T(!new)>(x: T, s: seq<T>, le: (T, T) -> bool): (r: seq<T>)
    requires IsTotalPreorder(le) && Sorted(s, le)
    ensures Sorted(r, le)
    ensures multiset(r) == multiset(s) + multiset{x}
    ensures forall k :: 0 <= k < |r| ==> r[k] == x || r[k] in s
  {
    if |s| == 0 then [x]
    else if le(x, s[0]) then
      InsertFront(x, s, le);
      [x] + s
    else
      var rest := Insert(x, s[1..], le);
      assert s == [s[0]] + s[1..];
      InsertBehind(x, s, rest, le);
      [s[0]] + rest
  }

  lemma InsertFront<T(!new)>(x: T, s: seq<T>, le: (T, T) -> bool)
    requires IsTotalPreorder(le) && Sorted(s, le)
    requires |s| > 0 && le(x, s[0])
    ensures Sorted([x] + s, le)
  {
    forall j | 0 < j < |s| ensures le(x, s[j]) {
      assert le(s[0], s[j]);
    }
  }

  lemma InsertBehind<T(!new)>(x: T, s: seq<T>, rest: seq<T>, le: (T, T) -> bool)
    requires IsTotalPreorder(le) && Sorted(s, le)
    requires |s| > 0 && !le(x, s[0])
    requires Sorted(rest, le)
    requires forall k :: 0 <= k < |rest| ==> rest[k] == x || rest[k] in s[1..]
    ensures Sorted([s[0]] + rest, le)
  {
    assert le(s[0], x);
    forall k | 0 <= k < |rest| ensures le(s[0], rest[k]) {
      if rest[k] != x {
        var j :| 0 <= j < |s[1..]| && s[1..][j] == rest[k];
        assert s[1..][j] == s[j + 1];
      }
    }
  }

  /** `ORDER BY`: the same rows, each as often, in order. */
  function SortBy<T(!new)>(s: seq<T>, le: (T, T) -> bool): (r: seq<T>)
    requires IsTotalPreorder(le)
    ensures Sorted(r, le)
    ensures multiset(r) == multiset(s)
    ensures |r| == |s|
  {
    if |s| == 0 then []
    else
      assert s == [s[0]] + s[1..];
      var r := Insert(s[0], SortBy(s[1..], le), le);
      assert |r| == |multiset(r)| == |s|;
      r
  }

  /** `ORDER BY key ASC` on a text column, in byte order. The tables'
      case-insensitive collation is not modelled. */
  function ByKey<T(!new)>(key: T -> string): (le: (T, T) -> bool)
    ensures forall a, b :: le(a, b) <==> LessEq(key(a), key(b))
  {
    (a, b) => LessEq(key(a), key(b))
  }

  /** `ORDER BY key1 ASC, key2 ASC`, in byte order, like ByKey. */
  function ByKeys<T(!new)>(key1: T -> string, key2: T -> string): (le: (T, T) -> bool)
    ensures forall a, b :: le(a, b) <==>
      Less(key1(a), key1(b)) || (key1(a) == key1(b) && LessEq(key2(a), key2(b)))
  {
    (a, b) => Less(key1(a), key1(b)) || (key1(a) == key1(b) && LessEq(key2(a), key2(b)))
  }

  lemma ByKeyTotal<T(!new)>(key: T -> string)
    ensures IsTotalPreorder(ByKey(key))
  {
    var le := ByKey(key);
    forall a, b ensures le(a, b) || le(b, a) {
      LessTrichotomy(key(a), key(b));
    }
    forall a, b, c | le(a, b) && le(b, c) ensures le(a, c) {
      if Less(key(a), key(b)) && Less(key(b), key(c)) {
        LessTransitive(key(a), key(b), key(c));
      }
    }
  }

  lemma ByKeysTotal<T(!new)>(key1: T -> string, key2: T -> string)
    ensures IsTotalPreorder(ByKeys(key1, key2))
  {
    var le := ByKeys(key1, key2);
    forall a, b ensures le(a, b) || le(b, a) {
      LessTrichotomy(key1(a), key1(b));
      LessTrichotomy(key2(a), key2(b));
    }
    forall a, b, c | le(a, b) && le(b, c) ensures le(a, c) {
      if Less(key1(a), key1(b)) && Less(key1(b), key1(c)) {
        LessTransitive(key1(a), key1(b), key1(c));
      }
      if Less(key2(a), key2(b)) && Less(key2(b), key2(c)) {
        LessTransitive(key2(a), key2(b), key2(c));
      }
    }
  }
}
