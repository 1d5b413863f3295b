/** The sequence operations a SELECT is built from: filtering (WHERE), a stable sort
    (ORDER BY, and the JavaScript `Array.prototype.sort` of the activity feed), SQLite's
    `LIMIT ? OFFSET ?` window and JavaScript's `slice(0, n)`, plus the BINARY collation
    order on text. */
module Ordering {

  // ---------------------------------------------------------------------------------
  // Text order
  // ---------------------------------------------------------------------------------

  /** `a <= b` under SQLite's BINARY collation: code point by code point, a proper
      prefix first. */
  predicate StrLe(a: string, b: string)
    decreases |a|
  {
    if |a| == 0 then true
    else if |b| == 0 then false
    else if a[0] != b[0] then a[0] < b[0]
    else StrLe(a[1..], b[1..])
  }

  lemma {:induction false} StrLeTotal(a: string, b: string)
    ensures StrLe(a, b) || StrLe(b, a)
    decreases |a|
  {
    if |a| > 0 && |b| > 0 && a[0] == b[0] {
      StrLeTotal(a[1..], b[1..]);
    }
  }

  lemma {:induction false} StrLeTransitive(a: string, b: string, c: string)
    requires StrLe(a, b) && StrLe(b, c)
    ensures StrLe(a, c)
    decreases |a|
  {
    if |a| > 0 && |b| > 0 && |c| > 0 && a[0] == b[0] && b[0] == c[0] {
      StrLeTransitive(a[1..], b[1..], c[1..]);
    }
  }

  lemma {:induction false} StrLeAntisymmetric(a: string, b: string)
    requires StrLe(a, b) && StrLe(b, a)
    ensures a == b
    decreases |a|
  {
    if |a| > 0 && |b| > 0 {
      StrLeAntisymmetric(a[1..], b[1..]);
      assert a == [a[0]] + a[1..] && b == [b[0]] + b[1..];
    }
  }

  // ---------------------------------------------------------------------------------
  // WHERE
  // ---------------------------------------------------------------------------------

  /** The elements of `s` that satisfy `p`, in their original order. */
  function Where<T(!new)>(s: seq<T>, p: T -> bool): (r: seq<T>)
    ensures |r| <= |s|
    ensures forall x :: x in r <==> x in s && p(x)
    ensures forall i :: 0 <= i < |r| ==> p(r[i])
  {
    if s == [] then []
    else if p(s[0]) then [s[0]] + Where(s[1..], p)
    else Where(s[1..], p)
  }

  // ---------------------------------------------------------------------------------
  // ORDER BY: stable insertion sort
  // ---------------------------------------------------------------------------------

  /** `before(a, b)`: `a` may come before `b`. A sort key order is a total preorder. */
  ghost predicate TotalPreorder<T(!new)>(before: (T, T) -> bool) {
    && (forall a, b :: before(a, b) || before(b, a))
    && (forall a, b, c :: before(a, b) && before(b, c) ==> before(a, c))
  }

  ghost predicate Sorted<T>(s: seq<T>, before: (T, T) -> bool) {
    forall i, j :: 0 <= i < j < |s| ==> before(s[i], s[j])
  }

  /** Inserts `x` into `s` before the first element it may precede; `x` goes ahead of
      the elements it ties with, which keeps a sort built on it stable. */
  function Insert<T>(x: T, s: seq<T>, before: (T, T) -> bool): (r: seq<T>)
    ensures multiset(r) == multiset(s) + multiset{x}
    ensures |r| == |s| + 1
  {
    if s == [] then [x]
    else if before(x, s[0]) then [x] + s
    else
      assert s == [s[0]] + s[1..];
      [s[0]] + Insert(x, s[1..], before)
  }

  /** Sorts by `before`; elements the order ties keep their original relative order. */
  function SortBy<T>(s: seq<T>, before: (T, T) -> bool): (r: seq<T>)
    ensures multiset(r) == multiset(s)
    ensures |r| == |s|
  {
    if s == [] then []
    else
      assert s == [s[0]] + s[1..];
      Insert(s[0], SortBy(s[1..], before), before)
  }

  lemma {:induction false} InsertSorted<T(!new)>(x: T, s: seq<T>, before: (T, T) -> bool)
    requires TotalPreorder(before) && Sorted(s, before)
    ensures Sorted(Insert(x, s, before), before)
  {
    if s != [] && !before(x, s[0]) {
      InsertSorted(x, s[1..], before);
      var r := Insert(x, s, before);
      var tail := Insert(x, s[1..], before);
      assert r == [s[0]] + tail;
      assert before(s[0], x);
      forall j | 0 < j < |r| ensures before(r[0], r[j]) {
        assert r[j] in multiset(tail);
        assert r[j] in multiset(s[1..]) + multiset{x};
        if r[j] != x {
          assert r[j] in s[1..];
          var k :| 0 <= k < |s[1..]| && s[1..][k] == r[j];
          assert s[k + 1] == r[j];
        }
      }
    }
  }

  /** ORDER BY yields a sorted permutation of its input. */
  lemma {:induction false} SortBySorted<T(!new)>(s: seq<T>, before: (T, T) -> bool)
    requires TotalPreorder(before)
    ensures Sorted(SortBy(s, before), before)
    ensures multiset(SortBy(s, before)) == multiset(s)
  {
    if s != [] {
      SortBySorted(s[1..], before);
      InsertSorted(s[0], SortBy(s[1..], before), before);
    }
  }

  // ---------------------------------------------------------------------------------
  // LIMIT / OFFSET and slice
  // ---------------------------------------------------------------------------------

  /** SQLite's `LIMIT limit OFFSET offset`: a negative offset counts as zero, a negative
      limit means no upper bound. */
  function Window<T>(s: seq<T>, limit: int, offset: int): (r: seq<T>)
    ensures var from := if offset < 0 then 0 else if offset > |s| then |s| else offset;
      && from + |r| <= |s| && r == s[from..from + |r|]
      && (limit >= 0 ==> |r| == if limit < |s| - from then limit else |s| - from)
      && (limit < 0 ==> |r| == |s| - from)
  {
    var from := if offset < 0 then 0 else if offset > |s| then |s| else offset;
    var rest := s[from..];
    if limit < 0 || limit >= |rest| then rest else rest[..limit]
  }

  /** JavaScript's `a.slice(0, end)` for an integer `end`: a negative `end` counts from
      the back, and the result never runs past either end of `a`. */
  function Slice0<T>(s: seq<T>, end: int): (r: seq<T>)
    ensures |r| <= |s| && r == s[..|r|]
    ensures end >= 0 ==> |r| == if end < |s| then end else |s|
    ensures end < 0 ==> |r| == if |s| + end > 0 then |s| + end else 0
  {
    var stop := if end < 0 then (if |s| + end > 0 then |s| + end else 0)
                else if end < |s| then end else |s|;
    s[..stop]
  }
}
