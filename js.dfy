/** The JavaScript value rules the handlers lean on when they read request fields: a
    field is `None` when it is absent (`undefined`) or `null`. */
module Js {
  import opened Wrappers

  /** What multer stores in `req.file` for an uploaded file: the generated name, the
      client's name, the MIME type and the size in bytes. */
  datatype Upload = Upload(filename: string, originalName: string, mimeType: string, size: nat)

  /** Truthiness of an optional string: `undefined`, `null` and `""` are falsy. */
  predicate Truthy(v: Option<string>) {
    v.Some? && v.value != ""
  }

  /** `v || fallback` for a string field. */
  function Or(v: Option<string>, fallback: string): (r: string)
    ensures Truthy(v) ==> r == v.value
    ensures !Truthy(v) ==> r == fallback
  {
    if Truthy(v) then v.value else fallback
  }

  /** `v || null` for a string field. */
  function OrNull(v: Option<string>): (r: Option<string>)
    ensures r.Some? <==> Truthy(v)
    ensures r.Some? ==> r == v
  {
    if Truthy(v) then v else None
  }

  /** `n || fallback` for a number field: `undefined`, `null` and `0` are falsy. */
  function NumOr(n: Option<int>, fallback: int): (r: int)
    ensures n.Some? && n.value != 0 ==> r == n.value
    ensures n.None? || n.value == 0 ==> r == fallback
  {
    if n.Some? && n.value != 0 then n.value else fallback
  }

  /** `n || null` for a number field. */
  function NumOrNull(n: Option<int>): (r: Option<int>)
    ensures r.Some? <==> n.Some? && n.value != 0
    ensures r.Some? ==> r == n
  {
    if n.Some? && n.value != 0 then n else None
  }

  /** The string form of a nullable value in a template literal: `null` prints as "null". */
  function Show(v: Option<string>): string {
    if v.Some? then v.value else "null"
  }

  /** The whitespace `String.prototype.trim` removes, restricted to the ASCII controls and
      the space. */
  predicate IsSpace(c: char) {
    c == ' ' || c == '\t' || c == '\n' || c == '\r'
  }

  /** The first position at or after `i` that is not whitespace, or `|s|`. */
  function FirstNonSpace(s: string, i: nat): (k: nat)
    requires i <= |s|
    ensures i <= k <= |s|
    ensures forall j :: i <= j < k ==> IsSpace(s[j])
    ensures k == |s| || !IsSpace(s[k])
    decreases |s| - i
  {
    if i == |s| || !IsSpace(s[i]) then i else FirstNonSpace(s, i + 1)
  }

  /** The end of the text before position `e` once trailing whitespace is cut. */
  function EndOfNonSpace(s: string, e: nat): (k: nat)
    requires e <= |s|
    ensures k <= e
    ensures forall j :: k <= j < e ==> IsSpace(s[j])
    ensures k == 0 || !IsSpace(s[k - 1])
  {
    if e == 0 || !IsSpace(s[e - 1]) then e else EndOfNonSpace(s, e - 1)
  }

  /** `s[a..b]` is what is left of `s` once whitespace is cut from both ends. */
  predicate StripsTo(s: string, a: int, b: int) {
    && 0 <= a <= b <= |s|
    && (forall i :: 0 <= i < a ==> IsSpace(s[i]))
    && (forall i :: b <= i < |s| ==> IsSpace(s[i]))
  }

  /** `s.trim()`: the text between the leading and the trailing whitespace. */
  function Trim(s: string): (r: string)
    ensures exists a, b :: StripsTo(s, a, b) && r == s[a..b]
    ensures r == [] || (!IsSpace(r[0]) && !IsSpace(r[|r| - 1]))
    ensures r == [] <==> forall i :: 0 <= i < |s| ==> IsSpace(s[i])
  {
    var a := FirstNonSpace(s, 0);
    var b := if a == |s| then a else EndOfNonSpace(s, |s|);
    assert StripsTo(s, a, b);
    s[a..b]
  }

  /** A sanitized optional field: trimmed when present. */
  function Trimmed(v: Option<string>): Option<string> {
    if v.Some? then Some(Trim(v.value)) else None
  }

  /** Trimming is idempotent. */
  lemma {:induction false} TrimIdempotent(s: string)
    ensures Trim(Trim(s)) == Trim(s)
  {
    var r := Trim(s);
    if r != [] {
      assert FirstNonSpace(r, 0) == 0;
      assert EndOfNonSpace(r, |r|) == |r|;
    }
  }
}
