/** The JavaScript string primitives the callback-URL rewrite relies on:
    `indexOf`, `lastIndexOf`, `substring` and `replace` with a string pattern.
    A JavaScript string is a sequence of UTF-16 code units: its `length` and
    every index count code units, so a character outside the Basic
    Multilingual Plane takes two places. */
module JsString {

  /** A UTF-16 code unit. */
  newtype CodeUnit = u: int | 0 <= u < 0x1_0000

  /** A JavaScript string value. */
  type Utf16 = seq<CodeUnit>

  /** The JavaScript string of an ASCII text: one code unit per character. */
  function Ascii(s: string): (r: Utf16)
    requires forall i :: 0 <= i < |s| ==> s[i] as int < 0x80
    ensures |r| == |s|
    ensures forall i :: 0 <= i < |s| ==> r[i] as int == s[i] as int
  {
    seq(|s|, i requires 0 <= i < |s| => s[i] as int as CodeUnit)
  }

  /** `p` occurs in `s` starting at index `i`. */
  predicate OccursAt(s: Utf16, p: Utf16, i: int) {
    0 <= i && i + |p| <= |s| && s[i..i + |p|] == p
  }

  predicate Contains(s: Utf16, p: Utf16) {
    exists i :: 0 <= i <= |s| && OccursAt(s, p, i)
  }

  /** `i` is the leftmost occurrence of `p` in `s`. */
  predicate FirstOccurrence(s: Utf16, p: Utf16, i: int) {
    OccursAt(s, p, i) && forall j :: 0 <= j < i ==> !OccursAt(s, p, j)
  }

  /** `i` is the rightmost occurrence of `p` in `s`. */
  predicate LastOccurrence(s: Utf16, p: Utf16, i: int) {
    OccursAt(s, p, i) && forall j :: i < j <= |s| ==> !OccursAt(s, p, j)
  }

  /** Leftmost occurrence of `p` at or after `k`, or -1. */
  function IndexOfFrom(s: Utf16, p: Utf16, k: nat): (r: int)
    ensures r == -1 ==> forall i :: k <= i ==> !OccursAt(s, p, i)
    ensures r != -1 ==> k <= r && OccursAt(s, p, r)
    ensures r != -1 ==> forall i :: k <= i < r ==> !OccursAt(s, p, i)
    decreases |s| - k
  {
    if |s| < k + |p| then -1
    else if s[k..k + |p|] == p then k
    else IndexOfFrom(s, p, k + 1)
  }

  /** `s.indexOf(p)`: the leftmost occurrence, or -1 when there is none. */
  function IndexOf(s: Utf16, p: Utf16): (r: int)
    ensures r == -1 <==> !Contains(s, p)
    ensures r != -1 ==> FirstOccurrence(s, p, r)
  {
    IndexOfFrom(s, p, 0)
  }

  /** Rightmost occurrence of `p` at or before `k`, or -1. */
  function LastIndexOfFrom(s: Utf16, p: Utf16, k: int): (r: int)
    requires -1 <= k
    ensures r == -1 ==> forall i :: 0 <= i <= k ==> !OccursAt(s, p, i)
    ensures r != -1 ==> 0 <= r <= k && OccursAt(s, p, r)
    ensures r != -1 ==> forall i :: r < i <= k ==> !OccursAt(s, p, i)
    decreases k + 1
  {
    if k == -1 then -1
    else if OccursAt(s, p, k) then k
    else LastIndexOfFrom(s, p, k - 1)
  }

  /** `s.lastIndexOf(p)`: the search starts at `|s| - |p|`, the last place
      an occurrence fits, and returns -1 when there is none. */
  function LastIndexOf(s: Utf16, p: Utf16): (r: int)
    ensures r == -1 <==> !Contains(s, p)
    ensures r != -1 ==> LastOccurrence(s, p, r)
  {
    LastIndexOfFrom(s, p, if |s| < |p| then -1 else |s| - |p|)
  }

  /** An index argument of `substring` clamped into `[0, len]`. */
  function ClampIndex(i: int, len: nat): (r: nat)
    ensures r <= len
    ensures 0 <= i <= len ==> r == i
  {
    if i < 0 then 0 else if i > len then len else i
  }

  /** `s.substring(start, end)`: both indices are clamped into `[0, |s|]`
      (negative ones become 0) and swapped when `start > end`. */
  function Substring(s: Utf16, start: int, end: int): (r: Utf16)
    ensures 0 <= start <= end <= |s| ==> r == s[start..end]
    ensures start <= 0 && end <= 0 ==> r == []
    ensures |r| <= |s|
  {
    var a := ClampIndex(start, |s|);
    var b := ClampIndex(end, |s|);
    if a <= b then s[a..b] else s[b..a]
  }

  /** `s.replace(p, rep)` with a string pattern: only the leftmost occurrence
      is replaced; without one, `s` is returned as it is. */
  function ReplaceFirst(s: Utf16, p: Utf16, rep: Utf16): (r: Utf16)
    ensures !Contains(s, p) ==> r == s
    ensures forall i :: FirstOccurrence(s, p, i) ==> r == s[..i] + rep + s[i + |p|..]
  {
    var i := IndexOf(s, p);
    if i == -1 then s
    else
      assert forall j :: FirstOccurrence(s, p, j) ==> j == i;
      s[..i] + rep + s[i + |p|..]
  }
}
