/** The two JavaScript string built-ins that `splitExtension` is made of,
    `String.prototype.lastIndexOf` and `String.prototype.slice`, over strings
    seen as sequences of Dafny characters (Unicode scalar values; JavaScript
    indexes UTF-16 code units, which agree with them outside the astral
    planes). */
module JsString {

  /** `s.lastIndexOf(c)` for a one-character search string: the index of the
      last occurrence of `c`, or -1 when `c` does not occur. */
  function LastIndexOf(s: string, c: char): (r: int)
    ensures -1 <= r < |s|
    ensures r == -1 <==> c !in s
    ensures 0 <= r ==> s[r] == c
    ensures forall j :: r < j < |s| ==> s[j] != c
  {
    if |s| == 0 then -1
    else if s[|s| - 1] == c then |s| - 1
    else
      var r := LastIndexOf(s[..|s| - 1], c);
      assert forall j :: 0 <= j < |s| - 1 ==> s[..|s| - 1][j] == s[j];
      assert c in s ==> c in s[..|s| - 1] by {
        assert s == s[..|s| - 1] + [s[|s| - 1]];
      }
      r
  }

  /** How `slice` turns one of its (integer) arguments into a position in a
      string of length `len`: an argument inside `-len..len` is an index,
      counted from the end when negative; anything further out is clamped
      to the nearer end of the string. */
  function RelativeIndex(k: int, len: nat): (r: nat)
    ensures r <= len
    ensures 0 <= k <= len ==> r == k
    ensures k < 0 && 0 <= len + k ==> r == len + k
    ensures len < k ==> r == len
    ensures len + k < 0 ==> r == 0
  {
    if k < 0 then (if len + k < 0 then 0 else len + k)
    else if k < len then k
    else len
  }

  /** `s.slice(start, end)`: the run of `s` that begins at the relative start
      and ends at the relative end, empty when the end is not after the
      start. */
  function Slice(s: string, start: int, end: int): (r: string)
    ensures |r| == if RelativeIndex(start, |s|) < RelativeIndex(end, |s|)
                   then RelativeIndex(end, |s|) - RelativeIndex(start, |s|) else 0
    ensures forall k :: 0 <= k < |r| ==> r[k] == s[RelativeIndex(start, |s|) + k]
  {
    var from := RelativeIndex(start, |s|);
    var to := RelativeIndex(end, |s|);
    if from < to then s[from..to] else ""
  }

  /** `s.slice(start)`: the end argument defaults to the string's length, so
      the result is the suffix from `start` (counted from the end when
      negative), or "" when `start` is past the end. */
  function SliceFrom(s: string, start: int): (r: string)
    ensures 0 <= start <= |s| ==> r == s[start..]
    ensures |s| < start ==> r == ""
    ensures start < 0 && 0 <= |s| + start ==> r == s[|s| + start..]
    ensures |s| + start < 0 ==> r == s
  {
    Slice(s, start, |s|)
  }

  /** With indices inside the string, `slice` is the ordinary subsequence. */
  lemma SliceWithin(s: string, start: int, end: int)
    requires 0 <= start <= end <= |s|
    ensures Slice(s, start, end) == s[start..end]
  {
  }

  /** A negative end counts back from the end of the string: `s.slice(0, -k)`
      drops the last `k` characters. */
  lemma SliceNegativeEnd(s: string, k: int)
    requires 0 < k <= |s|
    ensures Slice(s, 0, -k) == s[..|s| - k]
  {
  }

  /** An end that reaches back past the start of the string gives "". */
  lemma SliceEndBeforeStart(s: string, k: int)
    requires |s| < k
    ensures Slice(s, 0, -k) == ""
  {
  }
}
