/** The two java.lang.String operations the controllers rely on: `trim()` and
    `equalsIgnoreCase`, the latter restricted to ASCII letters. */
module AsciiText {

  /** A character `trim()` removes: any code point up to and including U+0020. */
  predicate IsTrimmable(c: char) {
    c <= ' '
  }

  /** Every character of `s` is trimmable, so `s.trim().isEmpty()` holds. */
  predicate IsBlank(s: string) {
    forall i :: 0 <= i < |s| ==> IsTrimmable(s[i])
  }

  /** First index at or after `st` that holds a non-trimmable character (or |s|). */
  function SkipLeading(s: string, st: nat): (k: nat)
    requires st <= |s|
    ensures st <= k <= |s|
    ensures forall i :: st <= i < k ==> IsTrimmable(s[i])
    ensures k < |s| ==> !IsTrimmable(s[k])
    decreases |s| - st
  {
    if st < |s| && IsTrimmable(s[st]) then SkipLeading(s, st + 1) else st
  }

  /** Shrinks the end `len` while the character before it is trimmable, never below `st`. */
  function SkipTrailing(s: string, st: nat, len: nat): (k: nat)
    requires st <= len <= |s|
    ensures st <= k <= len
    ensures forall i :: k <= i < len ==> IsTrimmable(s[i])
    ensures st < k ==> !IsTrimmable(s[k - 1])
    decreases len
  {
    if st < len && IsTrimmable(s[len - 1]) then SkipTrailing(s, st, len - 1) else len
  }

  /** String.trim(): the substring between the first and the last non-trimmable character. */
  function Trim(s: string): (t: string)
    ensures |t| <= |s|
    ensures |t| == 0 <==> IsBlank(s)
    ensures |t| > 0 ==> !IsTrimmable(t[0]) && !IsTrimmable(t[|t| - 1])
  {
    var st := SkipLeading(s, 0);
    var len := SkipTrailing(s, st, |s|);
    assert |s[st..len]| == 0 ==> st == len;
    s[st..len]
  }

  /** Trim removes only trimmable characters, and only from the two ends. */
  lemma TrimIsInfix(s: string)
    ensures exists a, b :: 0 <= a <= b <= |s| && Trim(s) == s[a..b]
                           && IsBlank(s[..a]) && IsBlank(s[b..])
  {
    var a := SkipLeading(s, 0);
    var b := SkipTrailing(s, a, |s|);
    assert Trim(s) == s[a..b];
    assert IsBlank(s[..a]);
    assert IsBlank(s[b..]);
  }

  /** A string with no trimmable character at either end is its own trim. */
  lemma TrimFixesUntrimmed(s: string)
    requires |s| > 0 && !IsTrimmable(s[0]) && !IsTrimmable(s[|s| - 1])
    ensures Trim(s) == s
  {
  }

  predicate IsAsciiLetter(c: char) {
    'A' <= c <= 'Z' || 'a' <= c <= 'z'
  }

  /** Character.toLowerCase, restricted to ASCII letters. */
  function ToLowerAscii(c: char): (r: char)
    ensures 'A' <= c <= 'Z' ==> 'a' <= r <= 'z' && r as int - c as int == 32
    ensures !('A' <= c <= 'Z') ==> r == c
  {
    if 'A' <= c <= 'Z' then (c as int + 32) as char else c
  }

  /** String.equalsIgnoreCase over ASCII: equal lengths and characters equal after case folding. */
  function EqualsIgnoreCase(a: string, b: string): (equal: bool)
    ensures a == b ==> equal
    ensures equal ==> |a| == |b|
    ensures equal ==> forall i :: 0 <= i < |a| && !IsAsciiLetter(a[i]) ==> a[i] == b[i]
  {
    |a| == |b| && forall i :: 0 <= i < |a| ==> ToLowerAscii(a[i]) == ToLowerAscii(b[i])
  }

  /** The whole string folded to lower case, character by character. */
  function LowerAscii(s: string): (r: string)
    ensures |r| == |s|
    ensures forall i :: 0 <= i < |s| ==> r[i] == ToLowerAscii(s[i])
  {
    seq(|s|, i requires 0 <= i < |s| => ToLowerAscii(s[i]))
  }

  /** Ignoring case means comparing the lower-cased forms. */
  lemma EqualsIgnoreCaseIffLowerEqual(a: string, b: string)
    ensures EqualsIgnoreCase(a, b) <==> LowerAscii(a) == LowerAscii(b)
  {
  }
}
