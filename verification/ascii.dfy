/** ASCII case folding, standing in for JavaScript's `String.prototype.toLowerCase`. */
module Ascii {

  predicate IsUpperChar(c: char) {
    'A' <= c <= 'Z'
  }

  /** Lower-cases one character; anything outside `A`..`Z` is left alone. */
  function LowerChar(c: char): (r: char)
    ensures !IsUpperChar(r)
    ensures IsUpperChar(c) ==> r as int == c as int + 32
    ensures !IsUpperChar(c) ==> r == c
  {
    if IsUpperChar(c) then (c as int + 32) as char else c
  }

  /** True when `s` contains no upper-case ASCII letter. */
  predicate IsLower(s: string) {
    forall i :: 0 <= i < |s| ==> !IsUpperChar(s[i])
  }

  /** `s.toLowerCase()`, restricted to ASCII letters. */
  function Lower(s: string): (r: string)
    ensures |r| == |s|
    ensures IsLower(r)
  {
    if s == [] then [] else [LowerChar(s[0])] + Lower(s[1..])
  }

  /** Lower-casing a string with no upper-case letter changes nothing. */
  lemma {:induction false} LowerOfLower(s: string)
    requires IsLower(s)
    ensures Lower(s) == s
  {
    if s != [] {
      assert IsLower(s[1..]) by {
        forall i | 0 <= i < |s[1..]| ensures !IsUpperChar(s[1..][i]) {
          assert s[1..][i] == s[i + 1];
        }
      }
      LowerOfLower(s[1..]);
    }
  }

  /** Each character of `Lower(s)` is the lower-cased character of `s` at
      the same position. */
  lemma {:induction false} LowerAt(s: string, i: nat)
    requires i < |s|
    ensures Lower(s)[i] == LowerChar(s[i])
  {
    if i > 0 {
      LowerAt(s[1..], i - 1);
    }
  }

  /** No string lower-cases to one containing an upper-case letter, so a
      case-sensitive comparison of `Lower(s)` against such a key always fails. */
  lemma LowerNeverEqualsUpper(s: string, key: string)
    requires !IsLower(key)
    ensures Lower(s) != key
  {
  }
}
