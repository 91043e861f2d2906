/** Character classes and small string helpers that the validators share.
    Strings are sequences of characters; JavaScript's UTF-16 `.length` is
    taken to be the sequence length. */
module Text {

  /** `\d` in a JavaScript regular expression: an ASCII decimal digit. */
  predicate IsDigit(c: char) {
    '0' <= c <= '9'
  }

  /** `\s` in a JavaScript regular expression: the ECMAScript WhiteSpace and
      LineTerminator code points (section 22.2.2.9 of ECMA-262). */
  predicate IsJsWhitespace(c: char) {
    var n := c as int;
    || n == 0x09 || n == 0x0A || n == 0x0B || n == 0x0C || n == 0x0D
    || n == 0x20 || n == 0xA0 || n == 0x1680
    || (0x2000 <= n <= 0x200A)
    || n == 0x2028 || n == 0x2029 || n == 0x202F || n == 0x205F
    || n == 0x3000 || n == 0xFEFF
  }

  /** Every character of `s` is a digit (the `\d` class repeated). */
  predicate AllDigits(s: string) {
    forall k :: 0 <= k < |s| ==> IsDigit(s[k])
  }

  /** `/\d/.test(s)`: an unanchored search for one digit, scanning left to right. */
  function HasDigit(s: string): (r: bool)
    ensures r <==> exists k :: 0 <= k < |s| && IsDigit(s[k])
    ensures r <==> !AllDigitFree(s)
  {
    if s == [] then false
    else if IsDigit(s[0]) then true
    else HasDigit(s[1..])
  }

  /** No character of `s` is a digit. */
  predicate AllDigitFree(s: string) {
    forall k :: 0 <= k < |s| ==> !IsDigit(s[k])
  }

  /** The first index at which `c` occurs in `s`, or `|s|` when it does not
      occur (a left-to-right search). */
  function IndexOf(s: string, c: char): (r: nat)
    ensures r <= |s|
    ensures r < |s| ==> s[r] == c
    ensures forall k :: 0 <= k < r ==> s[k] != c
  {
    if s == [] then 0
    else if s[0] == c then 0
    else 1 + IndexOf(s[1..], c)
  }

  /** `Array.prototype.toString` on an array of strings: the elements joined
      with commas, the empty string for an empty array. */
  function JoinWithCommas(parts: seq<string>): (r: string)
    ensures |parts| == 0 ==> r == ""
    ensures |parts| == 1 ==> r == parts[0]
    ensures |parts| > 1 ==> |r| >= |parts[0]| + 1 && r[..|parts[0]|] == parts[0] && r[|parts[0]|] == ','
  {
    if |parts| == 0 then ""
    else if |parts| == 1 then parts[0]
    else parts[0] + "," + JoinWithCommas(parts[1..])
  }
}
