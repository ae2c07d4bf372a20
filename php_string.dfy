/** The PHP string routines that FinalResult relies on, on byte strings
    whose characters are taken one for one as Dafny chars. */
module PhpString {

  /** `ctype_digit($s)` for a string argument: true iff `s` is non-empty and
      every character is an ASCII decimal digit. */
  predicate IsAllDigits(s: string): (b: bool)
    ensures b <==> |s| > 0 && forall i :: 0 <= i < |s| ==> IsDigit(s[i])
  {
    |s| > 0 && IsDigit(s[0]) && (|s| == 1 || IsAllDigits(s[1..]))
  }

  predicate IsDigit(c: char) {
    '0' <= c <= '9'
  }

  /** `empty($s)` for a string argument: only "" and "0" are empty, that
      is, the strings of at most one character that are all zeros. */
  predicate PhpEmpty(s: string): (b: bool)
    ensures b <==> |s| <= 1 && forall i :: 0 <= i < |s| ==> s[i] == '0'
  {
    s == "" || s == "0"
  }

  predicate IsUpper(c: char) {
    'A' <= c <= 'Z'
  }

  /** The byte mapping of `strtolower`: ASCII upper case to lower case,
      every other byte unchanged. */
  function LowerChar(c: char): (d: char)
    ensures !IsUpper(d)
    ensures IsUpper(c) ==> d as int == c as int + 32
    ensures !IsUpper(c) ==> d == c
  {
    if IsUpper(c) then (c as int + 32) as char else c
  }

  /** `strtolower($s)`. */
  function ToLower(s: string): (r: string)
    ensures |r| == |s|
    ensures forall i :: 0 <= i < |s| ==> r[i] == LowerChar(s[i])
  {
    if s == [] then [] else [LowerChar(s[0])] + ToLower(s[1..])
  }

  /** `str_replace($from, $to, $s)` for one-character `$from` and `$to`:
      every occurrence of `from` becomes `to`, all else stays in place. */
  function ReplaceChar(s: string, from: char, to: char): (r: string)
    ensures |r| == |s|
    ensures forall i :: 0 <= i < |s| ==> r[i] == (if s[i] == from then to else s[i])
    ensures from != to ==> from !in r
  {
    if s == [] then [] else [if s[0] == from then to else s[0]] + ReplaceChar(s[1..], from, to)
  }

  /** The four cases the digit test is documented by. */
  lemma IsAllDigitsExamples()
    ensures IsAllDigits("123456")
    ensures !IsAllDigits("")
    ensures !IsAllDigits("12A456")
    ensures !IsAllDigits("-123")
  {
    assert "12A456"[2] == 'A';
    assert "-123"[0] == '-';
  }
}
