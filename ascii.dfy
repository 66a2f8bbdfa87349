/** ASCII upper-casing: the part of Python's `str.upper` that the converter
    relies on when it normalises a currency code such as "eur" to "EUR". */
module Ascii {

  /** A lower-case ASCII letter. */
  predicate IsLower(c: char) {
    'a' <= c <= 'z'
  }

  /** A string with no lower-case ASCII letter in it. */
  predicate NoLower(s: string) {
    forall i :: 0 <= i < |s| ==> !IsLower(s[i])
  }

  /** Distance between a lower-case ASCII letter and its capital. */
  const CaseOffset: int := 'a' as int - 'A' as int

  /** Upper-case one character: a lower-case letter becomes its capital,
      every other character is left as it is. */
  function UpperChar(c: char): (u: char)
    ensures !IsLower(u)
    ensures !IsLower(c) ==> u == c
    ensures IsLower(c) ==> 'A' <= u <= 'Z' && u as int + CaseOffset == c as int
  {
    if IsLower(c) then (c as int - CaseOffset) as char else c
  }

  /** Upper-case a string character by character. */
  function Upper(s: string): (r: string)
    ensures |r| == |s|
    ensures NoLower(r)
    ensures forall i :: 0 <= i < |s| ==> r[i] == UpperChar(s[i])
  {
    if s == [] then [] else [UpperChar(s[0])] + Upper(s[1..])
  }

  /** A string that already has no lower-case letter is its own upper-case form. */
  lemma {:induction false} UpperFixesNoLower(s: string)
    requires NoLower(s)
    ensures Upper(s) == s
  {
    if s != [] {
      assert NoLower(s[1..]) by {
        forall i | 0 <= i < |s[1..]| ensures !IsLower(s[1..][i]) {
          assert s[1..][i] == s[i + 1];
        }
      }
      UpperFixesNoLower(s[1..]);
      assert s == [s[0]] + s[1..];
    }
  }

  /** Upper-casing twice is upper-casing once. */
  lemma UpperIdempotent(s: string)
    ensures Upper(Upper(s)) == Upper(s)
  {
    UpperFixesNoLower(Upper(s));
  }
}
