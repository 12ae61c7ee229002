/**
 The ASCII fragment of Python's string methods that the pipeline uses:
 `str.strip()`, `str.rstrip(chars)`, `str.upper()`, `str.lower()`, `sub in s`
 and `s.split(",")[0]`. Characters outside ASCII are left unchanged by the
 case mappings and are never whitespace here.
 */
module Ascii {

  /** Python's `str.isspace()` restricted to ASCII: TAB, LF, VT, FF, CR,
      the four information separators 0x1C-0x1F, and SPACE. */
  predicate IsSpace(c: char) {
    var n := c as int;
    n == 32 || 9 <= n <= 13 || 28 <= n <= 31
  }

  predicate IsLowerLetter(c: char) {
    'a' <= c <= 'z'
  }

  predicate IsUpperLetter(c: char) {
    'A' <= c <= 'Z'
  }

  function UpperChar(c: char): (u: char)
    ensures !IsLowerLetter(u)
    ensures IsLowerLetter(c) ==> u as int == c as int - 32
    ensures !IsLowerLetter(c) ==> u == c
  {
    if IsLowerLetter(c) then (c as int - 32) as char else c
  }

  function LowerChar(c: char): (l: char)
    ensures !IsUpperLetter(l)
    ensures IsUpperLetter(c) ==> l as int == c as int + 32
    ensures !IsUpperLetter(c) ==> l == c
  {
    if IsUpperLetter(c) then (c as int + 32) as char else c
  }

  /** `s.upper()` */
  function Upper(s: string): (u: string)
    ensures |u| == |s|
    ensures forall i :: 0 <= i < |s| ==> u[i] == UpperChar(s[i])
  {
    seq(|s|, i requires 0 <= i < |s| => UpperChar(s[i]))
  }

  /** `s.lower()` */
  function Lower(s: string): (l: string)
    ensures |l| == |s|
    ensures forall i :: 0 <= i < |s| ==> l[i] == LowerChar(s[i])
  {
    seq(|s|, i requires 0 <= i < |s| => LowerChar(s[i]))
  }

  /** Lower-casing forgets any earlier upper-casing, so a case-insensitive
      test on `s.upper().lower()` is the same test on `s.lower()`. */
  lemma LowerOfUpper(s: string)
    ensures Lower(Upper(s)) == Lower(s)
  {
    forall i | 0 <= i < |s|
      ensures Lower(Upper(s))[i] == Lower(s)[i]
    {
      var c := s[i];
      if IsLowerLetter(c) {
        assert UpperChar(c) as int == c as int - 32;
      }
    }
  }

  /** `sub` occurs in `s` starting at position `i` */
  predicate OccursAt(s: string, sub: string, i: int) {
    0 <= i <= |s| - |sub| && s[i..i + |sub|] == sub
  }

  /** `sub in s` for strings */
  predicate Contains(s: string, sub: string) {
    exists i | 0 <= i <= |s| - |sub| :: OccursAt(s, sub, i)
  }

  predicate HasNoSpaceAtEnds(s: string) {
    |s| == 0 || (!IsSpace(s[0]) && !IsSpace(s[|s| - 1]))
  }

  /** The number of whitespace characters at the start of `s`. */
  function LeadingSpaces(s: string): (n: nat)
    ensures n <= |s|
    ensures forall i :: 0 <= i < n ==> IsSpace(s[i])
    ensures n < |s| ==> !IsSpace(s[n])
  {
    if |s| > 0 && IsSpace(s[0]) then 1 + LeadingSpaces(s[1..]) else 0
  }

  /** The length of `s` once whitespace at its end is dropped. */
  function SpaceFreeEnd(s: string): (n: nat)
    ensures n <= |s|
    ensures forall i :: n <= i < |s| ==> IsSpace(s[i])
    ensures n > 0 ==> !IsSpace(s[n - 1])
  {
    if |s| > 0 && IsSpace(s[|s| - 1]) then SpaceFreeEnd(s[..|s| - 1]) else |s|
  }

  /** `s.lstrip()` */
  function TrimLeft(s: string): (r: string)
    ensures |r| <= |s| && r == s[|s| - |r|..]
    ensures |s| - |r| == LeadingSpaces(s)
    ensures forall i :: 0 <= i < |s| - |r| ==> IsSpace(s[i])
    ensures |r| > 0 ==> !IsSpace(r[0])
  {
    s[LeadingSpaces(s)..]
  }

  /** `s.rstrip()` */
  function TrimRight(s: string): (r: string)
    ensures |r| <= |s| && r == s[..|r|]
    ensures forall i :: |r| <= i < |s| ==> IsSpace(s[i])
    ensures |r| > 0 ==> !IsSpace(r[|r| - 1])
  {
    s[..SpaceFreeEnd(s)]
  }

  /** `s.strip()`: the infix left after removing whitespace at both ends.
      It starts after the leading whitespace, and only whitespace follows it. */
  function Strip(s: string): (r: string)
    ensures HasNoSpaceAtEnds(r)
    ensures LeadingSpaces(s) + |r| <= |s|
    ensures r == s[LeadingSpaces(s)..LeadingSpaces(s) + |r|]
    ensures forall i :: 0 <= i < LeadingSpaces(s) ==> IsSpace(s[i])
    ensures forall i :: LeadingSpaces(s) + |r| <= i < |s| ==> IsSpace(s[i])
  {
    TrimBothEnds(s);
    TrimRight(TrimLeft(s))
  }

  /** Trimming the left end and then the right end keeps one infix of `s`,
      with whitespace only on either side of it. */
  lemma TrimBothEnds(s: string)
    ensures var a := LeadingSpaces(s);
            var r := TrimRight(TrimLeft(s));
            && a + |r| <= |s|
            && r == s[a..a + |r|]
            && forall i :: a + |r| <= i < |s| ==> IsSpace(s[i])
  {
    var a := LeadingSpaces(s);
    var l := TrimLeft(s);
    var r := TrimRight(l);
    assert l == s[a..];
    TakeOfDrop(s, a, |r|);
    forall i | a + |r| <= i < |s|
      ensures IsSpace(s[i])
    {
      assert s[i] == l[i - a];
    }
  }

  /** A prefix of a suffix is an infix. */
  lemma TakeOfDrop(s: string, i: nat, n: nat)
    requires i + n <= |s|
    ensures s[i..][..n] == s[i..i + n]
  {
  }

  /** What `strip` keeps is a contiguous piece of its input. */
  lemma StripIsInfix(s: string)
    ensures OccursAt(s, Strip(s), |s| - |TrimLeft(s)|)
  {
    var l := TrimLeft(s);
    var t := TrimRight(l);
    TakeOfDrop(s, |s| - |l|, |t|);
  }

  lemma StripKeepsTrimmed(s: string)
    requires HasNoSpaceAtEnds(s)
    ensures Strip(s) == s
  {
  }

  /** The length of `s` once the copies of `c` at its end are dropped. */
  function CharFreeEnd(s: string, c: char): (n: nat)
    ensures n <= |s|
    ensures forall i :: n <= i < |s| ==> s[i] == c
    ensures n > 0 ==> s[n - 1] != c
  {
    if |s| > 0 && s[|s| - 1] == c then CharFreeEnd(s[..|s| - 1], c) else |s|
  }

  /** `s.rstrip(c)` for a single character `c` */
  function TrimRightChar(s: string, c: char): (r: string)
    ensures |r| <= |s| && r == s[..|r|]
    ensures forall i :: |r| <= i < |s| ==> s[i] == c
    ensures |r| > 0 ==> r[|r| - 1] != c
  {
    s[..CharFreeEnd(s, c)]
  }

  /** `rstrip(c)` leaves a text without `c` unchanged. */
  lemma TrimRightCharAbsent(s: string, c: char)
    ensures c !in s ==> TrimRightChar(s, c) == s
  {
    if c !in s && |s| > 0 {
      assert s[|s| - 1] != c;
    }
  }

  /** The position of the first `c` in `s`, or `|s|` when there is none. */
  function IndexOf(s: string, c: char): (k: nat)
    ensures k <= |s|
    ensures forall i :: 0 <= i < k ==> s[i] != c
    ensures k < |s| ==> s[k] == c
  {
    if |s| == 0 then 0
    else if s[0] == c then 0
    else 1 + IndexOf(s[1..], c)
  }

  /** `s.split(c)[0]`: everything before the first `c`. */
  function BeforeFirst(s: string, c: char): (r: string)
    ensures c !in r
    ensures |r| <= |s| && r == s[..|r|]
    ensures |r| < |s| ==> s[|r|] == c
    ensures |r| < |s| <==> c in s
  {
    s[..IndexOf(s, c)]
  }
}
