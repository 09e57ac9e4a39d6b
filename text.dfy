/**
 * The string operations the resolver uses, restricted to ASCII:
 * `str.isdigit`, `sub in s`, `s.split("/")[-1]`, and the name
 * normalisation `(n or "").lower().replace(".", "").strip()`.
 */
module Text {

  predicate IsAsciiDigit(c: char) {
    '0' <= c <= '9'
  }

  /** Python's `s.isdigit()`: non-empty and made of digits only. */
  predicate IsDigits(s: string) {
    |s| > 0 && forall i :: 0 <= i < |s| ==> IsAsciiDigit(s[i])
  }

  /** Python's `sub in s`: `sub` occurs contiguously somewhere in `s`. */
  predicate Contains(s: string, sub: string)
    decreases |s|
  {
    if |s| < |sub| then false
    else if s[..|sub|] == sub then true
    else |s| > 0 && Contains(s[1..], sub)
  }

  /** A string contains whatever occurs in it between a prefix and a suffix. */
  lemma {:induction false} ContainsInfix(u: string, sub: string, v: string)
    ensures Contains(u + sub + v, sub)
    decreases |u|
  {
    var s := u + sub + v;
    if u == [] {
      assert s[..|sub|] == sub;
    } else {
      ContainsInfix(u[1..], sub, v);
      assert s[1..] == u[1..] + sub + v;
    }
  }

  /** Every character of an occurring substring occurs in the string. */
  lemma {:induction false} ContainsCharacter(s: string, sub: string, k: nat)
    requires Contains(s, sub) && k < |sub|
    ensures sub[k] in s
    decreases |s|
  {
    if s[..|sub|] == sub {
      assert s[k] == sub[k];
    } else {
      ContainsCharacter(s[1..], sub, k);
      assert s[1..][..] == s[1..];
    }
  }

  /**
   * Python's `s.split("/")[-1]`: the part of `s` after its last `/`,
   * or all of `s` when it holds no `/`.
   */
  function LastSegment(s: string): (r: string)
    ensures '/' !in r
    ensures |r| <= |s| && r == s[|s| - |r|..]
    ensures |r| < |s| ==> s[|s| - |r| - 1] == '/'
    ensures '/' !in s ==> r == s
  {
    if s == [] then []
    else if s[|s| - 1] == '/' then []
    else
      var init := s[..|s| - 1];
      var r' := LastSegment(init);
      assert init[|init| - |r'|..] + [s[|s| - 1]] == s[|s| - |r'| - 1..];
      assert '/' !in s ==> '/' !in init;
      r' + [s[|s| - 1]]
  }

  /** ASCII upper case to lower case; everything else is kept. */
  function LowerChar(c: char): char {
    if 'A' <= c <= 'Z' then (c as int + 32) as char else c
  }

  predicate IsAsciiUpper(c: char) {
    'A' <= c <= 'Z'
  }

  /** Python's `s.lower()` on ASCII letters. */
  function Lower(s: string): string {
    if s == [] then [] else [LowerChar(s[0])] + Lower(s[1..])
  }

  lemma {:induction false} LowerHasNoUpper(s: string)
    ensures |Lower(s)| == |s|
    ensures forall i :: 0 <= i < |s| ==> Lower(s)[i] == LowerChar(s[i])
    ensures forall c :: c in Lower(s) ==> !IsAsciiUpper(c)
  {
    if s != [] {
      LowerHasNoUpper(s[1..]);
      assert forall i :: 1 <= i < |s| ==> Lower(s)[i] == Lower(s[1..])[i - 1];
    }
  }

  /** Lower-casing a string without upper-case letters changes nothing. */
  lemma LowerOfLower(s: string)
    requires forall c :: c in s ==> !IsAsciiUpper(c)
    ensures Lower(s) == s
  {
    LowerHasNoUpper(s);
    assert forall i :: 0 <= i < |s| ==> !IsAsciiUpper(s[i]);
  }

  /** Python's `s.replace(".", "")`. */
  function RemoveDots(s: string): string {
    if s == [] then [] else (if s[0] == '.' then [] else [s[0]]) + RemoveDots(s[1..])
  }

  /** The characters Python's `str.strip()` removes, restricted to ASCII. */
  predicate IsSpace(c: char) {
    c == ' ' || c == '\t' || c == '\n' || c == '\r' || c == '\U{000B}' || c == '\U{000C}'
    || ('\U{001C}' <= c <= '\U{001F}')
  }

  function StripLeft(s: string): string {
    if s != [] && IsSpace(s[0]) then StripLeft(s[1..]) else s
  }

  function StripRight(s: string): string {
    if s != [] && IsSpace(s[|s| - 1]) then StripRight(s[..|s| - 1]) else s
  }

  /** `lstrip` removes only white space and keeps a suffix that does not start with white space. */
  lemma {:induction false} StripLeftIsSuffix(s: string)
    ensures |StripLeft(s)| <= |s| && StripLeft(s) == s[|s| - |StripLeft(s)|..]
    ensures forall k :: 0 <= k < |s| - |StripLeft(s)| ==> IsSpace(s[k])
    ensures StripLeft(s) != [] ==> !IsSpace(StripLeft(s)[0])
  {
    if s != [] && IsSpace(s[0]) {
      StripLeftIsSuffix(s[1..]);
      assert forall k :: 1 <= k < |s| ==> s[k] == s[1..][k - 1];
    }
  }

  /** `rstrip` removes only white space and keeps a prefix that does not end with white space. */
  lemma {:induction false} StripRightIsPrefix(s: string)
    ensures |StripRight(s)| <= |s| && StripRight(s) == s[..|StripRight(s)|]
    ensures forall k :: |StripRight(s)| <= k < |s| ==> IsSpace(s[k])
    ensures StripRight(s) != [] ==> !IsSpace(StripRight(s)[|StripRight(s)| - 1])
  {
    if s != [] && IsSpace(s[|s| - 1]) {
      StripRightIsPrefix(s[..|s| - 1]);
      assert forall k :: 0 <= k < |s| - 1 ==> s[k] == s[..|s| - 1][k];
    }
  }

  /** Python's `s.strip()`: a slice of `s` that neither starts nor ends with white space. */
  function Strip(s: string): string {
    StripRight(StripLeft(s))
  }

  /**
   * Stripping keeps a slice of the string that neither starts nor ends
   * with white space, and what it removes on either side is white space.
   */
  lemma StripIsTrimmedSlice(s: string)
    ensures exists i, j :: 0 <= i <= j <= |s| && Strip(s) == s[i..j]
              && (forall k :: 0 <= k < i ==> IsSpace(s[k]))
              && (forall k :: j <= k < |s| ==> IsSpace(s[k]))
    ensures Strip(s) != [] ==> !IsSpace(Strip(s)[0]) && !IsSpace(Strip(s)[|Strip(s)| - 1])
  {
    var l := StripLeft(s);
    var r := StripRight(l);
    StripLeftIsSuffix(s);
    StripRightIsPrefix(l);
    var i := |s| - |l|;
    var j := i + |r|;
    assert r == s[i..j] by {
      assert r == s[i..][..|r|];
    }
    SuffixSpaces(s, l, r);
    assert r != [] ==> r[0] == l[0];
  }

  /** Trailing white space of a suffix is trailing white space of the whole string. */
  lemma SuffixSpaces(s: string, l: string, r: string)
    requires |l| <= |s| && l == s[|s| - |l|..] && |r| <= |l|
    requires forall k :: |r| <= k < |l| ==> IsSpace(l[k])
    ensures forall k :: |s| - |l| + |r| <= k < |s| ==> IsSpace(s[k])
  {
    forall k | |s| - |l| + |r| <= k < |s|
      ensures IsSpace(s[k])
    {
      assert s[k] == l[k - (|s| - |l|)];
    }
  }

  /** A string with white space at neither end is its own strip. */
  lemma StripOfTrimmed(s: string)
    requires s != [] ==> !IsSpace(s[0]) && !IsSpace(s[|s| - 1])
    ensures Strip(s) == s
  {
  }

  /** The name normalisation of the matcher: lower-cased, periods removed, trimmed. */
  function Norm(n: string): string {
    Strip(RemoveDots(Lower(n)))
  }

  /** Removing periods keeps the other characters and leaves a string without periods unchanged. */
  lemma {:induction false} RemoveDotsKeeps(s: string)
    ensures |RemoveDots(s)| <= |s|
    ensures '.' !in RemoveDots(s)
    ensures forall c :: c in RemoveDots(s) ==> c in s
    ensures '.' !in s ==> RemoveDots(s) == s
  {
    if s != [] {
      RemoveDotsKeeps(s[1..]);
      assert '.' !in s ==> '.' !in s[1..];
    }
  }

  /** Periods are removed character by character: removal distributes over concatenation. */
  lemma {:induction false} RemoveDotsAppend(a: string, b: string)
    ensures RemoveDots(a + b) == RemoveDots(a) + RemoveDots(b)
  {
    if a != [] {
      assert (a + b)[1..] == a[1..] + b;
      RemoveDotsAppend(a[1..], b);
    } else {
      assert a + b == b;
    }
  }

  /**
   * A normalised name holds no period and no upper-case letter, and
   * neither starts nor ends with white space.
   */
  lemma NormIsCanonical(n: string)
    ensures '.' !in Norm(n)
    ensures forall c :: c in Norm(n) ==> !IsAsciiUpper(c)
    ensures Norm(n) != [] ==> !IsSpace(Norm(n)[0]) && !IsSpace(Norm(n)[|Norm(n)| - 1])
  {
    var l := Lower(n);
    LowerHasNoUpper(n);
    var d := RemoveDots(l);
    RemoveDotsKeeps(l);
    StripIsTrimmedSlice(d);
    var r := Strip(d);
    assert forall c :: c in r ==> c in d;
  }

  /** A name that is already lower-case, period-free and trimmed is its own normalisation. */
  lemma NormOfNormal(n: string)
    requires '.' !in n
    requires forall c :: c in n ==> !IsAsciiUpper(c)
    requires n != [] ==> !IsSpace(n[0]) && !IsSpace(n[|n| - 1])
    ensures Norm(n) == n
  {
    LowerOfLower(n);
    RemoveDotsKeeps(n);
    StripOfTrimmed(n);
  }

  /** Normalising twice is the same as normalising once. */
  lemma NormIdempotent(n: string)
    ensures Norm(Norm(n)) == Norm(n)
  {
    NormIsCanonical(n);
    NormOfNormal(Norm(n));
  }
}
