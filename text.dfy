/** String helpers with Python's meaning: `str.strip()` and the ASCII part of `str.lower()`. */
module Text {

  /** The characters Python's `str.isspace` accepts (and `str.strip()` removes). */
  predicate IsSpace(c: char)
  {
    ('\t' <= c <= '\r') || ('\U{1c}' <= c <= ' ') || c == '\U{85}' || c == '\U{a0}' ||
    c == '\U{1680}' || ('\U{2000}' <= c <= '\U{200a}') || c == '\U{2028}' || c == '\U{2029}' ||
    c == '\U{202f}' || c == '\U{205f}' || c == '\U{3000}'
  }

  /** The number of whitespace characters at the front of `s`. */
  function LeadingSpaces(s: string): (k: nat)
    ensures k <= |s|
    ensures forall i :: 0 <= i < k ==> IsSpace(s[i])
    ensures k < |s| ==> !IsSpace(s[k])
    decreases |s|
  {
    if s != [] && IsSpace(s[0]) then 1 + LeadingSpaces(s[1..]) else 0
  }

  /** The number of whitespace characters at the back of `s`. */
  function TrailingSpaces(s: string): (k: nat)
    ensures k <= |s|
    ensures forall i :: |s| - k <= i < |s| ==> IsSpace(s[i])
    ensures k < |s| ==> !IsSpace(s[|s| - 1 - k])
    decreases |s|
  {
    if s != [] && IsSpace(s[|s| - 1]) then 1 + TrailingSpaces(s[..|s| - 1]) else 0
  }

  /** Python's `s.strip()`: `s` without its leading and trailing whitespace. */
  function Strip(s: string): (r: string)
    ensures LeadingSpaces(s) + |r| <= |s|
    ensures r == s[LeadingSpaces(s)..LeadingSpaces(s) + |r|]
    ensures forall i :: LeadingSpaces(s) + |r| <= i < |s| ==> IsSpace(s[i])
    ensures r == [] || (!IsSpace(r[0]) && !IsSpace(r[|r| - 1]))
  {
    var a := LeadingSpaces(s);
    var t := s[a..];
    t[..|t| - TrailingSpaces(t)]
  }

  /** `str.lower()` on one character, for the ASCII letters. */
  function LowerChar(c: char): char
  {
    if 'A' <= c <= 'Z' then (c as int + 32) as char else c
  }

  /** `str.lower()`, for the ASCII letters: the same word ignoring case, with
      no upper-case ASCII letter left. */
  function Lower(s: string): (r: string)
    ensures SameIgnoringCase(s, r)
    ensures forall i :: 0 <= i < |r| ==> !('A' <= r[i] <= 'Z')
  {
    seq(|s|, i requires 0 <= i < |s| => LowerChar(s[i]))
  }

  /** `x` and `y` are the same character, or the same ASCII letter in two cases. */
  predicate SameLetter(x: char, y: char)
  {
    x == y ||
    ('A' <= x <= 'Z' && y as int == x as int + 32) ||
    ('a' <= x <= 'z' && y as int == x as int - 32)
  }

  /** `a` and `b` are equal when the case of ASCII letters is ignored. */
  predicate SameIgnoringCase(a: string, b: string)
  {
    |a| == |b| && forall i :: 0 <= i < |a| ==> SameLetter(a[i], b[i])
  }

  /** Lower-casing `w` yields the lower-case word `lit` exactly when `w` spells
      `lit` in any mixture of cases. */
  lemma {:induction false} LowerMatchesIgnoringCase(w: string, lit: string)
    requires forall i :: 0 <= i < |lit| ==> 'a' <= lit[i] <= 'z'
    ensures Lower(w) == lit <==> SameIgnoringCase(w, lit)
  {
    if |w| == |lit| {
      if Lower(w) == lit {
        forall i | 0 <= i < |w| ensures SameLetter(w[i], lit[i]) {
          assert Lower(w)[i] == lit[i];
        }
      }
      if SameIgnoringCase(w, lit) {
        forall i | 0 <= i < |w| ensures Lower(w)[i] == lit[i] {
          assert SameLetter(w[i], lit[i]);
        }
      }
    }
  }
}
