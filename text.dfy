/** JavaScript string primitives that the validator relies on: `trim()`,
    `length`, `toLowerCase()`, `includes()` and the character classes of
    JavaScript regular expressions.  A string is a sequence of Unicode
    scalar values (what Node.js decodes an environment variable into);
    JavaScript counts its length in UTF-16 code units. */
module JsText {

  /** The LineTerminator code points of ECMAScript: LF, CR, LS and PS.
      The regular-expression dot matches every code unit except these. */
  predicate IsLineTerminator(c: char) {
    c == '\n' || c == '\r' || c == '\U{2028}' || c == '\U{2029}'
  }

  /** ECMAScript WhiteSpace or LineTerminator: the set removed by `trim()`
      and matched by `\s`. */
  predicate IsWhiteSpace(c: char) {
    || c == '\t' || c == '\U{B}' || c == '\U{C}' || c == ' '
    || c == '\U{A0}' || c == '\U{FEFF}' || c == '\U{1680}'
    || ('\U{2000}' <= c <= '\U{200A}')
    || c == '\U{202F}' || c == '\U{205F}' || c == '\U{3000}'
    || IsLineTerminator(c)
  }

  /** `s.trim() === ''`: every character is white space (true of ""). */
  predicate IsBlank(s: string) {
    forall i :: 0 <= i < |s| ==> IsWhiteSpace(s[i])
  }

  /** No character of `s` is a line terminator. */
  predicate NoLineTerminator(s: string) {
    forall i :: 0 <= i < |s| ==> !IsLineTerminator(s[i])
  }

  /** Number of UTF-16 code units of one scalar value. */
  function CodeUnits(c: char): (n: nat)
    ensures n == 1 || n == 2
    ensures n == 2 <==> c > '\U{FFFF}'
  {
    if c <= '\U{FFFF}' then 1 else 2
  }

  /** `s.length`: JavaScript counts UTF-16 code units, so a character
      outside the Basic Multilingual Plane counts twice. */
  function Utf16Length(s: string): (n: nat)
    ensures |s| <= n <= 2 * |s|
  {
    if s == [] then 0 else Utf16Length(s[..|s| - 1]) + CodeUnits(s[|s| - 1])
  }

  lemma {:induction false} Utf16LengthAppend(a: string, b: string)
    ensures Utf16Length(a + b) == Utf16Length(a) + Utf16Length(b)
    decreases |b|
  {
    if b == [] {
      assert a + b == a;
    } else {
      var b' := b[..|b| - 1];
      assert (a + b)[..|a + b| - 1] == a + b';
      Utf16LengthAppend(a, b');
    }
  }

  /** A slice never counts more code units than the whole string. */
  lemma Utf16LengthSlice(s: string, i: nat, j: nat)
    requires i <= j <= |s|
    ensures Utf16Length(s[i..j]) <= Utf16Length(s)
  {
    var prefix := s[..j];
    assert prefix == s[..i] + s[i..j];
    Utf16LengthAppend(s[..i], s[i..j]);
    assert s == prefix + s[j..];
    Utf16LengthAppend(prefix, s[j..]);
  }

  /** When every character is in the Basic Multilingual Plane, JavaScript's
      length is the number of characters. */
  lemma {:induction false} Utf16LengthBmp(s: string)
    requires forall i :: 0 <= i < |s| ==> s[i] <= '\U{FFFF}'
    ensures Utf16Length(s) == |s|
  {
    if s != [] {
      Utf16LengthBmp(s[..|s| - 1]);
    }
  }

  /** `toLowerCase()` restricted to ASCII letters. */
  function LowerChar(c: char): (d: char)
    ensures 'A' <= c <= 'Z' ==> 'a' <= d <= 'z' && d as int - c as int == 32
    ensures !('A' <= c <= 'Z') ==> d == c
  {
    if 'A' <= c <= 'Z' then (c as int + 32) as char else c
  }

  function ToLower(s: string): (r: string)
    ensures |r| == |s|
    ensures forall i :: 0 <= i < |s| ==> r[i] == LowerChar(s[i])
  {
    seq(|s|, i requires 0 <= i < |s| => LowerChar(s[i]))
  }

  /** A value without upper-case ASCII letters is its own lower case. */
  lemma ToLowerUnchanged(s: string)
    requires forall i :: 0 <= i < |s| ==> !('A' <= s[i] <= 'Z')
    ensures ToLower(s) == s
  {
  }

  /** Lower-casing works character by character, so it distributes over
      concatenation. */
  lemma ToLowerAppend(a: string, b: string)
    ensures ToLower(a + b) == ToLower(a) + ToLower(b)
  {
  }

  /** `p` occurs in `s` starting at index `i`. */
  predicate OccursAt(s: string, p: string, i: int) {
    0 <= i <= |s| - |p| && s[i..i + |p|] == p
  }

  /** `s.includes(p)`. */
  predicate Contains(s: string, p: string) {
    exists i | 0 <= i <= |s| - |p| :: OccursAt(s, p, i)
  }

  lemma ContainsInfix(a: string, p: string, b: string)
    ensures Contains(a + p + b, p)
  {
    assert OccursAt(a + p + b, p, |a|);
  }

  /** `ps.some(p => s.includes(p))`. */
  predicate ContainsAny(s: string, ps: seq<string>) {
    exists p | p in ps :: Contains(s, p)
  }

  /** `s` has, starting at index `i`, the characters of `p` up to ASCII
      case. */
  predicate OccursIgnoringCaseAt(s: string, p: string, i: int) {
    0 <= i <= |s| - |p| && ToLower(s[i..i + |p|]) == ToLower(p)
  }

  /** `p` occurs in `s` in any mix of ASCII upper and lower case. */
  predicate ContainsIgnoringCase(s: string, p: string) {
    exists i | 0 <= i <= |s| - |p| :: OccursIgnoringCaseAt(s, p, i)
  }

  /** Lower-casing commutes with slicing. */
  lemma ToLowerSlice(s: string, i: int, j: int)
    requires 0 <= i <= j <= |s|
    ensures ToLower(s)[i..j] == ToLower(s[i..j])
  {
  }

  /** `s.toLowerCase().includes(p)` for a lower-case `p` is a
      case-insensitive search: it finds `p` written in any case. */
  lemma LoweredSearchIgnoresCase(s: string, p: string)
    requires ToLower(p) == p
    ensures Contains(ToLower(s), p) <==> ContainsIgnoringCase(s, p)
  {
    if Contains(ToLower(s), p) {
      var i :| 0 <= i <= |s| - |p| && OccursAt(ToLower(s), p, i);
      ToLowerSlice(s, i, i + |p|);
      assert OccursIgnoringCaseAt(s, p, i);
    }
    if ContainsIgnoringCase(s, p) {
      var i :| 0 <= i <= |s| - |p| && OccursIgnoringCaseAt(s, p, i);
      ToLowerSlice(s, i, i + |p|);
      assert OccursAt(ToLower(s), p, i);
    }
  }

  /** The same for `ps.some(p => s.toLowerCase().includes(p))` over a list
      of lower-case markers. */
  lemma LoweredSearchAnyIgnoresCase(s: string, ps: seq<string>)
    requires forall p | p in ps :: ToLower(p) == p
    ensures ContainsAny(ToLower(s), ps) <==> exists p | p in ps :: ContainsIgnoringCase(s, p)
  {
    forall p | p in ps
      ensures Contains(ToLower(s), p) <==> ContainsIgnoringCase(s, p)
    {
      LoweredSearchIgnoresCase(s, p);
    }
  }
}
