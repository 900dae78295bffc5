/** Character classes and string searches used by the validators, the
    sanitisers and the translation lookup. Strings are `seq<char>`, one
    element per Unicode scalar value; JavaScript measures and cuts strings
    in UTF-16 code units, which `Utf16Length` and `Utf16Prefix` model. Case
    conversion is ASCII-only. */
module Text {
  import opened Common

  predicate IsAsciiUpper(c: char) { 'A' <= c <= 'Z' }

  predicate IsAsciiLower(c: char) { 'a' <= c <= 'z' }

  predicate IsDigit(c: char) { '0' <= c <= '9' }

  /** JavaScript's `\w`: ASCII letters, digits and the underscore. */
  predicate IsWordChar(c: char) {
    IsAsciiUpper(c) || IsAsciiLower(c) || IsDigit(c) || c == '_'
  }

  /** JavaScript's `\s` and the set `String.prototype.trim` strips:
      white space and line terminators. */
  predicate IsSpace(c: char) {
    c == '\t' || c == '\n' || c == '\U{000B}' || c == '\U{000C}' || c == '\r' || c == ' '
    || c == '\U{00A0}' || c == '\U{1680}' || ('\U{2000}' <= c <= '\U{200A}')
    || c == '\U{2028}' || c == '\U{2029}' || c == '\U{202F}' || c == '\U{205F}'
    || c == '\U{3000}' || c == '\U{FEFF}'
  }

  /** Lower-cases one ASCII letter; every other character is returned as is. */
  function LowerChar(c: char): (r: char)
    ensures !IsAsciiUpper(r)
    ensures IsAsciiUpper(c) <==> r != c
    ensures IsAsciiUpper(c) ==> r as int == c as int + 32
  {
    if IsAsciiUpper(c) then (c as int + 32) as char else c
  }

  function Lower(s: string): (r: string)
    ensures |r| == |s|
    ensures forall i :: 0 <= i < |r| ==> r[i] == LowerChar(s[i])
  {
    seq(|s|, i requires 0 <= i < |s| => LowerChar(s[i]))
  }

  /** `s.startsWith(p)`. */
  predicate StartsWith(s: string, p: string) {
    |p| <= |s| && s[..|p|] == p
  }

  /** `s.endsWith(p)`. */
  predicate EndsWith(s: string, p: string) {
    |p| <= |s| && s[|s| - |p|..] == p
  }

  predicate OccursAt(s: string, sub: string, i: int) {
    0 <= i && i + |sub| <= |s| && s[i..i + |sub|] == sub
  }

  /** The first position at or after `from` where `sub` occurs in `s`
      (`s.indexOf(sub, from)`), or None. */
  function IndexOf(s: string, sub: string, from: nat): (r: Option<nat>)
    requires from <= |s|
    ensures r.Some? ==> from <= r.value && OccursAt(s, sub, r.value)
    ensures r.Some? ==> forall j :: from <= j < r.value ==> !OccursAt(s, sub, j)
    ensures r.None? ==> forall j :: from <= j ==> !OccursAt(s, sub, j)
    decreases |s| - from
  {
    if OccursAt(s, sub, from) then Some(from)
    else if from + |sub| >= |s| then None
    else IndexOf(s, sub, from + 1)
  }

  /** `s.includes(sub)`. */
  predicate Includes(s: string, sub: string) {
    IndexOf(s, sub, 0).Some?
  }

  lemma IncludesIff(s: string, sub: string)
    ensures Includes(s, sub) <==> exists i :: OccursAt(s, sub, i)
  {
    if Includes(s, sub) {
      assert OccursAt(s, sub, IndexOf(s, sub, 0).value);
    }
  }

  /** Case-insensitive (ASCII) match of `word` at position `i` of `s`. */
  predicate CiOccursAt(s: string, word: string, i: nat) {
    i + |word| <= |s| && forall j :: 0 <= j < |word| ==> LowerChar(s[i + j]) == LowerChar(word[j])
  }

  /** `s.trimStart()`: drops leading white space. */
  function TrimStart(s: string): (r: string)
    ensures |r| <= |s|
    ensures |r| > 0 ==> !IsSpace(r[0])
    ensures r == s[|s| - |r|..]
    ensures forall k :: 0 <= k < |s| - |r| ==> IsSpace(s[k])
  {
    if |s| > 0 && IsSpace(s[0]) then TrimStart(s[1..]) else s
  }

  /** `s.trimEnd()`: drops trailing white space. */
  function TrimEnd(s: string): (r: string)
    ensures |r| <= |s|
    ensures |r| > 0 ==> !IsSpace(r[|r| - 1])
    ensures r == s[..|r|]
    ensures forall k :: |r| <= k < |s| ==> IsSpace(s[k])
  {
    if |s| > 0 && IsSpace(s[|s| - 1]) then TrimEnd(s[..|s| - 1]) else s
  }

  /** `s.trim()`. */
  function Trim(s: string): (r: string)
    ensures |r| <= |s|
    ensures |r| > 0 ==> !IsSpace(r[0]) && !IsSpace(r[|r| - 1])
  {
    TrimEnd(TrimStart(s))
  }

  predicate IsHexDigit(c: char) {
    IsDigit(c) || ('a' <= c <= 'f') || ('A' <= c <= 'F')
  }

  // ------------------------------------------------------------ UTF-16

  /** The code units a character takes in UTF-16: one below U+10000, two
      (a surrogate pair) above. */
  function Units(c: char): (n: nat)
    ensures 1 <= n <= 2
  {
    if c as int < 0x10000 then 1 else 2
  }

  /** JavaScript's `s.length`. */
  function Utf16Length(s: string): (n: nat)
    ensures |s| <= n <= 2 * |s|
    decreases |s|
  {
    if |s| == 0 then 0 else Units(s[0]) + Utf16Length(s[1..])
  }

  /** Every character is in the Basic Multilingual Plane. */
  predicate Bmp(s: string) {
    forall k :: 0 <= k < |s| ==> Units(s[k]) == 1
  }

  /** JavaScript's length is the number of characters exactly when no
      character needs a surrogate pair. */
  lemma {:induction false} Utf16LengthIsSize(s: string)
    ensures Utf16Length(s) == |s| <==> Bmp(s)
    decreases |s|
  {
    if |s| > 0 {
      Utf16LengthIsSize(s[1..]);
      if Bmp(s) {
        assert Bmp(s[1..]) by {
          forall k | 0 <= k < |s| - 1 ensures Units(s[1..][k]) == 1 {
            assert s[1..][k] == s[k + 1];
          }
        }
      }
      if Utf16Length(s) == |s| {
        forall k | 0 <= k < |s| ensures Units(s[k]) == 1 {
          if k > 0 { assert s[k] == s[1..][k - 1]; }
        }
      }
    }
  }

  /** The longest prefix, in characters, whose UTF-16 length fits in
      `budget` units: where `s.substring(0, budget)` ends when the cut does
      not split a surrogate pair. */
  function Utf16Prefix(s: string, budget: int): (k: nat)
    ensures k <= |s|
    ensures k == 0 || Utf16Length(s[..k]) <= budget
    ensures k < |s| ==> Utf16Length(s[..k]) + Units(s[k]) > budget
    decreases |s|
  {
    if |s| == 0 || Units(s[0]) > budget then 0
    else
      var j := Utf16Prefix(s[1..], budget - Units(s[0]));
      assert s[..j + 1][1..] == s[1..][..j];
      assert j < |s| - 1 ==> s[j + 1] == s[1..][j];
      1 + j
  }

  /** On text without surrogate pairs the prefix is the first `budget`
      characters, clamped to the text. */
  lemma {:induction false} BmpPrefix(s: string, budget: int)
    requires Bmp(s)
    ensures Utf16Prefix(s, budget) == if budget < 0 then 0 else if budget > |s| then |s| else budget
    decreases |s|
  {
    if |s| > 0 && Units(s[0]) <= budget {
      assert Bmp(s[1..]) by {
        forall k | 0 <= k < |s| - 1 ensures Units(s[1..][k]) == 1 {
          assert s[1..][k] == s[k + 1];
        }
      }
      BmpPrefix(s[1..], budget - 1);
    }
  }
}
