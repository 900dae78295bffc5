/** `sanitizeInput` and `escapeHtml` from the security utilities, with
    every regular-expression replacement written out as the left-to-right
    scan a global `String.prototype.replace` performs: at each position the
    pattern is tried; on a match the matched text is dropped (or replaced)
    and the scan resumes after it, otherwise one character is kept. The
    `i` flag folds ASCII letters only, as JavaScript does for a
    non-Unicode pattern. */
module Sanitize {
  import opened Text

  // ------------------------------------------------------------ escapeHtml

  /** The characters `escapeHtml` replaces. */
  const HtmlSpecial: set<char> := {'&', '<', '>', '"', '\'', '/', '`', '='}

  /** The entity for one special character. */
  function Entity(c: char): (e: string)
    requires c in HtmlSpecial
    ensures |e| > 0 && e[0] == '&' && e[|e| - 1] == ';'
  {
    match c
    case '&' => "&amp;"
    case '<' => "&lt;"
    case '>' => "&gt;"
    case '"' => "&quot;"
    case '\'' => "&#039;"
    case '/' => "&#x2F;"
    case '`' => "&#x60;"
    case '=' => "&#x3D;"
  }

  function EscapeHtml(s: string): (r: string)
    ensures |r| >= |s|
    ensures forall i :: 0 <= i < |r| ==> r[i] !in HtmlSpecial - {'&'}
    decreases |s|
  {
    if |s| == 0 then ""
    else (if s[0] in HtmlSpecial then Entity(s[0]) else [s[0]]) + EscapeHtml(s[1..])
  }

  /** The inverse mapping, for strings that `EscapeHtml` produced: each
      entity is read back to its character. */
  function Unescape(s: string): string
    decreases |s|
  {
    if |s| == 0 then ""
    else if s[0] != '&' then [s[0]] + Unescape(s[1..])
    else if StartsWith(s, "&amp;") then "&" + Unescape(s[5..])
    else if StartsWith(s, "&lt;") then "<" + Unescape(s[4..])
    else if StartsWith(s, "&gt;") then ">" + Unescape(s[4..])
    else if StartsWith(s, "&quot;") then "\"" + Unescape(s[6..])
    else if StartsWith(s, "&#039;") then "'" + Unescape(s[6..])
    else if StartsWith(s, "&#x2F;") then "/" + Unescape(s[6..])
    else if StartsWith(s, "&#x60;") then "`" + Unescape(s[6..])
    else if StartsWith(s, "&#x3D;") then "=" + Unescape(s[6..])
    else [s[0]] + Unescape(s[1..])
  }

  /** An entity followed by anything reads back as its character. */
  lemma UnescapeEntity(c: char, rest: string)
    requires c in HtmlSpecial
    ensures Unescape(Entity(c) + rest) == [c] + Unescape(rest)
  {
    if c in {'&', '<', '>', '"'} {
      UnescapeNamed(c, rest);
    } else {
      UnescapeNumeric(c, rest);
    }
  }

  /** The four named entities. */
  lemma UnescapeNamed(c: char, rest: string)
    requires c in {'&', '<', '>', '"'}
    ensures Unescape(Entity(c) + rest) == [c] + Unescape(rest)
  {
    var e := Entity(c);
    var t := e + rest;
    assert t[..|e|] == e && t[|e|..] == rest;
    assert t[0] == '&';
    if c == '<' {
      assert t[1] == 'l';
    } else if c == '>' {
      assert t[1] == 'g';
    } else if c == '"' {
      assert t[1] == 'q';
    }
  }

  /** The four numeric entities. */
  lemma UnescapeNumeric(c: char, rest: string)
    requires c in {'\'', '/', '`', '='}
    ensures Unescape(Entity(c) + rest) == [c] + Unescape(rest)
  {
    var t := Entity(c) + rest;
    if c == '\'' || c == '/' {
      assert t[6..] == rest;
      assert t[0] == '&' && t[1] == '#';
      DiffersAt(t, "&amp;", 1);
      DiffersAt(t, "&lt;", 1);
      DiffersAt(t, "&gt;", 1);
      DiffersAt(t, "&quot;", 1);
      if c == '\'' {
        assert StartsWith(t, "&#039;");
      } else {
        assert StartsWith(t, "&#x2F;");
        DiffersAt(t, "&#039;", 2);
      }
    } else {
      UnescapeLateHex(c, rest);
    }
  }

  /** The two entities tested last. */
  lemma UnescapeLateHex(c: char, rest: string)
    requires c in {'`', '='}
    ensures Unescape(Entity(c) + rest) == [c] + Unescape(rest)
  {
    var t := Entity(c) + rest;
    assert t[6..] == rest;
    assert t[0] == '&' && t[1] == '#' && t[2] == 'x';
    DiffersAt(t, "&amp;", 1);
    DiffersAt(t, "&lt;", 1);
    DiffersAt(t, "&gt;", 1);
    DiffersAt(t, "&quot;", 1);
    DiffersAt(t, "&#039;", 2);
    DiffersAt(t, "&#x2F;", 3);
    if c == '`' {
      assert StartsWith(t, "&#x60;");
      assert Unescape(t) == "`" + Unescape(t[6..]);
    } else {
      assert StartsWith(t, "&#x3D;");
      DiffersAt(t, "&#x60;", 3);
      assert Unescape(t) == "=" + Unescape(t[6..]);
    }
  }

  /** A text that differs from `p` at some position inside both does not
      start with `p`. */
  lemma DiffersAt(s: string, p: string, k: int)
    requires 0 <= k < |p| && k < |s| && s[k] != p[k]
    ensures !StartsWith(s, p)
  {
    if |p| <= |s| {
      assert s[..|p|][k] == s[k];
    }
  }

  /** Escaping loses nothing: every special character maps to its own
      entity and every other character is kept, so the text is recovered
      by reading the entities back. */
  lemma {:induction false} EscapeRoundTrip(s: string)
    ensures Unescape(EscapeHtml(s)) == s
    decreases |s|
  {
    if |s| > 0 {
      var rest := EscapeHtml(s[1..]);
      EscapeRoundTrip(s[1..]);
      var c := s[0];
      if c in HtmlSpecial {
        assert EscapeHtml(s) == Entity(c) + rest;
        UnescapeEntity(c, rest);
      } else {
        assert EscapeHtml(s) == [c] + rest;
        assert ([c] + rest)[1..] == rest;
      }
      assert [c] + s[1..] == s;
    }
  }

  /** Text without special characters is returned as it is. */
  lemma {:induction false} EscapePlain(s: string)
    requires forall i :: 0 <= i < |s| ==> s[i] !in HtmlSpecial
    ensures EscapeHtml(s) == s
    decreases |s|
  {
    if |s| > 0 {
      EscapePlain(s[1..]);
      assert [s[0]] + s[1..] == s;
    }
  }

  // ------------------------------------------------------------ scans

  /** `replace(/<[^>]*>/g, '')`: a `<` with a `>` somewhere after it starts
      a tag that runs to the first such `>`; a `<` without one is kept. */
  function StripTags(s: string): (r: string)
    ensures |r| <= |s|
    ensures forall i :: 0 <= i < |r| ==> r[i] in s
    ensures forall i, j :: 0 <= i < j < |r| && r[i] == '<' ==> r[j] != '>'
    decreases |s|
  {
    if |s| == 0 then ""
    else if s[0] == '<' && '>' in s[1..] then
      var k := FirstGt(s[1..]);
      var r := StripTags(s[1..][k + 1..]);
      assert forall i :: 0 <= i < |r| ==> r[i] in s by {
        forall i | 0 <= i < |r| ensures r[i] in s {
          assert r[i] in s[1..][k + 1..];
        }
      }
      r
    else
      var rest := StripTags(s[1..]);
      var r := [s[0]] + rest;
      assert forall i :: 0 <= i < |rest| ==> rest[i] in s by {
        forall i | 0 <= i < |rest| ensures rest[i] in s {
          assert rest[i] in s[1..];
        }
      }
      assert s[0] == '<' ==> forall j :: 0 <= j < |rest| ==> rest[j] != '>';
      r
  }

  /** The position of the first `>`. */
  function FirstGt(s: string): (k: nat)
    requires '>' in s
    ensures k < |s| && s[k] == '>' && '>' !in s[..k]
    decreases |s|
  {
    if s[0] == '>' then 0 else 1 + FirstGt(s[1..])
  }

  /** Drops every non-overlapping, case-insensitive occurrence of `w`,
      scanning from the left: `replace(/w/gi, '')` for a literal `w`. */
  function RemoveLiteral(s: string, w: string): (r: string)
    requires |w| > 0
    ensures |r| <= |s|
    ensures forall i :: 0 <= i < |r| ==> r[i] in s
    decreases |s|
  {
    if |s| == 0 then ""
    else if CiOccursAt(s, w, 0) then
      var r := RemoveLiteral(s[|w|..], w);
      assert forall i :: 0 <= i < |r| ==> r[i] in s by {
        forall i | 0 <= i < |r| ensures r[i] in s { assert r[i] in s[|w|..]; }
      }
      r
    else
      var rest := RemoveLiteral(s[1..], w);
      assert forall i :: 0 <= i < |rest| ==> rest[i] in s by {
        forall i | 0 <= i < |rest| ensures rest[i] in s { assert rest[i] in s[1..]; }
      }
      [s[0]] + rest
  }

  /** A match in the tail is a match one position later in the whole. */
  lemma CiShift(s: string, w: string, i: nat)
    requires |s| > 0
    ensures CiOccursAt(s[1..], w, i) ==> CiOccursAt(s, w, i + 1)
  {
    if CiOccursAt(s[1..], w, i) {
      forall j | 0 <= j < |w|
        ensures LowerChar(s[i + 1 + j]) == LowerChar(w[j])
      {
        assert s[1..][i + j] == s[i + 1 + j];
      }
    }
  }

  /** Nothing to remove leaves the text unchanged. */
  lemma {:induction false} RemoveLiteralAbsent(s: string, w: string)
    requires |w| > 0
    requires forall i: nat :: i < |s| ==> !CiOccursAt(s, w, i)
    ensures RemoveLiteral(s, w) == s
    decreases |s|
  {
    if |s| > 0 {
      assert !CiOccursAt(s, w, 0);
      forall i: nat | i < |s[1..]|
        ensures !CiOccursAt(s[1..], w, i)
      {
        CiShift(s, w, i);
      }
      RemoveLiteralAbsent(s[1..], w);
      assert [s[0]] + s[1..] == s;
    }
  }

  predicate NoDoubleDot(s: string) {
    forall i :: 0 <= i < |s| - 1 ==> !(s[i] == '.' && s[i + 1] == '.')
  }

  /** A scan that does not start at a dot keeps its first character. */
  lemma DotScanHead(s: string)
    requires |s| > 0 && s[0] != '.'
    ensures |RemoveLiteral(s, "..")| > 0 && RemoveLiteral(s, "..")[0] == s[0]
  {
    assert ".."[0] == '.' && LowerChar('.') == '.';
    assert LowerChar(s[0]) != '.' by {
      if IsAsciiUpper(s[0]) {
        assert IsAsciiLower(LowerChar(s[0]));
      }
    }
  }

  /** `replace(/\.\./g, '')` leaves no two adjacent dots: a dot survives
      only when the next character is not a dot, and that character
      survives too. */
  lemma {:induction false} NoDoubleDotAfterRemoval(s: string)
    ensures NoDoubleDot(RemoveLiteral(s, ".."))
    decreases |s|
  {
    if |s| > 0 {
      if CiOccursAt(s, "..", 0) {
        NoDoubleDotAfterRemoval(s[2..]);
      } else {
        NoDoubleDotAfterRemoval(s[1..]);
        var rest := RemoveLiteral(s[1..], "..");
        var r := RemoveLiteral(s, "..");
        assert r == [s[0]] + rest;
        if s[0] == '.' && |rest| > 0 {
          assert |s| >= 2;
          assert s[1] != '.';
          DotScanHead(s[1..]);
        }
      }
    }
  }

  /** The length of the run of word characters starting at `j`. */
  function WordRun(s: string, j: nat): (n: nat)
    requires j <= |s|
    ensures j + n <= |s|
    ensures forall k :: j <= k < j + n ==> IsWordChar(s[k])
    ensures j + n < |s| ==> !IsWordChar(s[j + n])
    decreases |s| - j
  {
    if j < |s| && IsWordChar(s[j]) then 1 + WordRun(s, j + 1) else 0
  }

  /** The length of an event-handler attribute `on\w+=` (case-insensitive)
      at the start of `s`. The greedy `\w+` takes the whole run of word
      characters; backtracking cannot help, since a shorter run is
      followed by a word character rather than `=`. */
  function HandlerAt(s: string): (n: nat)
    ensures n <= |s|
    ensures n > 0 ==> n >= 4 && CiOccursAt(s, "on", 0) && s[n - 1] == '='
  {
    if CiOccursAt(s, "on", 0) then
      var run := WordRun(s, 2);
      if run >= 1 && 2 + run < |s| && s[2 + run] == '=' then 3 + run else 0
    else 0
  }

  /** `replace(/on\w+=/gi, '')`. */
  function RemoveHandlers(s: string): (r: string)
    ensures |r| <= |s|
    ensures forall i :: 0 <= i < |r| ==> r[i] in s
    decreases |s|
  {
    if |s| == 0 then ""
    else
      var n := HandlerAt(s);
      if n > 0 then
        var r := RemoveHandlers(s[n..]);
        assert forall i :: 0 <= i < |r| ==> r[i] in s by {
          forall i | 0 <= i < |r| ensures r[i] in s { assert r[i] in s[n..]; }
        }
        r
      else
        var rest := RemoveHandlers(s[1..]);
        assert forall i :: 0 <= i < |rest| ==> rest[i] in s by {
          forall i | 0 <= i < |rest| ensures rest[i] in s { assert rest[i] in s[1..]; }
        }
        [s[0]] + rest
  }

  /** `replace(/[...]/g, '')` for a character class. */
  function RemoveChars(s: string, bad: set<char>): (r: string)
    ensures |r| <= |s|
    ensures forall i :: 0 <= i < |r| ==> r[i] in s && r[i] !in bad
    decreases |s|
  {
    if |s| == 0 then ""
    else
      var rest := RemoveChars(s[1..], bad);
      assert forall i :: 0 <= i < |rest| ==> rest[i] in s by {
        forall i | 0 <= i < |rest| ensures rest[i] in s { assert rest[i] in s[1..]; }
      }
      if s[0] in bad then rest else [s[0]] + rest
  }

  /** Only the listed characters go: every other character keeps its
      number of occurrences, and text without listed characters is
      returned as it is. */
  lemma {:induction false} RemoveCharsKeepsOthers(s: string, bad: set<char>)
    ensures forall c :: c !in bad ==> multiset(RemoveChars(s, bad))[c] == multiset(s)[c]
    ensures (forall i :: 0 <= i < |s| ==> s[i] !in bad) ==> RemoveChars(s, bad) == s
    decreases |s|
  {
    if |s| > 0 {
      RemoveCharsKeepsOthers(s[1..], bad);
      assert s == [s[0]] + s[1..];
      assert multiset(s) == multiset([s[0]]) + multiset(s[1..]);
      var rest := RemoveChars(s[1..], bad);
      if s[0] !in bad {
        assert multiset([s[0]] + rest) == multiset([s[0]]) + multiset(rest);
      }
    }
  }

  /** The SQL keywords in the order of the alternation. */
  const SqlKeywords: seq<string> :=
    ["SELECT", "INSERT", "UPDATE", "DELETE", "DROP", "UNION", "ALTER", "CREATE", "EXEC", "EXECUTE"]

  /** A keyword at `i` followed by a word boundary. */
  predicate KeywordEndsAt(s: string, w: string, i: nat) {
    CiOccursAt(s, w, i) && (i + |w| == |s| || !IsWordChar(s[i + |w|]))
  }

  /** The first keyword, in alternation order from `k`, that matches at `i`
      with a word boundary after it; 0 when none does. */
  function KeywordFrom(s: string, i: nat, k: nat): nat
    requires k <= |SqlKeywords|
    decreases |SqlKeywords| - k
  {
    if k == |SqlKeywords| then 0
    else if KeywordEndsAt(s, SqlKeywords[k], i) then |SqlKeywords[k]|
    else KeywordFrom(s, i, k + 1)
  }

  /** The alternation finds a keyword exactly when one matches, and what it
      finds is the length of a matching keyword. */
  lemma {:induction false} KeywordFromSpec(s: string, i: nat, k: nat)
    requires k <= |SqlKeywords|
    ensures var n := KeywordFrom(s, i, k);
            && (n > 0 ==> exists m :: k <= m < |SqlKeywords| && n == |SqlKeywords[m]| && KeywordEndsAt(s, SqlKeywords[m], i))
            && (n == 0 <==> forall m :: k <= m < |SqlKeywords| ==> !KeywordEndsAt(s, SqlKeywords[m], i))
    decreases |SqlKeywords| - k
  {
    if k < |SqlKeywords| {
      var w := SqlKeywords[k];
      if KeywordEndsAt(s, w, i) {
        assert KeywordFrom(s, i, k) == |w|;
      } else {
        KeywordFromSpec(s, i, k + 1);
      }
    }
  }

  /** A keyword starts with a letter, so the `\b` before it means the
      previous character is not a word character. */
  predicate BoundaryBefore(s: string, i: nat) {
    i == 0 || (i <= |s| && !IsWordChar(s[i - 1]))
  }

  /** Some keyword of length `n` occurs at `i`, ignoring case. */
  predicate MatchesKeyword(s: string, i: nat, n: nat) {
    exists m :: 0 <= m < |SqlKeywords| && n == |SqlKeywords[m]| && CiOccursAt(s, SqlKeywords[m], i)
  }

  /** No keyword followed by a boundary matches at `i`. */
  predicate NoKeywordAt(s: string, i: nat) {
    forall m :: 0 <= m < |SqlKeywords| ==> !KeywordEndsAt(s, SqlKeywords[m], i)
  }

  /** The length of a keyword match at `i`, or 0. A match is a whole word:
      no word character touches it on either side. */
  function KeywordAt(s: string, i: nat): (n: nat)
    ensures n > 0 ==> i + n <= |s| && BoundaryBefore(s, i) && (i + n == |s| || !IsWordChar(s[i + n]))
    ensures n > 0 ==> MatchesKeyword(s, i, n)
    ensures n == 0 <==> !BoundaryBefore(s, i) || NoKeywordAt(s, i)
  {
    if BoundaryBefore(s, i) then KeywordMatch(s, i); KeywordFrom(s, i, 0) else 0
  }

  /** What the result of the alternation says about the text. */
  lemma KeywordMatch(s: string, i: nat)
    ensures var n := KeywordFrom(s, i, 0);
            && (n > 0 ==> && i + n <= |s| && (i + n == |s| || !IsWordChar(s[i + n]))
                          && MatchesKeyword(s, i, n))
            && (n == 0 <==> NoKeywordAt(s, i))
  {
    var n := KeywordFrom(s, i, 0);
    KeywordFromSpec(s, i, 0);
    if n > 0 {
      var m :| 0 <= m < |SqlKeywords| && n == |SqlKeywords[m]| && KeywordEndsAt(s, SqlKeywords[m], i);
      assert CiOccursAt(s, SqlKeywords[m], i);
    }
  }

  /** `replace(/\b(SELECT|...|EXECUTE)\b/gi, '')`, scanning `s` from `i`
      (the boundary looks back into the original text). */
  function RemoveKeywordsFrom(s: string, i: nat): (r: string)
    requires i <= |s|
    ensures |r| <= |s| - i
    ensures forall j :: 0 <= j < |r| ==> r[j] in s
    decreases |s| - i
  {
    if i == |s| then ""
    else
      var n := KeywordAt(s, i);
      if n > 0 then RemoveKeywordsFrom(s, i + n)
      else [s[i]] + RemoveKeywordsFrom(s, i + 1)
  }

  // ------------------------------------------------------------ whitespace

  /** The length of the whitespace run at the start of `s`. */
  function SpaceRun(s: string): (n: nat)
    ensures n <= |s|
    ensures forall k :: 0 <= k < n ==> IsSpace(s[k])
    ensures n < |s| ==> !IsSpace(s[n])
    decreases |s|
  {
    if |s| > 0 && IsSpace(s[0]) then 1 + SpaceRun(s[1..]) else 0
  }

  /** `replace(/\s+/g, ' ')`: every maximal whitespace run becomes one
      space. */
  function Collapse(s: string): (r: string)
    ensures |r| <= |s|
    ensures |s| > 0 ==> |r| > 0 && r[0] == (if IsSpace(s[0]) then ' ' else s[0])
    ensures forall i :: 0 <= i < |r| ==> r[i] in s || r[i] == ' '
    decreases |s|
  {
    if |s| == 0 then ""
    else
      var n := SpaceRun(s);
      if n > 0 then
        var rest := Collapse(s[n..]);
        assert forall i :: 0 <= i < |rest| ==> rest[i] in s || rest[i] == ' ' by {
          forall i | 0 <= i < |rest| ensures rest[i] in s || rest[i] == ' ' {
            if rest[i] != ' ' { assert rest[i] in s[n..]; }
          }
        }
        [' '] + rest
      else
        var rest := Collapse(s[1..]);
        assert forall i :: 0 <= i < |rest| ==> rest[i] in s || rest[i] == ' ' by {
          forall i | 0 <= i < |rest| ensures rest[i] in s || rest[i] == ' ' {
            if rest[i] != ' ' { assert rest[i] in s[1..]; }
          }
        }
        [s[0]] + rest
  }

  predicate NoDoubleSpace(s: string) {
    forall i :: 0 <= i < |s| - 1 ==> !(IsSpace(s[i]) && IsSpace(s[i + 1]))
  }

  /** After collapsing no two white-space characters are adjacent, and no
      two dots become adjacent that were not already. */
  lemma {:induction false} CollapseProperties(s: string)
    ensures NoDoubleSpace(Collapse(s))
    ensures NoDoubleDot(s) ==> NoDoubleDot(Collapse(s))
    decreases |s|
  {
    if |s| > 0 {
      var n := SpaceRun(s);
      if n > 0 {
        CollapseProperties(s[n..]);
        assert NoDoubleDot(s) ==> NoDoubleDot(s[n..]);
      } else {
        CollapseProperties(s[1..]);
        assert NoDoubleDot(s) ==> NoDoubleDot(s[1..]);
      }
    }
  }

  /** `trim()` returns a contiguous part of its input. */
  lemma TrimSlice(s: string)
    ensures var a := |s| - |TrimStart(s)|;
            a + |Trim(s)| <= |s| && Trim(s) == s[a..a + |Trim(s)|]
  {
  }

  /** Adjacency properties survive trimming. */
  lemma TrimKeeps(s: string)
    ensures NoDoubleSpace(s) ==> NoDoubleSpace(Trim(s))
    ensures NoDoubleDot(s) ==> NoDoubleDot(Trim(s))
    ensures forall i :: 0 <= i < |Trim(s)| ==> Trim(s)[i] in s
  {
    var t, a := Trim(s), |s| - |TrimStart(s)|;
    assert a + |t| <= |s| && t == s[a..a + |t|] by { TrimSlice(s); }
    SliceKeeps(s, t, a);
  }

  /** A contiguous part keeps the adjacency properties of the whole. */
  lemma SliceKeeps(s: string, t: string, a: nat)
    requires a + |t| <= |s| && t == s[a..a + |t|]
    ensures NoDoubleSpace(s) ==> NoDoubleSpace(t)
    ensures NoDoubleDot(s) ==> NoDoubleDot(t)
    ensures forall i :: 0 <= i < |t| ==> t[i] in s
  {
    assert forall i :: 0 <= i < |t| ==> t[i] == s[a + i];
  }

  // ------------------------------------------------------------ sanitizeInput

  const SqlQuotes: set<char> := {'\'', '"', ';', '-'}
  const ShellChars: set<char> := {'|', '&', ';', '$', '`', '\\'}

  /** `sanitizeInput(input)`: the ten replacements in source order, then
      white-space normalisation and `trim()`. */
  function SanitizeInput(s: string): string {
    var t1 := StripTags(s);
    var t2 := RemoveLiteral(t1, "javascript:");
    var t3 := RemoveHandlers(t2);
    var t4 := RemoveLiteral(t3, "data:");
    var t5 := RemoveLiteral(t4, "vbscript:");
    var t6 := RemoveChars(t5, SqlQuotes);
    var t7 := RemoveKeywordsFrom(t6, 0);
    var t8 := RemoveChars(t7, ShellChars);
    var t9 := RemoveLiteral(t8, "..");
    Trim(Collapse(t9))
  }

  predicate Avoids(s: string, bad: set<char>) {
    forall i :: 0 <= i < |s| ==> s[i] !in bad
  }

  /** Characters a text avoids are avoided by any text made of its
      characters (and, here, spaces). */
  lemma AvoidsSub(a: string, b: string, bad: set<char>)
    requires Avoids(a, bad) && ' ' !in bad
    requires forall i :: 0 <= i < |b| ==> b[i] in a || b[i] == ' '
    ensures Avoids(b, bad)
  {
    forall i | 0 <= i < |b| ensures b[i] !in bad {
      if b[i] != ' ' {
        var k :| 0 <= k < |a| && a[k] == b[i];
      }
    }
  }

  /** The statement and command stages leave none of their characters. */
  lemma InjectionStages(t5: string)
    ensures var t8 := RemoveChars(RemoveKeywordsFrom(RemoveChars(t5, SqlQuotes), 0), ShellChars);
            Avoids(t8, SqlQuotes + ShellChars) && |t8| <= |t5|
  {
    var t6 := RemoveChars(t5, SqlQuotes);
    var t7 := RemoveKeywordsFrom(t6, 0);
    var t8 := RemoveChars(t7, ShellChars);
    AvoidsSub(t6, t7, SqlQuotes);
    AvoidsSub(t7, t8, SqlQuotes);
  }

  /** The last three stages keep what the earlier ones achieved and add
      the dot and white-space guarantees. */
  lemma FinalStages(t8: string)
    requires Avoids(t8, SqlQuotes + ShellChars)
    ensures var r := Trim(Collapse(RemoveLiteral(t8, "..")));
            && Avoids(r, SqlQuotes + ShellChars)
            && NoDoubleDot(r)
            && NoDoubleSpace(r)
            && (|r| > 0 ==> !IsSpace(r[0]) && !IsSpace(r[|r| - 1]))
            && |r| <= |t8|
  {
    var t9 := RemoveLiteral(t8, "..");
    var c := Collapse(t9);
    AvoidsSub(t8, t9, SqlQuotes + ShellChars);
    AvoidsSub(t9, c, SqlQuotes + ShellChars);
    NoDoubleDotAfterRemoval(t8);
    CollapseProperties(t9);
    TrimKeeps(c);
    AvoidsSub(c, Trim(c), SqlQuotes + ShellChars);
  }

  /** What `sanitizeInput` guarantees: none of the quote, statement and
      shell characters, no `..`, no white space at either end or twice in
      a row, and never longer than the input. */
  lemma SanitizeInputGuarantees(s: string)
    ensures var r := SanitizeInput(s);
            && Avoids(r, SqlQuotes + ShellChars)
            && NoDoubleDot(r)
            && NoDoubleSpace(r)
            && (|r| > 0 ==> !IsSpace(r[0]) && !IsSpace(r[|r| - 1]))
            && |r| <= |s|
  {
    var t5 := RemoveLiteral(RemoveLiteral(RemoveHandlers(RemoveLiteral(StripTags(s), "javascript:")), "data:"), "vbscript:");
    InjectionStages(t5);
    FinalStages(RemoveChars(RemoveKeywordsFrom(RemoveChars(t5, SqlQuotes), 0), ShellChars));
  }
}
