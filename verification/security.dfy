/** The remaining input checks of the security utilities: truncation, the
    file-extension and content-type checks, path sanitising, the
    client-side rate limiter, UUID syntax, field filtering and the
    magic-number comparison on a file's first bytes. */
module Security {
  import opened Common
  import opened Text
  import Sanitize

  // ------------------------------------------------------------ truncateInput

  /** `truncateInput(input, maxLength)`. Both the test and the cut count
      UTF-16 code units; a negative limit behaves like 0, as `substring`
      clamps it. */
  function TruncateInput(s: string, max: int): (r: string)
    ensures Utf16Length(s) <= max ==> r == s
    ensures StartsWith(s, r)
    ensures Utf16Length(s) > max ==> |r| == 0 || Utf16Length(r) <= max
    ensures Utf16Length(s) > max && |r| < |s| ==> Utf16Length(r) + Units(s[|r|]) > max
  {
    if Utf16Length(s) <= max then s else s[..Utf16Prefix(s, max)]
  }

  /** A truncated result is a prefix that stops at most one code unit short
      of the limit; on text without surrogate pairs it is exactly the first
      `max` characters, clamped at 0; and truncating twice changes
      nothing. */
  lemma TruncateProperties(s: string, max: int)
    ensures var r := TruncateInput(s, max);
            Utf16Length(s) > max >= 0 ==> |r| < |s| && max - 1 <= Utf16Length(r) <= max
    ensures Bmp(s) ==> TruncateInput(s, max) == if |s| <= max then s else s[..if max < 0 then 0 else max]
    ensures TruncateInput(TruncateInput(s, max), max) == TruncateInput(s, max)
  {
    var r := TruncateInput(s, max);
    if Utf16Length(s) > max && |r| == |s| {
      assert r == s;
    }
    if Bmp(s) {
      Utf16LengthIsSize(s);
      BmpPrefix(s, max);
    }
    if Utf16Length(s) > max && |r| > 0 {
      assert Utf16Length(r) <= max;
    }
  }

  // ------------------------------------------------------------ file types

  /** `s.split('.').pop()`: the text after the last dot, or all of `s`
      when it has none. */
  function LastSegment(s: string): (r: string)
    ensures EndsWith(s, r)
    ensures '.' !in r
    ensures |r| < |s| ==> s[|s| - |r| - 1] == '.'
    decreases |s|
  {
    if |s| == 0 then ""
    else if s[|s| - 1] == '.' then ""
    else
      var r := LastSegment(s[..|s| - 1]) + [s[|s| - 1]];
      assert s[..|s| - 1][|s| - 1 - (|r| - 1)..] + [s[|s| - 1]] == s[|s| - |r|..];
      r
  }

  /** The segment after the last dot of `base + "." + ext` is `ext`. */
  lemma LastSegmentOf(base: string, ext: string)
    requires '.' !in ext
    ensures LastSegment(base + "." + ext) == ext
  {
    var s := base + "." + ext;
    var r := LastSegment(s);
    assert s[|s| - |ext| - 1] == '.';
    assert s[|s| - |ext|..] == ext;
  }

  /** `isAllowedFileType(filename, allowedExtensions)`. */
  predicate IsAllowedFileType(name: string, allowed: seq<string>) {
    var ext := LastSegment(Lower(name));
    ext != "" && "." + ext in allowed
  }

  /** The check reads the lower-cased extension after the last dot; a
      name that ends in a dot has no extension and is refused. */
  lemma AllowedByExtension(base: string, ext: string, allowed: seq<string>)
    requires '.' !in ext
    ensures IsAllowedFileType(base + "." + ext, allowed) <==> ext != "" && "." + Lower(ext) in allowed
  {
    assert Lower(base + "." + ext) == Lower(base) + "." + Lower(ext);
    assert '.' !in Lower(ext) by {
      forall i | 0 <= i < |ext| ensures Lower(ext)[i] != '.' {
        assert ext[i] != '.' by { assert ext[i] in ext; }
      }
    }
    LastSegmentOf(Lower(base), Lower(ext));
  }

  /** `s.split(';')[0]`: the text before the first semicolon. */
  function BeforeSemicolon(s: string): (r: string)
    ensures StartsWith(s, r) && ';' !in r
    ensures |r| < |s| ==> s[|r|] == ';'
    decreases |s|
  {
    if |s| == 0 || s[0] == ';' then "" else [s[0]] + BeforeSemicolon(s[1..])
  }

  /** `isValidContentType(contentType, allowed)`. */
  predicate IsValidContentType(ct: string, allowed: seq<string>) {
    Lower(Trim(BeforeSemicolon(ct))) in allowed
  }

  /** Parameters after the first semicolon never matter. */
  lemma ContentTypeIgnoresParameters(t: string, params: string, allowed: seq<string>)
    requires ';' !in t
    ensures IsValidContentType(t + ";" + params, allowed) <==> IsValidContentType(t, allowed)
  {
    BeforeSemicolonOf(t, params);
    BeforeSemicolonOf(t, "");
    assert t + "" == t;
  }

  lemma {:induction false} BeforeSemicolonOf(t: string, rest: string)
    requires ';' !in t
    ensures BeforeSemicolon(t + ";" + rest) == t && (rest == "" ==> BeforeSemicolon(t) == t)
    decreases |t|
  {
    if |t| > 0 {
      assert t[0] in t;
      assert (t + ";" + rest)[1..] == t[1..] + ";" + rest;
      assert ';' !in t[1..] by {
        forall i | 0 <= i < |t[1..]| ensures t[1..][i] != ';' { assert t[1..][i] in t; }
      }
      BeforeSemicolonOf(t[1..], rest);
      assert [t[0]] + t[1..] == t;
    }
  }

  // ------------------------------------------------------------ sanitizePath

  const PathSpecials: set<char> := {'<', '>', ':', '"', '|', '?', '*'}

  predicate IsSeparator(c: char) { c == '/' || c == '\\' }

  /** `replace(/^[/\\]+/, '')`: drops the leading separators. */
  function StripLeadingSeparators(s: string): (r: string)
    ensures |r| <= |s| && r == s[|s| - |r|..]
    ensures |r| > 0 ==> !IsSeparator(r[0])
    ensures forall k :: 0 <= k < |s| - |r| ==> IsSeparator(s[k])
    decreases |s|
  {
    if |s| > 0 && IsSeparator(s[0]) then StripLeadingSeparators(s[1..]) else s
  }

  /** `sanitizePath(path)` as written: drop `..`, then leading separators,
      then the special characters. */
  function SanitizePath(p: string): (r: string)
    ensures |r| <= |p|
    ensures forall i :: 0 <= i < |r| ==> r[i] !in PathSpecials
  {
    Sanitize.RemoveChars(StripLeadingSeparators(Sanitize.RemoveLiteral(p, "..")), PathSpecials)
  }

  /** Removing the special characters last can join what the earlier
      steps had already passed: `.:.`, or a dot, any special character and
      a dot, comes out as `..`. */
  lemma PathTraversalSurvives(c: char)
    requires c in PathSpecials
    ensures SanitizePath(['.', c, '.']) == ".."
  {
    var s := ['.', c, '.'];
    assert s[0] == '.' && s[1] != '.' && s[2] == '.';
    NoDotsIn(s);
    DotsAfterRemoval(c);
    PathSteps(s, "..");
  }

  /** Likewise a separator behind a special character survives the
      separator step: `<//etc` comes out as the absolute `//etc`, and so
      does any such path. */
  lemma AbsolutePathSurvives(c: char, t: string)
    requires c in PathSpecials && |t| > 0 && IsSeparator(t[0])
    requires forall i :: 0 <= i < |t| ==> t[i] !in PathSpecials
    requires forall i :: 0 <= i < |t| - 1 ==> t[i] != '.' || t[i + 1] != '.'
    ensures SanitizePath([c] + t) == t
    ensures |SanitizePath([c] + t)| > 0 && IsSeparator(SanitizePath([c] + t)[0])
  {
    var s := [c] + t;
    assert s[0] == c && s[1..] == t;
    assert !IsSeparator(s[0]) by { SpecialNotSeparator(c); }
    assert Sanitize.RemoveLiteral(s, "..") == s by {
      NoDotPairCons(c, t);
      NoDotsIn(s);
    }
    assert Sanitize.RemoveChars(s, PathSpecials) == t by {
      RemoveCharsCons(c, t, PathSpecials);
      KeptWhole(t, PathSpecials);
    }
    PathSteps(s, t);
  }

  lemma SpecialNotSeparator(c: char)
    requires c in PathSpecials
    ensures !IsSeparator(c) && c != '.'
  {
  }

  /** A character other than a dot in front of a text without two adjacent
      dots keeps it so. */
  lemma NoDotPairCons(c: char, t: string)
    requires c != '.'
    requires forall i :: 0 <= i < |t| - 1 ==> t[i] != '.' || t[i + 1] != '.'
    ensures var s := [c] + t; forall i :: 0 <= i < |s| - 1 ==> s[i] != '.' || s[i + 1] != '.'
  {
    var s := [c] + t;
    forall i | 0 <= i < |s| - 1 ensures s[i] != '.' || s[i + 1] != '.' {
      if i > 0 { assert s[i] == t[i - 1] && s[i + 1] == t[i]; }
    }
  }

  lemma PathSteps(s: string, r: string)
    requires |s| > 0 && !IsSeparator(s[0])
    requires Sanitize.RemoveLiteral(s, "..") == s
    requires Sanitize.RemoveChars(s, PathSpecials) == r
    ensures SanitizePath(s) == r
  {
  }

  lemma NoDotsIn(s: string)
    requires forall i :: 0 <= i < |s| - 1 ==> s[i] != '.' || s[i + 1] != '.'
    ensures Sanitize.RemoveLiteral(s, "..") == s
  {
    forall i: nat | i < |s| ensures !CiOccursAt(s, "..", i) {
      if i + 2 <= |s| {
        if s[i] != '.' {
          assert LowerChar(s[i + 0]) != LowerChar(".."[0]) by { LowerDot(s[i]); }
        } else {
          assert LowerChar(s[i + 1]) != LowerChar(".."[1]) by { LowerDot(s[i + 1]); }
        }
      }
    }
    Sanitize.RemoveLiteralAbsent(s, "..");
  }

  lemma LowerDot(c: char)
    ensures LowerChar(c) == '.' <==> c == '.'
  {
  }

  lemma DotsAfterRemoval(c: char)
    requires c in PathSpecials
    ensures Sanitize.RemoveChars(['.', c, '.'], PathSpecials) == ".."
  {
    RemoveCharsCons('.', [c, '.'], PathSpecials);
    RemoveCharsCons(c, ['.'], PathSpecials);
    RemoveCharsCons('.', [], PathSpecials);
    assert ['.'] + [c, '.'] == ['.', c, '.'] && [c] + ['.'] == [c, '.'] && ['.'] + [] == ['.'];
  }

  /** A text without any of the removed characters is kept whole. */
  lemma KeptWhole(t: string, bad: set<char>)
    requires forall i :: 0 <= i < |t| ==> t[i] !in bad
    ensures Sanitize.RemoveChars(t, bad) == t
  {
    Sanitize.RemoveCharsKeepsOthers(t, bad);
  }

  lemma RemoveCharsCons(c: char, t: string, bad: set<char>)
    ensures Sanitize.RemoveChars([c] + t, bad)
            == if c in bad then Sanitize.RemoveChars(t, bad) else [c] + Sanitize.RemoveChars(t, bad)
  {
    assert ([c] + t)[1..] == t;
  }

  /** The same three steps in the order that makes them stick: special
      characters first, then `..`, then leading separators. */
  function SafePath(p: string): (r: string)
    ensures |r| <= |p|
  {
    StripLeadingSeparators(Sanitize.RemoveLiteral(Sanitize.RemoveChars(p, PathSpecials), ".."))
  }

  /** The corrected path is relative, has no `..` and none of the special
      characters. */
  lemma SafePathGuarantees(p: string)
    ensures var r := SafePath(p);
            && (|r| > 0 ==> !IsSeparator(r[0]))
            && Sanitize.NoDoubleDot(r)
            && forall i :: 0 <= i < |r| ==> r[i] !in PathSpecials
  {
    var a := Sanitize.RemoveChars(p, PathSpecials);
    var b := Sanitize.RemoveLiteral(a, "..");
    var r := StripLeadingSeparators(b);
    Sanitize.NoDoubleDotAfterRemoval(a);
    assert forall i :: 0 <= i < |r| ==> r[i] == b[|b| - |r| + i];
    forall i | 0 <= i < |r| ensures r[i] !in PathSpecials {
      assert r[i] in b;
      var k :| 0 <= k < |a| && a[k] == r[i];
    }
  }

  // ------------------------------------------------------------ rate limit

  /** One key's request record: its count in the current window and the
      time (in milliseconds) the window ends. */
  datatype Record = Record(count: int, resetTime: int)

  /** `checkRateLimit(key, maxRequests, windowMs)` with the module-level
      map as explicit state and `Date.now()` as `now`. */
  function CheckRateLimit(store: map<string, Record>, key: string, maxRequests: int, window: int, now: int)
    : (r: (bool, map<string, Record>))
    ensures forall k :: k != key ==> (k in r.1 <==> k in store) && (k in store ==> r.1[k] == store[k])
    ensures key in r.1
    ensures !r.0 ==> r.1 == store
  {
    if key !in store || now > store[key].resetTime then
      (true, store[key := Record(1, now + window)])
    else if store[key].count >= maxRequests then
      (false, store)
    else
      (true, store[key := store[key].(count := store[key].count + 1)])
  }

  /** Calls for one key at the given times; returns how many were allowed
      and the final map. */
  function Calls(store: map<string, Record>, key: string, maxRequests: int, window: int, times: seq<int>)
    : (r: (nat, map<string, Record>))
    decreases |times|
  {
    if |times| == 0 then (0, store)
    else
      var (ok, next) := CheckRateLimit(store, key, maxRequests, window, times[0]);
      var (n, last) := Calls(next, key, maxRequests, window, times[1..]);
      ((if ok then 1 else 0) + n, last)
  }

  function MaxInt(a: int, b: int): int { if a >= b then a else b }

  /** Within a window (no call after its reset time) a key that has used
      `c` requests gets at most `maxRequests - c` more, and its window does
      not move. */
  lemma {:induction false} WithinWindow(store: map<string, Record>, key: string, maxRequests: int, window: int, times: seq<int>)
    requires key in store && store[key].count >= 1
    requires forall i :: 0 <= i < |times| ==> times[i] <= store[key].resetTime
    ensures var r := Calls(store, key, maxRequests, window, times);
            && r.0 <= MaxInt(maxRequests - store[key].count, 0)
            && key in r.1 && r.1[key].resetTime == store[key].resetTime
            && r.1[key].count == store[key].count + r.0
    decreases |times|
  {
    if |times| > 0 {
      var (ok, next) := CheckRateLimit(store, key, maxRequests, window, times[0]);
      assert next[key].resetTime == store[key].resetTime;
      assert forall i :: 0 <= i < |times[1..]| ==> times[1..][i] <= next[key].resetTime by {
        forall i | 0 <= i < |times[1..]| ensures times[1..][i] <= next[key].resetTime {
          assert times[1..][i] == times[i + 1];
        }
      }
      WithinWindow(next, key, maxRequests, window, times[1..]);
    }
  }

  /** A window opened at time `t0` admits at most `max(maxRequests, 1)`
      requests for the key, counting the one that opened it. */
  lemma AtMostMaxPerWindow(store: map<string, Record>, key: string, maxRequests: int, window: int,
                           t0: int, times: seq<int>)
    requires key !in store || t0 > store[key].resetTime
    requires forall i :: 0 <= i < |times| ==> times[i] <= t0 + window
    ensures Calls(store, key, maxRequests, window, [t0] + times).0 <= MaxInt(maxRequests, 1)
  {
    var (ok, next) := CheckRateLimit(store, key, maxRequests, window, t0);
    assert ([t0] + times)[1..] == times;
    WithinWindow(next, key, maxRequests, window, times);
  }

  // ------------------------------------------------------------ UUID

  /** `isValidUUID(uuid)` position by position: hex digits in the 8-4-4-4-12
      layout, a version digit 1-5 and a variant digit 8, 9, a or b (either
      case), and nothing else. */
  predicate IsValidUuid(s: string) {
    && |s| == 36
    && (forall i :: 0 <= i < 36 && i !in {8, 13, 18, 23} ==> IsHexDigit(s[i]))
    && s[8] == '-' && s[13] == '-' && s[18] == '-' && s[23] == '-'
    && '1' <= s[14] <= '5'
    && s[19] in {'8', '9', 'a', 'b', 'A', 'B'}
  }

  predicate AllHex(g: string) {
    forall i :: 0 <= i < |g| ==> IsHexDigit(g[i])
  }

  /** The layout of sections 4.1.1 and 4.1.3 of RFC 4122 as five groups of
      hex digits joined by dashes, with the version in the first digit of
      the third group and the variant in the first digit of the fourth. */
  predicate UuidGroups(g1: string, g2: string, g3: string, g4: string, g5: string) {
    && |g1| == 8 && |g2| == 4 && |g3| == 4 && |g4| == 4 && |g5| == 12
    && AllHex(g1) && AllHex(g2) && AllHex(g3) && AllHex(g4) && AllHex(g5)
    && '1' <= g3[0] <= '5'
    && g4[0] in {'8', '9', 'a', 'b', 'A', 'B'}
  }

  function Join(g1: string, g2: string, g3: string, g4: string, g5: string): string {
    g1 + "-" + g2 + "-" + g3 + "-" + g4 + "-" + g5
  }

  /** The check accepts exactly the joined group layouts. */
  lemma UuidByGroups(s: string)
    ensures IsValidUuid(s) <==>
      |s| == 36 && UuidGroups(s[..8], s[9..13], s[14..18], s[19..23], s[24..])
               && s == Join(s[..8], s[9..13], s[14..18], s[19..23], s[24..])
  {
    if |s| == 36 {
      var j := Join(s[..8], s[9..13], s[14..18], s[19..23], s[24..]);
      assert |j| == 36;
      if IsValidUuid(s) {
        assert forall i :: 0 <= i < 36 ==> j[i] == s[i];
      }
      if UuidGroups(s[..8], s[9..13], s[14..18], s[19..23], s[24..]) && s == j {
        forall i | 0 <= i < 36 && i !in {8, 13, 18, 23}
          ensures IsHexDigit(s[i])
        {
          if i < 8 { assert s[i] == s[..8][i]; }
          else if i < 13 { assert s[i] == s[9..13][i - 9]; }
          else if i < 18 { assert s[i] == s[14..18][i - 14]; }
          else if i < 23 { assert s[i] == s[19..23][i - 19]; }
          else { assert s[i] == s[24..][i - 24]; }
        }
      }
    }
  }

  /** Any valid group layout, joined, is accepted. */
  lemma JoinedGroupsValid(g1: string, g2: string, g3: string, g4: string, g5: string)
    requires UuidGroups(g1, g2, g3, g4, g5)
    ensures IsValidUuid(Join(g1, g2, g3, g4, g5))
  {
    var s := Join(g1, g2, g3, g4, g5);
    assert s[..8] == g1 && s[9..13] == g2 && s[14..18] == g3 && s[19..23] == g4 && s[24..] == g5;
    UuidByGroups(s);
  }

  // ------------------------------------------------------------ filterFields

  /** A property read `obj[k]`: the object's own value if it has one,
      otherwise the value its prototype chain supplies. */
  function Lookup<V>(own: map<string, V>, inherited: map<string, V>, k: string): V
    requires k in own || k in inherited
  {
    if k in own then own[k] else inherited[k]
  }

  /** `filterFields(obj, allowedFields)`. An object is its own fields `own`
      together with the fields `inherited` from its prototype chain; the
      `in` test sees both, so an allowed field the object only inherits
      (`toString` on a plain object) is copied as well. */
  function FilterFields<V>(own: map<string, V>, inherited: map<string, V>, allowed: seq<string>)
    : (r: map<string, V>)
    ensures forall k :: k in r <==> (k in own || k in inherited) && k in allowed
    ensures forall k :: k in r && k in own ==> r[k] == own[k]
    ensures forall k :: k in r && k !in own ==> r[k] == inherited[k]
  {
    map k | k in own.Keys + inherited.Keys && k in allowed :: Lookup(own, inherited, k)
  }

  /** Filtering again with the same prototype changes nothing; an object
      without a prototype keeps exactly its allowed own fields; and an
      object whose own fields are all allowed, and which inherits no
      allowed field it does not also own, comes back unchanged. */
  lemma FilterFieldsProperties<V>(own: map<string, V>, inherited: map<string, V>, allowed: seq<string>)
    ensures var r := FilterFields(own, inherited, allowed);
            FilterFields(r, inherited, allowed) == r
    ensures FilterFields(own, map[], allowed) == map k | k in own && k in allowed :: own[k]
    ensures (forall k :: k in own ==> k in allowed) && (forall k :: k in inherited && k in allowed ==> k in own)
            ==> FilterFields(own, inherited, allowed) == own
  {
  }

  // ------------------------------------------------------------ magic numbers

  type Byte = x: int | 0 <= x < 256

  /** The signature table, in the order the check walks it. */
  datatype Signature = Signature(mime: string, subtype: string, magic: seq<Byte>)

  const Signatures: seq<Signature> := [
    Signature("image/jpeg", "jpeg", [0xFF, 0xD8, 0xFF]),
    Signature("image/png", "png", [0x89, 0x50, 0x4E, 0x47]),
    Signature("image/gif", "gif", [0x47, 0x49, 0x46]),
    Signature("image/webp", "webp", [0x52, 0x49, 0x46, 0x46]),
    Signature("model/gltf-binary", "gltf-binary", [0x67, 0x6C, 0x54, 0x46])
  ]

  const GlbMagic: seq<Byte> := [0x67, 0x6C, 0x54, 0x46]

  /** Every signature byte equals the file byte at its index; a missing
      file byte never equals anything. */
  predicate MagicMatches(magic: seq<Byte>, bytes: seq<Byte>) {
    |magic| <= |bytes| && bytes[..|magic|] == magic
  }

  /** Whether a signature applies to the file: by declared type, or by its
      subtype appearing in the lower-cased name. */
  predicate Applies(sig: Signature, fileType: string, lowerName: string) {
    fileType == sig.mime || Includes(lowerName, sig.subtype)
  }

  function SignatureFrom(k: nat, fileType: string, lowerName: string, bytes: seq<Byte>): (b: bool)
    requires k <= |Signatures|
    ensures b <==> exists m :: k <= m < |Signatures| && Applies(Signatures[m], fileType, lowerName)
                                   && MagicMatches(Signatures[m].magic, bytes)
    decreases |Signatures| - k
  {
    if k == |Signatures| then false
    else if Applies(Signatures[k], fileType, lowerName) && MagicMatches(Signatures[k].magic, bytes) then true
    else SignatureFrom(k + 1, fileType, lowerName, bytes)
  }

  /** `validateFileMagicNumber(file)` on the first (up to eight) bytes. */
  function ValidateMagic(fileType: string, name: string, bytes: seq<Byte>): bool {
    var lowerName := Lower(name);
    if SignatureFrom(0, fileType, lowerName, bytes) then true
    else if EndsWith(lowerName, ".glb") then MagicMatches(GlbMagic, bytes)
    else if EndsWith(lowerName, ".gltf") then |bytes| > 0 && bytes[0] == 0x7B
    else false
  }

  /** A file is accepted only if its bytes start with one of the known
      signatures or, for a `.gltf` name, with `{`. */
  lemma MagicSound(fileType: string, name: string, bytes: seq<Byte>)
    requires ValidateMagic(fileType, name, bytes)
    ensures (exists m :: 0 <= m < |Signatures| && MagicMatches(Signatures[m].magic, bytes))
            || (EndsWith(Lower(name), ".gltf") && bytes[0] == 0x7B)
  {
    if !SignatureFrom(0, fileType, Lower(name), bytes) && EndsWith(Lower(name), ".glb") {
      assert MagicMatches(Signatures[4].magic, bytes);
    }
  }

  /** A file declared as PNG whose bytes carry the PNG signature passes. */
  lemma PngAccepted(name: string, bytes: seq<Byte>)
    requires MagicMatches([0x89, 0x50, 0x4E, 0x47], bytes)
    ensures ValidateMagic("image/png", name, bytes)
  {
    assert Applies(Signatures[1], "image/png", Lower(name));
  }
}
