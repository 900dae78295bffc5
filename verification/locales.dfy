/** Translation lookup with its fallback chain, and placeholder substitution
    through `String.prototype.replace` with a string pattern (first occurrence
    only, with the `$`-patterns of the replacement template honoured). */
module Locales {
  import opened Common
  import opened Text

  datatype Language = En | Ko

  /** The English and Korean translation tables. Their contents (en.ts,
      ko.ts) are not part of this model and are given as maps. */
  datatype Tables = Tables(en: map<string, string>, ko: map<string, string>)

  /** The module-level `currentLanguage` variable. */
  datatype LocaleState = LocaleState(current: Language)

  const InitialLocale: LocaleState := LocaleState(En)

  function TableFor(tables: Tables, lang: Language): map<string, string> {
    match lang
    case En => tables.en
    case Ko => tables.ko
  }

  /** A table entry that JavaScript's `||` keeps: present and non-empty. */
  function Entry(table: map<string, string>, key: string): (r: Option<string>)
    ensures r.Some? <==> key in table && table[key] != ""
    ensures r.Some? ==> r.value == table[key]
  {
    if key in table && table[key] != "" then Some(table[key]) else None
  }

  /** `getTranslation(lang, key)`. */
  function GetTranslation(tables: Tables, lang: Language, key: string): (r: string)
    ensures Entry(TableFor(tables, lang), key).Some? ==> r == TableFor(tables, lang)[key]
    ensures Entry(TableFor(tables, lang), key).None? && Entry(tables.en, key).Some? ==> r == tables.en[key]
    ensures Entry(TableFor(tables, lang), key).None? && Entry(tables.en, key).None? ==> r == key
    ensures key != "" ==> r != ""
  {
    match Entry(TableFor(tables, lang), key)
    case Some(s) => s
    case None =>
      match Entry(tables.en, key)
      case Some(s) => s
      case None => key
  }

  /** The replacement template of `replace`: `$$` is a dollar sign, `$&` the
      matched text, `` $` `` the text before the match and `$'` the text
      after it; any other `$` is literal (there are no capture groups). */
  function Expand(template: string, matched: string, before: string, after: string): (r: string)
    ensures (forall k :: 0 <= k < |template| ==> template[k] != '$') ==> r == template
    decreases |template|
  {
    if |template| == 0 then ""
    else if template[0] == '$' && |template| >= 2 && template[1] == '$' then
      "$" + Expand(template[2..], matched, before, after)
    else if template[0] == '$' && |template| >= 2 && template[1] == '&' then
      matched + Expand(template[2..], matched, before, after)
    else if template[0] == '$' && |template| >= 2 && template[1] == '`' then
      before + Expand(template[2..], matched, before, after)
    else if template[0] == '$' && |template| >= 2 && template[1] == '\'' then
      after + Expand(template[2..], matched, before, after)
    else
      [template[0]] + Expand(template[1..], matched, before, after)
  }

  /** `text.replace(pattern, value)` with a string pattern. */
  function ReplaceFirst(text: string, pattern: string, value: string): string {
    match IndexOf(text, pattern, 0)
    case None => text
    case Some(i) =>
      text[..i] + Expand(value, pattern, text[..i], text[i + |pattern|..]) + text[i + |pattern|..]
  }

  /** A text without the pattern is returned unchanged. */
  lemma ReplaceFirstAbsent(text: string, pattern: string, value: string)
    requires forall j :: !OccursAt(text, pattern, j)
    ensures ReplaceFirst(text, pattern, value) == text
  {
    assert IndexOf(text, pattern, 0).None?;
  }

  /** The replaced occurrence is the first one. */
  lemma ReplaceFirstAt(text: string, pattern: string, value: string, i: int)
    requires OccursAt(text, pattern, i) && forall k :: 0 <= k < i ==> !OccursAt(text, pattern, k)
    ensures ReplaceFirst(text, pattern, value)
         == text[..i] + Expand(value, pattern, text[..i], text[i + |pattern|..]) + text[i + |pattern|..]
  {
    IndexOfFirst(text, pattern, 0, i);
  }

  /** The search from `from` stops at the first occurrence at or after it. */
  lemma {:induction false} IndexOfFirst(s: string, sub: string, from: nat, i: int)
    requires from <= i && OccursAt(s, sub, i)
    requires forall k :: from <= k < i ==> !OccursAt(s, sub, k)
    ensures IndexOf(s, sub, from) == Some(i)
    decreases i - from
  {
    if from < i {
      assert !OccursAt(s, sub, from);
      IndexOfFirst(s, sub, from + 1, i);
    }
  }

  /** Only the first occurrence is replaced: every occurrence that starts
      after the replaced one survives, shifted by the length change. */
  lemma ReplaceFirstKeepsLater(text: string, pattern: string, value: string, i: int, j: int)
    requires OccursAt(text, pattern, i) && forall k :: 0 <= k < i ==> !OccursAt(text, pattern, k)
    requires OccursAt(text, pattern, j) && j >= i + |pattern|
    ensures OccursAt(ReplaceFirst(text, pattern, value), pattern,
                     j - |pattern| + |Expand(value, pattern, text[..i], text[i + |pattern|..])|)
  {
    ReplaceFirstAt(text, pattern, value, i);
    var e := Expand(value, pattern, text[..i], text[i + |pattern|..]);
    LaterOccurrence(text, pattern, e, i, j);
  }

  /** Replacing `text[i..i + |pattern|]` by `e` shifts a later occurrence by
      the length change. */
  lemma LaterOccurrence(text: string, pattern: string, e: string, i: int, j: int)
    requires OccursAt(text, pattern, i) && OccursAt(text, pattern, j) && j >= i + |pattern|
    ensures OccursAt(text[..i] + e + text[i + |pattern|..], pattern, j - |pattern| + |e|)
  {
    OccursInSuffix(text, pattern, i + |pattern|, j);
    OccursAfterPrefix(text[..i] + e, text[i + |pattern|..], pattern, j - i - |pattern|);
  }

  /** An occurrence at or after `from` is one in `s[from..]`. */
  lemma OccursInSuffix(s: string, sub: string, from: nat, j: int)
    requires from <= j && OccursAt(s, sub, j)
    ensures OccursAt(s[from..], sub, j - from)
  {
    assert s[from..][j - from..j - from + |sub|] == s[j..j + |sub|];
  }

  /** An occurrence in the second part of a concatenation. */
  lemma OccursAfterPrefix(x: string, y: string, sub: string, d: int)
    requires OccursAt(y, sub, d)
    ensures OccursAt(x + y, sub, |x| + d)
  {
    assert (x + y)[|x| + d..|x| + d + |sub|] == y[d..d + |sub|];
  }

  function Placeholder(name: string): string { "{" + name + "}" }

  /** The `Object.entries(params).forEach(...)` loop: each parameter, in
      enumeration order, replaces the first occurrence of its placeholder. */
  function Substitute(text: string, params: seq<(string, string)>): (r: string)
    ensures |params| == 0 ==> r == text
    decreases |params|
  {
    if |params| == 0 then text
    else Substitute(ReplaceFirst(text, Placeholder(params[0].0), params[0].1), params[1..])
  }

  /** A text that holds none of the placeholders is returned unchanged. */
  lemma {:induction false} SubstituteNoPlaceholders(text: string, params: seq<(string, string)>)
    requires forall p, j :: p in params ==> !OccursAt(text, Placeholder(p.0), j)
    ensures Substitute(text, params) == text
    decreases |params|
  {
    if |params| > 0 {
      assert params[0] in params;
      ReplaceFirstAbsent(text, Placeholder(params[0].0), params[0].1);
      forall p, j | p in params[1..] ensures !OccursAt(text, Placeholder(p.0), j) {
        assert p in params;
      }
      SubstituteNoPlaceholders(text, params[1..]);
    }
  }

  function GetLanguage(st: LocaleState): Language { st.current }

  function SetLanguage(st: LocaleState, lang: Language): (st': LocaleState)
    ensures GetLanguage(st') == lang
  {
    st.(current := lang)
  }

  /** `t(key, params?)`: translation in the current language, then
      placeholder substitution when parameters are given. */
  function T(st: LocaleState, tables: Tables, key: string, params: Option<seq<(string, string)>>): (r: string)
    ensures params.None? ==> r == GetTranslation(tables, st.current, key)
  {
    var text := GetTranslation(tables, st.current, key);
    match params
    case None => text
    case Some(ps) => Substitute(text, ps)
  }

  /** `tWithLang(lang, key, params?)`. */
  function TWithLang(tables: Tables, lang: Language, key: string, params: Option<seq<(string, string)>>): string {
    var text := GetTranslation(tables, lang, key);
    match params
    case None => text
    case Some(ps) => Substitute(text, ps)
  }

  /** `tWithLang` is `t` with the language fixed, and `setLanguage(l)` makes
      `t` agree with `tWithLang(l, …)`; an empty parameter object changes
      nothing. */
  lemma TWithLangIsT(st: LocaleState, tables: Tables, lang: Language, key: string, params: Option<seq<(string, string)>>)
    ensures TWithLang(tables, lang, key, params) == T(SetLanguage(st, lang), tables, key, params)
    ensures T(st, tables, key, Some([])) == T(st, tables, key, None)
  {
  }

  /** What a component's `t(key)` call reads: the current language and the
      tables. */
  datatype Context = Context(locale: LocaleState, tables: Tables)

  /** `t(key)` without parameters, as the panels use it for messages. */
  function Msg(c: Context, key: string): string {
    T(c.locale, c.tables, key, None)
  }
}
