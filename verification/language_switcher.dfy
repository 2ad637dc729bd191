/**
 * The language switcher of `src/components/LanguageSwitcher.tsx`: the table
 * of supported languages, the lookup of the current one, and the rewriting
 * of the current pathname into the same page under another locale.
 */
module LanguageSwitcher {
  import opened Options
  import opened Strings

  datatype Language = Language(code: string, name: string)

  /** The `languages` table, in menu order. */
  const Languages: seq<Language> := [
    Language("en", "English"),
    Language("zh-cn", "简体中文"),
    Language("zh-hk", "繁體中文")
  ]

  /** The first entry of `langs` whose code is `code` (`Array.prototype.find`). */
  function FindLanguage(langs: seq<Language>, code: string): (r: Option<Language>)
    ensures r.Some? ==> r.value in langs && r.value.code == code
    ensures r.None? <==> forall k :: 0 <= k < |langs| ==> langs[k].code != code
  {
    if |langs| == 0 then None
    else if langs[0].code == code then Some(langs[0])
    else FindLanguage(langs[1..], code)
  }

  /** `currentLanguage`: the table entry for the current locale, if it has one. */
  function CurrentLanguage(currentLocale: string): (r: Option<Language>)
    ensures r.Some? <==> currentLocale in {"en", "zh-cn", "zh-hk"}
    ensures r.Some? ==> r.value in Languages && r.value.code == currentLocale
  {
    FindLanguage(Languages, currentLocale)
  }

  /**
   * `getLocalizedPath(newLocale)`: the first occurrence of `/<currentLocale>`
   * is removed from the pathname, an empty remainder becomes `/`, and
   * `/<newLocale>` is put in front.
   */
  function LocalizedPath(pathname: string, currentLocale: string, newLocale: string): (r: string)
    ensures StartsWith(r, "/" + newLocale)
  {
    var pathWithoutLocale := RemoveFirst(pathname, "/" + currentLocale);
    var rest := if pathWithoutLocale == "" then "/" else pathWithoutLocale;
    assert ("/" + newLocale + rest)[..|"/" + newLocale|] == "/" + newLocale;
    "/" + newLocale + rest
  }

  /* ---------------- Lemmas ---------------- */

  /** The three language codes are pairwise distinct, so a code names at most one menu entry. */
  lemma LanguageCodesDistinct()
    ensures forall i, j :: 0 <= i < j < |Languages| ==> Languages[i].code != Languages[j].code
  {
  }

  /**
   * Only the first occurrence of `/<currentLocale>` is removed; every other
   * character of the pathname is kept, in order.
   */
  lemma LocalizedPathRemovesFirstOccurrence(pathname: string, currentLocale: string, newLocale: string, i: nat)
    requires OccursAt(pathname, "/" + currentLocale, i)
    requires forall j :: 0 <= j < i ==> !OccursAt(pathname, "/" + currentLocale, j)
    requires |pathname| > |"/" + currentLocale|
    ensures LocalizedPath(pathname, currentLocale, newLocale)
      == "/" + newLocale + pathname[..i] + pathname[i + |"/" + currentLocale|..]
  {
    var pat := "/" + currentLocale;
    RemoveFirstAt(pathname, pat, i);
    assert |pathname[..i] + pathname[i + |pat|..]| == |pathname| - |pat|;
  }

  /** On the locale's home page the result is the new locale's home page, with a trailing `/`. */
  lemma LocalizedPathOfLocaleRoot(currentLocale: string, newLocale: string)
    ensures LocalizedPath("/" + currentLocale, currentLocale, newLocale) == "/" + newLocale + "/"
  {
    var pat := "/" + currentLocale;
    assert OccursAt(pat, pat, 0);
    assert pat[..0] + pat[|pat|..] == "";
  }

  /** A non-empty pathname without `/<currentLocale>` is kept whole behind the new prefix. */
  lemma LocalizedPathWithoutLocale(pathname: string, currentLocale: string, newLocale: string)
    requires forall j: nat :: !OccursAt(pathname, "/" + currentLocale, j)
    requires pathname != ""
    ensures LocalizedPath(pathname, currentLocale, newLocale) == "/" + newLocale + pathname
  {
    IndexOfFirst(pathname, "/" + currentLocale);
  }

  /**
   * Round trip: on a page `/<c><rest>` with a non-empty `rest`, switching to
   * `c` changes nothing, and switching to `l` and back again returns the
   * original pathname.
   */
  lemma LocalizedPathRoundTrip(c: string, l: string, rest: string)
    requires rest != ""
    ensures LocalizedPath("/" + c + rest, c, c) == "/" + c + rest
    ensures LocalizedPath(LocalizedPath("/" + c + rest, c, l), l, c) == "/" + c + rest
  {
    SwitchFromPrefixedPath(c, c, rest);
    SwitchFromPrefixedPath(c, l, rest);
    SwitchFromPrefixedPath(l, c, rest);
  }

  /** On a page `/<c><rest>` with non-empty `rest`, switching to `l` yields `/<l><rest>`. */
  lemma SwitchFromPrefixedPath(c: string, l: string, rest: string)
    requires rest != ""
    ensures LocalizedPath("/" + c + rest, c, l) == "/" + l + rest
  {
    var p := "/" + c + rest;
    var pat := "/" + c;
    assert p[..|pat|] == pat;
    RemoveFirstAt(p, pat, 0);
    assert p[..0] + p[|pat|..] == rest;
  }
}
