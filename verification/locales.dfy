/**
 * The three site locales and the per-locale image naming shared by the two
 * AdmissionPedia sections (`src/components/AdmissionPediaSection.tsx` and
 * `src/components/AdmissionPediaSection2.tsx`): which locale a route
 * parameter selects, which image folder and file prefix it uses, and the
 * image path built from them.
 */
module Locales {
  import opened Options
  import opened Strings

  /** `LocaleKey`: the locales the site renders. */
  datatype LocaleKey = En | ZhCn | ZhHk

  /** The locale's code as it appears in routes and folder names. */
  function Code(k: LocaleKey): (c: string)
    ensures c in {"en", "zh-cn", "zh-hk"}
  {
    match k
    case En => "en"
    case ZhCn => "zh-cn"
    case ZhHk => "zh-hk"
  }

  /**
   * The `switch (locale)` and `locale === 'zh-cn' ? … : locale === 'zh-hk' ?
   * … : 'en'` tests over the raw route parameter, which may be missing:
   * the two Chinese codes select themselves and anything else selects `en`.
   */
  function FromRaw(raw: Option<string>): (k: LocaleKey)
    ensures raw == Some("zh-cn") <==> k == ZhCn
    ensures raw == Some("zh-hk") <==> k == ZhHk
  {
    if raw == Some("zh-cn") then ZhCn
    else if raw == Some("zh-hk") then ZhHk
    else En
  }

  /**
   * The 2025 section's normalisation: `(params.locale as string) || 'en'`,
   * then the same two-way ternary.
   */
  function Normalise(raw: Option<string>): (k: LocaleKey)
    ensures k == FromRaw(raw)
  {
    var rawLocale := if Truthy(raw) then raw.value else "en";
    if rawLocale == "zh-cn" then ZhCn
    else if rawLocale == "zh-hk" then ZhHk
    else En
  }

  /** The image folder, the locale code: it names its locale back, and never holds a `/`. */
  function Folder(k: LocaleKey): (f: string)
    ensures FromRaw(Some(f)) == k
    ensures |f| >= 2 && '/' !in f
  {
    Code(k)
  }

  /** `getImagePrefix`; `PrefixMatchesFolder` states how it follows the folder name. */
  function Prefix(k: LocaleKey): string {
    match k
    case ZhCn => "zh_cn_"
    case ZhHk => "zh_hk_"
    case En => "en_"
  }

  /** `s` with every `-` turned into `_`. */
  function Underscored(s: string): (r: string)
    ensures |r| == |s|
    ensures forall i :: 0 <= i < |s| ==> r[i] == (if s[i] == '-' then '_' else s[i])
  {
    if |s| == 0 then [] else [if s[0] == '-' then '_' else s[0]] + Underscored(s[1..])
  }

  /** The part of an image path below the year: `<folder>/<prefix><num>.png`. */
  function ImageFile(k: LocaleKey, num: nat): string {
    Folder(k) + "/" + Prefix(k) + NatToString(num) + ".png"
  }

  /** The folder of a year's images in locale `k`: `/images/<year>/<folder>/`. */
  function ImageDir(year: string, k: LocaleKey): string {
    "/images/" + year + "/" + Folder(k) + "/"
  }

  /** `getImagePath(num)`: `/images/<year>/<folder>/<prefix><num>.png`, a PNG file in the year's folder of the locale. */
  function ImagePath(year: string, k: LocaleKey, num: nat): (path: string)
    ensures StartsWith(path, ImageDir(year, k))
    ensures EndsWith(path, ".png")
  {
    var dir := ImageDir(year, k);
    var stem := Prefix(k) + NatToString(num);
    ConcatEnds(dir, stem + ".png");
    ConcatEnds(dir + stem, ".png");
    assert dir + stem + ".png" == dir + (stem + ".png");
    dir + stem + ".png"
  }

  /** Reads the locale back from an image file name by its folder. */
  function FileLocale(file: string): LocaleKey {
    if StartsWith(file, "en/") then En else if StartsWith(file, "zh-cn/") then ZhCn else ZhHk
  }

  /** The digits of an image file name of locale `k`: what lies between the prefix and `.png`. */
  function FileDigits(file: string, k: LocaleKey): string
    requires |Folder(k)| + 1 + |Prefix(k)| + 4 <= |file|
  {
    file[|Folder(k)| + 1 + |Prefix(k)|..|file| - 4]
  }

  /* ---------------- Lemmas ---------------- */

  /** The file prefix is the folder name with `_` for every `-`, followed by `_`. */
  lemma PrefixMatchesFolder(k: LocaleKey)
    ensures Prefix(k) == Underscored(Folder(k)) + "_"
  {
    match k
    case ZhCn => assert Underscored("zh-cn") == "zh_cn";
    case ZhHk => assert Underscored("zh-hk") == "zh_hk";
    case En => assert Underscored("en") == "en";
  }

  /** A code names exactly one locale, and every locale is named by its own code. */
  lemma CodeRoundTrip(k: LocaleKey)
    ensures FromRaw(Some(Code(k))) == k
    ensures Normalise(Some(Code(k))) == k
  {
  }

  /** The normalisation is idempotent: normalising the code of a normalised locale changes nothing. */
  lemma NormaliseIdempotent(raw: Option<string>)
    ensures Normalise(Some(Code(Normalise(raw)))) == Normalise(raw)
  {
    CodeRoundTrip(Normalise(raw));
  }

  /** Any parameter other than the two Chinese codes, a missing one included, selects `en`. */
  lemma OtherLocalesAreEnglish(raw: Option<string>)
    requires raw != Some("zh-cn") && raw != Some("zh-hk")
    ensures FromRaw(raw) == En && Normalise(raw) == En
    ensures Folder(FromRaw(raw)) == "en" && Prefix(FromRaw(raw)) == "en_"
  {
  }

  /** The locale is recovered from the file name. */
  lemma FileLocaleOfImageFile(k: LocaleKey, num: nat)
    ensures FileLocale(ImageFile(k, num)) == k
  {
    var f := ImageFile(k, num);
    var head := Folder(k) + "/";
    var rest := Prefix(k) + NatToString(num) + ".png";
    assert f == head + rest;
    assert f[..|head|] == head;
    if k != En {
      assert f[..3] == head[..3] == "zh-";
    }
    if k == ZhHk {
      assert f[..6] == head == "zh-hk/";
    }
  }

  /** The number's digits are recovered from the file name. */
  lemma FileDigitsOfImageFile(k: LocaleKey, num: nat)
    ensures |Folder(k)| + 1 + |Prefix(k)| + 4 <= |ImageFile(k, num)|
    ensures FileDigits(ImageFile(k, num), k) == NatToString(num)
  {
    var head := Folder(k) + "/" + Prefix(k);
    var d := NatToString(num);
    assert ImageFile(k, num) == head + d + ".png";
    assert (head + d + ".png")[|head|..|head| + |d|] == d;
  }

  /** An image path is the year's folder followed by the image file. */
  lemma ImagePathSplits(year: string, k: LocaleKey, num: nat)
    ensures ImagePath(year, k, num) == "/images/" + year + "/" + ImageFile(k, num)
  {
    var stem := Prefix(k) + NatToString(num);
    assert ImageDir(year, k) + stem + ".png" == "/images/" + year + "/" + (Folder(k) + "/" + stem + ".png");
  }

  /** Image paths of one year name the locale and the number: distinct choices give distinct files. */
  lemma ImagePathInjective(year: string, k1: LocaleKey, n1: nat, k2: LocaleKey, n2: nat)
    requires ImagePath(year, k1, n1) == ImagePath(year, k2, n2)
    ensures k1 == k2 && n1 == n2
  {
    var head := "/images/" + year + "/";
    ImagePathSplits(year, k1, n1);
    ImagePathSplits(year, k2, n2);
    assert ImageFile(k1, n1) == ImagePath(year, k1, n1)[|head|..];
    assert ImageFile(k2, n2) == ImagePath(year, k2, n2)[|head|..];
    FileLocaleOfImageFile(k1, n1);
    FileLocaleOfImageFile(k2, n2);
    FileDigitsOfImageFile(k1, n1);
    FileDigitsOfImageFile(k2, n2);
    NatToStringInjective(n1, n2);
  }
}
