# CityU–Columbia resources site: a Dafny model

This project models the logic inside the Next.js site of the CityU–Columbia
joint programme. It covers the parts with a behaviour that can be stated
exactly:

- **Resource catalog** (`Resources`). Two universities, each an ordered list of
  categories of resources. `getResourceById` is a first-match search over them,
  and `incrementDownloadCount` is a no-op stub. The catalog document is not
  visible, so every query takes the catalog as a parameter.
- **Language switcher** (`LanguageSwitcher`). The table of three languages, the
  lookup of the current one, and `getLocalizedPath`, which removes the first
  `/<currentLocale>` from the pathname and prefixes `/<newLocale>`.
- **Video clip section** (`VideoClips`). `getYouTubeId` and `getBilibiliId`,
  the Bilibili thumbnail map with its fallback path, `getVideoConfig`, and the
  per-locale clip lists of `getVideoUrls`. `new URL` is replaced by a
  pre-parsed record (host, path, query pairs), with `None` for a URL that does
  not parse.
- **The two AdmissionPedia sections.**
  - `Locales`: locale normalisation, the image folder and prefix, and image paths.
  - `StickyScroll`: the sticky-scroll arithmetic (scroll distance, section
    height, clamped progress, each image's bottom offset and visibility) and
    the image column.
  - `AdmissionPedia2019`: the seven-image section of 2019.
  - `AdmissionPedia2025`: the five-image section of 2025, with its per-locale
    PDF button table, enabled and disabled buttons, and tooltips.
- **Reveal latch** (`RevealLatch`). The two "video revealed" flags of
  `VideoSection`, as a transition function over snapshots of the viewport
  and title positions.
- **Resource list** (`ResourceList`). The icon and button a resource card gets
  from its type, when a download request is made, its path and file name, when
  a video opens a tab, and which optional details a card shows.

Shared helpers live in `Options` (an `Option` type) and `Strings`. `Strings`
provides JavaScript's `indexOf`/`includes`/`startsWith` as a first-occurrence
search, `replace` with a string pattern, prefix scanning, truthiness of an
optional string, and the decimal rendering of a number.

Progress, offsets and positions are Dafny `real`s. JavaScript truthiness of a
possibly missing string is `Truthy`: present and non-empty.

## Model

| member | source | states |
|---|---|---|
| Resources.CityUResources | src/lib/resources.ts:35-37 | returns the catalog's `cityu` field unchanged |
| Resources.ColumbiaResources | src/lib/resources.ts:39-41 | returns the catalog's `columbia` field unchanged |
| Resources.FirstIndex | src/lib/resources.ts:48 | the index found carries the id, and no earlier resource does |
| Resources.FindById | src/lib/resources.ts:48 | `find` returns a member of the list with the id, and returns nothing exactly when no element has it |
| Resources.FindInCategories | src/lib/resources.ts:47-50 | the category loop only returns a resource carrying the queried id |
| Resources.FindInUniversities | src/lib/resources.ts:46-51 | the university loop only returns a resource carrying the queried id |
| Resources.ResourceById | src/lib/resources.ts:43-54 | a returned resource carries the queried id |
| Resources.IncrementDownloadCount | src/lib/resources.ts:56-60 | the catalog and every lookup in it, download counts included, are unchanged |
| Resources.FindByIdAppend | src/lib/resources.ts:48-49 | searching a concatenation finds the first part's match if it has one, else the second part's |
| Resources.FindInCategoriesIsFlatFind | src/lib/resources.ts:47-50 | the nested category loop equals one `find` over all the categories' resources, in order |
| Resources.FindInUniversitiesIsFlatFind | src/lib/resources.ts:46-51 | the nested university loop equals one `find` over the flattened catalog |
| Resources.CategoryResourcesMembers | src/lib/resources.ts:47-48 | the flattened list holds exactly the resources of the categories |
| Resources.CatalogResourcesMembers | src/lib/resources.ts:46-48 | the flattened catalog holds exactly the resources of some category of cityu or columbia |
| Resources.ResourceByIdIsFirstMatch | src/lib/resources.ts:43-54 | `getResourceById` is the first match in the flattened catalog: cityu, then columbia, categories and resources in order |
| Resources.ResourceByIdFound | src/lib/resources.ts:46-49 | a returned resource carries the id and lies in some category of one of the two universities |
| Resources.ResourceByIdNone | src/lib/resources.ts:46-53 | the result is null exactly when no catalogued resource has the id |
| Resources.ResourceByIdEarliest | src/lib/resources.ts:46-49 | with duplicated ids, the earliest occurrence in search order is returned |
| Resources.CityUSearchedFirst | src/lib/resources.ts:46 | a cityu match wins; columbia is consulted only when cityu has no match |
| LanguageSwitcher.FindLanguage | src/components/LanguageSwitcher.tsx:21 | `find` returns a table entry with the code, and returns nothing exactly when no entry has it |
| LanguageSwitcher.CurrentLanguage | src/components/LanguageSwitcher.tsx:20-21 | the current language is defined exactly when the locale is `en`, `zh-cn` or `zh-hk`, and is that table entry |
| LanguageSwitcher.LocalizedPath | src/components/LanguageSwitcher.tsx:35-38 | the result always begins with `/<newLocale>` |
| Strings.IndexOfFirst | src/components/LanguageSwitcher.tsx:36 | the string search finds an occurrence of the pattern with none before it, and finds nothing only when the pattern occurs nowhere |
| Strings.ContainsOccurrence | src/components/VideoClipSection.tsx:22 | `includes` holds exactly when the pattern occurs at some position |
| Strings.RemoveFirst | src/components/LanguageSwitcher.tsx:36 | `replace` with a string pattern leaves a string without the pattern unchanged, and otherwise removes exactly one occurrence's length |
| Strings.RemoveFirstAt | src/components/LanguageSwitcher.tsx:36 | the occurrence `replace` cuts out is the first one, and every other character is kept in order |
| LanguageSwitcher.LanguageCodesDistinct | src/components/LanguageSwitcher.tsx:8-12 | the three language codes are pairwise distinct |
| LanguageSwitcher.LocalizedPathRemovesFirstOccurrence | src/components/LanguageSwitcher.tsx:36-37 | only the first `/<currentLocale>` is removed; every other character is kept in order |
| LanguageSwitcher.LocalizedPathOfLocaleRoot | src/components/LanguageSwitcher.tsx:36-37 | on `/<currentLocale>` the result is `/<newLocale>/` |
| LanguageSwitcher.LocalizedPathWithoutLocale | src/components/LanguageSwitcher.tsx:36-37 | a non-empty pathname without `/<currentLocale>` is kept whole after the new prefix |
| LanguageSwitcher.SwitchFromPrefixedPath | src/components/LanguageSwitcher.tsx:35-38 | on `/<c><rest>` with non-empty `rest`, switching to `l` gives `/<l><rest>` |
| LanguageSwitcher.LocalizedPathRoundTrip | src/components/LanguageSwitcher.tsx:35-38 | switching to the current locale changes nothing, and switching away and back restores the pathname |
| VideoClips.EmbedIdIsFirstSegment | src/components/VideoClipSection.tsx:23 | an `/embed/` path gives the segment up to the next `?` or `/`, or nothing when it is empty |
| VideoClips.QueryGet | src/components/VideoClipSection.tsx:24 | `searchParams.get` returns the value of the first pair with the key, and nothing exactly when no pair has it |
| VideoClips.DropFirst | src/components/VideoClipSection.tsx:21 | `slice(1)` drops exactly the first character, and keeps an empty string empty |
| VideoClips.SplitSecondSpec | src/components/VideoClipSection.tsx:23 | the second `split` piece exists exactly when the separator occurs; it starts right after the first occurrence, holds no separator, and ends at the next one or at the end |
| Strings.NatToString | src/components/AdmissionPediaSection2.tsx:153 | a number interpolated into the image path is a non-empty run of decimal digits, starting with `0` only for zero |
| Strings.ParseNatToString | src/components/AdmissionPediaSection2.tsx:153 | reading the digits back gives the number |
| Strings.NatToStringInjective | src/components/AdmissionPediaSection2.tsx:153 | different image numbers give different texts |
| VideoClips.EmbedId | src/components/VideoClipSection.tsx:23 | an embed id is non-empty and holds neither `?` nor `/`; a path without `/embed/` gives none |
| VideoClips.YouTubeId | src/components/VideoClipSection.tsx:18-29 | an id comes only from a parsed URL on a `youtu.be` or `youtube.com` host, and is empty only for a bare `youtu.be` path; `YouTubeIdCases` gives every branch |
| VideoClips.YouTubeIdCases | src/components/VideoClipSection.tsx:18-29 | the cases of `getYouTubeId`: `youtu.be` path, embed segment with no fall-through to `v`, the non-empty `v` parameter, otherwise null |
| VideoClips.BilibiliId | src/components/VideoClipSection.tsx:32-41 | an id comes only from a parsed URL on a `bilibili.com` host and is a BV id; `BilibiliIdSpec` gives when it is found and which one |
| VideoClips.FirstVideoMatch | src/components/VideoClipSection.tsx:36 | the regex search returns the leftmost place where `/video/BV` and a word character start |
| VideoClips.CapturedId | src/components/VideoClipSection.tsx:36-37 | the capture is `BV` plus the maximal run of word characters after it |
| VideoClips.BilibiliIdSpec | src/components/VideoClipSection.tsx:32-41 | an id is found exactly on a bilibili.com host whose path matches; it is the leftmost match's maximal capture |
| VideoClips.GetVideoConfig | src/components/VideoClipSection.tsx:57-69 | the URL is kept unchanged; the platform is Bilibili exactly when the URL contains `bilibili.com` |
| VideoClips.BilibiliThumbnail | src/components/VideoClipSection.tsx:60-62 | a Bilibili thumbnail is always a local file under `/images/videos/`; an unmapped id reads back from its `bili/<BV>.jpg` fallback |
| VideoClips.MappedThumbnailLocal | src/components/VideoClipSection.tsx:48-53 | every mapped thumbnail is a `zh_cn_video_<digit>.png` file in `/images/videos/`, never in the `bili/` fallback folder |
| VideoClips.BilibiliThumbnailInjective | src/components/VideoClipSection.tsx:48-62 | distinct BV ids never share a thumbnail, whether mapped or fallback |
| VideoClips.YouTubeThumbnail | src/components/VideoClipSection.tsx:66 | the still URL is the `img.youtube.com/vi/` base, the id, and `/maxresdefault.jpg`; the id reads back from it |
| VideoClips.VideoConfigThumbnail | src/components/VideoClipSection.tsx:48-54 | the thumbnail is the mapped file, the `/images/videos/bili/<BV>.jpg` fallback, the YouTube still, or empty when no id is found |
| VideoClips.VideoUrls | src/components/VideoClipSection.tsx:72-88 | four clips in every locale: the Bilibili list for `zh-cn`, the YouTube playlist otherwise |
| VideoClips.BilibiliClipConfig | src/components/VideoClipSection.tsx:58-63 | a `www.bilibili.com/video/<BV>` clip is Bilibili and yields its own BV id and thumbnail |
| VideoClips.YouTubeClipConfig | src/components/VideoClipSection.tsx:64-67 | a playlist watch URL is YouTube and yields its `v` parameter and that video's still |
| VideoClips.BilibiliClipIdsMapped | src/components/VideoClipSection.tsx:48-54 | every shipped BV id is well formed and a key of the thumbnail map |
| VideoClips.VideoUrlsConfigs | src/components/VideoClipSection.tsx:72-88 | every shipped clip has an id and a thumbnail; the `zh-cn` clips never use the fallback path |
| Locales.Code | src/components/AdmissionPediaSection2.tsx:20 | a locale's code is one of `en`, `zh-cn`, `zh-hk` |
| Locales.FromRaw | src/components/AdmissionPediaSection.tsx:34-49 | the raw parameter selects `zh-cn` or `zh-hk` exactly when it is that code; anything else, missing included, selects `en` |
| Locales.Normalise | src/components/AdmissionPediaSection2.tsx:123-125 | the `|| 'en'` fallback and ternary agree with the 2019 section's classification, so normalisation is total |
| Locales.Folder | src/components/AdmissionPediaSection2.tsx:153 | the image folder names its own locale back and holds no `/` |
| Locales.PrefixMatchesFolder | src/components/AdmissionPediaSection2.tsx:140-149 | the prefix is the folder name with `_` for every `-`, followed by `_` |
| Locales.ImagePath | src/components/AdmissionPediaSection2.tsx:151-154 | an image path is a `.png` file inside `/images/<year>/<folder>/` |
| Locales.CodeRoundTrip | src/components/AdmissionPediaSection2.tsx:123-125 | each locale's code normalises back to that locale |
| Locales.NormaliseIdempotent | src/components/AdmissionPediaSection2.tsx:123-125 | normalising a normalised locale changes nothing |
| Locales.OtherLocalesAreEnglish | src/components/AdmissionPediaSection.tsx:34-49 | any other or missing locale uses the `en` folder and `en_` prefix |
| Locales.FileLocaleOfImageFile | src/components/AdmissionPediaSection2.tsx:151-154 | the locale can be read back from an image file name |
| Locales.FileDigitsOfImageFile | src/components/AdmissionPediaSection2.tsx:151-154 | the image number can be read back from an image file name |
| Locales.ImagePathInjective | src/components/AdmissionPediaSection2.tsx:151-154 | within one year, distinct locales or numbers give distinct image paths |
| StickyScroll.ScrollDistance | src/components/AdmissionPediaSection2.tsx:134-136 | the last image, `(imageCount-1)*65` vh below the first, ends 10vh above the bottom |
| StickyScroll.SectionHeightVh | src/components/AdmissionPediaSection2.tsx:137 | the section is exactly as tall as the image travel |
| StickyScroll.Clamp01 | src/components/AdmissionPediaSection2.tsx:168 | the clamp lands in [0,1], is the identity there, and sends values below 0 to 0 and above 1 to 1 |
| StickyScroll.Progress | src/components/AdmissionPediaSection2.tsx:157-174 | progress is in [0,1]: 0 before the span, 1 after it, and inside it the fraction of `height - windowHeight` scrolled |
| StickyScroll.Layout | src/components/AdmissionPediaSection2.tsx:286-291 | slot `i` shows image `i+1`, is visible iff its bottom is strictly between -80 and 120, and neighbours are 65vh apart |
| StickyScroll.Column | src/components/AdmissionPediaSection2.tsx:286-305 | image `i` of the column is file number `i+1` at slot `i`'s offset and visibility |
| StickyScroll.CurrentBottom | src/components/AdmissionPediaSection2.tsx:288-289 | at progress 0 image `index` sits `index*65`vh down, and over the span it rises by at most the travel |
| StickyScroll.VisibleRun | src/components/AdmissionPediaSection2.tsx:288-291 | the faded-in images form one unbroken run, at most four long |
| StickyScroll.SectionTallerThanWindow | src/components/AdmissionPediaSection2.tsx:164-168 | with three or more images the section is taller than any window, so the ratio's divisor is positive |
| StickyScroll.ProgressAtSpanEnds | src/components/AdmissionPediaSection2.tsx:164-168 | progress is 0 when the section top meets the viewport top and 1 when its bottom meets the viewport bottom |
| StickyScroll.ProgressMonotone | src/components/AdmissionPediaSection2.tsx:164-173 | scrolling further down never decreases progress |
| StickyScroll.LastImageStops | src/components/AdmissionPediaSection2.tsx:134-136 | at progress 1 the last image's bottom is exactly 10vh, and it is visible |
| StickyScroll.ImagesRise | src/components/AdmissionPediaSection2.tsx:288-289 | every image's offset grows with progress |
| StickyScroll.VisibleAtStart | src/components/AdmissionPediaSection2.tsx:287-291 | at progress 0 exactly the first two images are visible |
| StickyScroll.VisibleAtEnd | src/components/AdmissionPediaSection2.tsx:134-136 | at progress 1 exactly the last two images are visible |
| StickyScroll.SomeImageVisible | src/components/AdmissionPediaSection2.tsx:286-291 | at every progress in [0,1] some image is visible |
| StickyScroll.ColumnSourcesDistinct | src/components/AdmissionPediaSection2.tsx:286-305 | no two images of a column share a file |
| AdmissionPedia2019.SectionImagePath | src/components/AdmissionPediaSection.tsx:34-50 | any locale other than `zh-cn`/`zh-hk` gives `/images/2019/en/en_<n>.png` |
| AdmissionPedia2019.Images | src/components/AdmissionPediaSection.tsx:145-152 | seven images, index `i` showing image number `i+1` |
| AdmissionPedia2019.SectionDimensions | src/components/AdmissionPediaSection.tsx:25-31 | the travel is `10 + 6*65 = 400`vh and the section is 400vh tall |
| AdmissionPedia2019.ImagesDistinct | src/components/AdmissionPediaSection.tsx:45-50 | the seven images are seven different files in every locale |
| AdmissionPedia2019.VisibleImages | src/components/AdmissionPediaSection.tsx:145-152 | images 1-2 show at the start, images 6-7 at the end, and the last rests at 10vh |
| AdmissionPedia2025.ActionButton | src/components/AdmissionPediaSection2.tsx:321-363 | an enabled button is coloured, downloadable and has tabIndex 0; a disabled one is grey, aria-disabled, has no `download` and tabIndex -1 |
| AdmissionPedia2025.Tooltip | src/components/AdmissionPediaSection2.tsx:397-431 | a tooltip shows exactly when it is enabled, with its label |
| AdmissionPedia2025.RenderButton | src/components/AdmissionPediaSection2.tsx:235-263 | a shown button links to its href under its caption, is announced as `<caption> (PDF)`, downloads only when enabled, and shows each tooltip exactly when enabled |
| AdmissionPedia2025.Click | src/components/AdmissionPediaSection2.tsx:340-345 | the click is cancelled exactly when the button is disabled, and otherwise follows the anchor |
| AdmissionPedia2025.ButtonGroup | src/components/AdmissionPediaSection2.tsx:233-265 | one button per shown configuration, at most two, with the Columbia button last when shown |
| AdmissionPedia2025.SectionImagePath | src/components/AdmissionPediaSection2.tsx:151-154 | any locale other than `zh-cn`/`zh-hk` gives `/images/2025/en/en_<n>.png` |
| AdmissionPedia2025.ButtonsByLocale | src/components/AdmissionPediaSection2.tsx:47-117 | each school's button links to that school's volume in the locale's PDF folder |
| AdmissionPedia2025.Images | src/components/AdmissionPediaSection2.tsx:286-305 | five images, index `i` showing image number `i+1` |
| AdmissionPedia2025.HrefsArePdfs | src/components/AdmissionPediaSection2.tsx:44-117 | every href is a PDF in `/pdfs/2025/`, in the locale's sub-folder for the Chinese locales |
| AdmissionPedia2025.VolumeHrefShape | src/components/AdmissionPediaSection2.tsx:55-109 | a volume href starts with the locale's folder and ends with `.pdf` |
| AdmissionPedia2025.ButtonTableShape | src/components/AdmissionPediaSection2.tsx:47-117 | in every locale CityU is hidden, Columbia shown, no top tooltip is enabled, and the labels are the locale's defaults |
| AdmissionPedia2025.OnlySimplifiedColumbiaEnabled | src/components/AdmissionPediaSection2.tsx:47-117 | only the `zh-cn` Columbia button is enabled; the bottom tooltip is on exactly for the disabled Columbia buttons |
| AdmissionPedia2025.ClickFollowsEnabled | src/components/AdmissionPediaSection2.tsx:340-353 | a click is cancelled exactly when the button is disabled; an enabled one downloads its href |
| AdmissionPedia2025.ButtonGroupOfLocale | src/components/AdmissionPediaSection2.tsx:119-127 | the page renders one button, Columbia's, which downloads only in `zh-cn` and otherwise shows the "coming soon" tooltip |
| AdmissionPedia2025.SectionDimensions | src/components/AdmissionPediaSection2.tsx:130-137 | the travel is `10 + 4*65 = 270`vh and the section height equals it |
| AdmissionPedia2025.ImagesDistinct | src/components/AdmissionPediaSection2.tsx:151-154 | the five images are five different files in every locale |
| AdmissionPedia2025.VisibleImages | src/components/AdmissionPediaSection2.tsx:286-291 | images 1-2 show at the start, images 4-5 at the end, and the last rests at 10vh |
| RevealLatch.Check | src/components/VideoSection.tsx:45-63 | after `check` a video is revealed iff it already was, the viewport is narrower than 1024, or its attached title's top is above half the viewport height |
| RevealLatch.Effect | src/components/VideoSection.tsx:33-43 | with reduced motion both videos are revealed at once; otherwise the effect runs `check` |
| RevealLatch.Run | src/components/VideoSection.tsx:65-76 | a series of checks never hides a revealed video |
| RevealLatch.Session | src/components/VideoSection.tsx:33-83 | over a visit a video is shown iff motion is reduced or some snapshot fired for it |
| RevealLatch.CheckMonotone | src/components/VideoSection.tsx:30-31 | `check` never hides a revealed video |
| RevealLatch.NarrowRevealsBoth | src/components/VideoSection.tsx:46-51 | a viewport narrower than 1024 reveals both videos |
| RevealLatch.WideRevealsByTitle | src/components/VideoSection.tsx:53-62 | on a wide viewport a hidden video is revealed exactly when its title's top is strictly above half the viewport height |
| RevealLatch.CheckIndependent | src/components/VideoSection.tsx:55-62 | each title test touches only its own flag |
| RevealLatch.RevealedNotRetested | src/components/VideoSection.tsx:55-62 | for either video, once revealed it stays revealed and its title's position, or a detached ref, is not consulted again |
| RevealLatch.CheckIdempotent | src/components/VideoSection.tsx:45-63 | a second `check` on the same snapshot changes nothing |
| RevealLatch.RunReveals | src/components/VideoSection.tsx:65-76 | after a series of checks a video is revealed iff it was before or some snapshot fired for it |
| ResourceList.IconFor | src/components/ResourceList.tsx:42-51 | the icon is the video icon exactly for video resources, FileText otherwise |
| ResourceList.ActionFor | src/components/ResourceList.tsx:94-115 | `pdf` gives the download button, `video` the watch button, `link` the "Open" button |
| ResourceList.DownloadRequestFor | src/components/ResourceList.tsx:17-20 | a request is made exactly for a `pdf` with a non-empty `file` |
| ResourceList.HandleDownload | src/components/ResourceList.tsx:17-34 | nothing is requested without a PDF file; the file is saved exactly when the response is ok |
| ResourceList.HandleVideoClick | src/components/ResourceList.tsx:36-40 | a tab opens exactly when `url` is non-empty, on that URL |
| ResourceList.Click | src/components/ResourceList.tsx:94-115 | a click downloads exactly on `pdf` cards, through `handleDownload`; only `video` cards open tabs; the `link` button does nothing |
| ResourceList.RequestPath | src/components/ResourceList.tsx:20 | the path is `/<locale>/api/download/` followed by exactly the id |
| ResourceList.SavedName | src/components/ResourceList.tsx:27 | the saved name ends in `.pdf`, and the id reads back from it |
| ResourceList.RenderCard | src/components/ResourceList.tsx:63-121 | the video icon marks exactly the videos; the button downloads a PDF exactly for PDFs, plays exactly for videos and is "Open" exactly for links; the duration shows, as given, exactly when non-empty; the download count whenever it is defined |
| ResourceList.IconMatchesAction | src/components/ResourceList.tsx:63 | the video icon appears exactly on cards whose button plays a video |
| ResourceList.RequestPathInjective | src/components/ResourceList.tsx:20 | within one locale, distinct ids are requested at distinct paths |
| ResourceList.SavedNameInjective | src/components/ResourceList.tsx:27 | distinct ids are saved under distinct `<id>.pdf` names |
| ResourceList.SavedOnlyWhenOk | src/components/ResourceList.tsx:17-32 | a click saves a file iff the resource is a PDF with a file and the response is ok, and saves it under `<id>.pdf` |
| ResourceList.TabOnlyForVideos | src/components/ResourceList.tsx:36-40 | only a video card with a non-empty URL opens a tab, on its own URL |
| ResourceList.OpenButtonInert | src/components/ResourceList.tsx:110-115 | the "Open" button of a link resource has no handler, so clicking it does nothing |

## Left out

- **React machinery.** Hooks, refs, event listeners and the
  `requestAnimationFrame` throttle in `VideoSection` are not modelled. Each
  `check` is one transition over a snapshot; `Run` is a series of them.
- **URL parsing and regular expressions.** `new URL` is replaced by a
  pre-parsed record. `getBilibiliId`'s regex is modelled as a leftmost match
  with a maximal capture. The `/[?/]/` split of embed paths is modelled as a
  scan for the first `?` or `/`.
- **Network and browser I/O.**
  - `fetch` is not modelled: the response's `ok` is a boolean parameter.
  - Blobs, object URLs and `window.open` are not modelled: the outcome names
    the request or the URL.
  - `matchMedia` is not modelled: reduced motion is a boolean.
  - `window.innerWidth`, `innerHeight` and `getBoundingClientRect` are fields
    of the snapshot.
- **The server-side download handler.** `src/app/[locale]/api/download/[id]/route.ts`
  is not part of this model; the client side's request is.
- **Catalog contents.** The JSON catalog is not visible, so it is a parameter.
- **Floating point.** Progress, offsets and positions are exact reals. Nothing
  is claimed about IEEE rounding. The marquee duration measurement in
  `VideoClipSection` is pixel layout and is not modelled.
- **Markup-only components.** Footer, ResourceGrid, the page files,
  `middleware.ts` and `next.config.js` are not modelled. They are static
  dictionaries, markup or framework configuration.
- **Other UI state.** Three components keep small pieces of display state
  that are not modelled:
  - `IntroductionSection` loads its image through a one-flag scroll latch
    (`rect.top < screenHeight * 0.4`), shaped like the two flags of
    `RevealLatch`.
  - `Hero` fades in its two rows with two `setTimeout` timers.
  - `Navigation` keeps an `isScrolled` flag from the scroll position.
- **Localised card texts.** The `title[locale]` and `description[locale]`
  lookups of resource cards are not modelled.
- **Tooltip styling.** Class strings and the hover/focus opacity of
  `DualTooltip` are not modelled. `Tooltip` states only whether a tooltip can
  show, and its text.
- StickyScroll.Progress: requires a defined span. A section whose top is at or above the window's top and whose bottom is at or below its bottom must be taller than the window. This excludes the 0/0 (NaN) ratio the source would compute for a section exactly as tall as the window. `SectionTallerThanWindow` shows that both sections always meet this for a positive window height.
- StickyScroll.SectionTallerThanWindow: requires at least three images. With two images the section would be only 75vh tall.
- VideoClips.SplitSecond: models `split` for a non-empty separator only, the only kind the source passes. JavaScript splits on an empty separator between every character instead.
- VideoClips.YouTubeClipConfig: requires a non-empty `v` and `v` and `index` shorter than 12 characters. This is enough for the shipped playlist entries, which is where it is used.
- RevealLatch.Effect: the reduced-motion shortcut also installs no listeners. This is modelled in `Session`, where no snapshot is checked after it.
- **State of React `useState`.** The effect reads the flags of the render it was created in, then re-runs when they change. Since `check` only ever sets flags to true, using the latest flags in each transition gives the same results.

## Notes on the source

- `getResourceById` and `getCityUResources`/`getColumbiaResources` read the
  catalog from a module-level import. Here they take it as an argument.
- The two AdmissionPedia sections classify the locale in different ways.
  - 2019 uses the raw route parameter, which may be missing.
  - 2025 first falls back to `en` for an empty or missing value, then tests
    the two Chinese codes.
  - `Locales.Normalise` proves the two classifications always agree.
- `Resource.file` is optional (`src/lib/resources.ts:9`). `handleDownload`
  tests it before requesting (`src/components/ResourceList.tsx:18`), and
  `DownloadRequestFor` follows that test.
