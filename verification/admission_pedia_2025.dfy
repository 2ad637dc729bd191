/**
 * The 2025 AdmissionPedia section (`src/components/AdmissionPediaSection2.tsx`):
 * the per-locale table of PDF download buttons, the button and tooltip
 * rendering, and a sticky column of five localised images.
 */
module AdmissionPedia2025 {
  import opened Options
  import opened Strings
  import opened Locales
  import opened StickyScroll

  /** `imageCount`. */
  const ImageCount: nat := 5
  const Year := "2025"

  /** `ButtonCfg`: one download button (`caption` is its `label`); the tooltip labels are optional. */
  datatype ButtonCfg = ButtonCfg(
    show: bool,
    enabled: bool,
    href: string,
    caption: string,
    topTooltipEnabled: bool,
    topTooltipLabel: Option<string>,
    bottomTooltipEnabled: bool,
    bottomTooltipLabel: Option<string>)

  /** The two buttons of one locale. */
  datatype ButtonPair = ButtonPair(cityu: ButtonCfg, columbia: ButtonCfg)

  /** `DEFAULT_TOP_TOOLTIP`. */
  function DefaultTopTooltip(k: LocaleKey): string {
    match k
    case En => "New version available below!"
    case ZhCn => "请参见下方的新版本！"
    case ZhHk => "請參見下方的新版本！"
  }

  /** `DEFAULT_BOTTOM_TOOLTIP`. */
  function DefaultBottomTooltip(k: LocaleKey): string {
    match k
    case En => "Coming soon. Please refer to the Simplified Chinese version."
    case ZhCn => "即将推出。请参考简体中文版。"
    case ZhHk => "即將推出。請參考簡體中文版。"
  }

  /** A button whose tooltip labels are the locale's defaults and whose top tooltip is off. */
  function Button(k: LocaleKey, show: bool, enabled: bool, href: string, caption: string, bottom: bool): ButtonCfg {
    ButtonCfg(show, enabled, href, caption, false, Some(DefaultTopTooltip(k)), bottom, Some(DefaultBottomTooltip(k)))
  }

  /** The folder of the locale's 2025 volumes: English ones lie directly in `/pdfs/2025/`. */
  function PdfFolder(k: LocaleKey): string {
    if k == En then "/pdfs/2025/" else "/pdfs/2025/" + Code(k) + "/"
  }

  /** The href of a volume, e.g. `/pdfs/2025/zh-cn/volume_columbia.pdf`. */
  function VolumeHref(k: LocaleKey, school: string): string {
    PdfFolder(k) + "volume_" + school + ".pdf"
  }

  /** `BUTTONS_BY_LOCALE`: each school's button links to that school's volume in the locale's folder. */
  function ButtonsByLocale(k: LocaleKey): (b: ButtonPair)
    ensures b.cityu.href == VolumeHref(k, "cityu")
    ensures b.columbia.href == VolumeHref(k, "columbia")
  {
    match k
    case En => ButtonPair(
      Button(En, false, false, VolumeHref(En, "cityu"), "Volume of CityU", false),
      Button(En, true, false, VolumeHref(En, "columbia"), "Volume of Columbia", true))
    case ZhCn => ButtonPair(
      Button(ZhCn, false, false, VolumeHref(ZhCn, "cityu"), "城大卷", false),
      Button(ZhCn, true, true, VolumeHref(ZhCn, "columbia"), "哥大卷", false))
    case ZhHk => ButtonPair(
      Button(ZhHk, false, false, VolumeHref(ZhHk, "cityu"), "城大卷", false),
      Button(ZhHk, true, false, VolumeHref(ZhHk, "columbia"), "哥大卷", true))
  }

  const CityUColor := "#BB3568"
  const ColumbiaColor := "#62A8E5"
  /** The grey of a disabled button (Tailwind gray-500). */
  const DisabledColor := "#6B7280"

  /** The `<a>` an `ActionButton` renders; `download` stands for the attribute being present. */
  datatype Anchor = Anchor(
    href: string,
    download: bool,
    ariaDisabled: bool,
    tabIndex: int,
    background: string,
    ariaLabel: string,
    text: string)

  /** `ActionButton`: an enabled button is coloured, downloadable and focusable; a disabled one is none of these. */
  function ActionButton(cfg: ButtonCfg, colorHex: string, ariaLabel: string): (a: Anchor)
    ensures a.href == cfg.href && a.text == cfg.caption && a.ariaLabel == ariaLabel
    ensures a.download <==> cfg.enabled
    ensures a.ariaDisabled <==> !cfg.enabled
    ensures a.tabIndex == (if cfg.enabled then 0 else -1)
    ensures a.background == (if cfg.enabled then colorHex else DisabledColor)
  {
    Anchor(cfg.href, cfg.enabled, !cfg.enabled, if cfg.enabled then 0 else -1,
      if cfg.enabled then colorHex else DisabledColor, ariaLabel, cfg.caption)
  }

  /** What a click on an anchor does. */
  datatype ClickOutcome = Cancelled | Followed(href: string, download: bool)

  /** The anchor's click: the handler cancels it when the button is disabled, otherwise the browser follows the link. */
  function Click(cfg: ButtonCfg, a: Anchor): (o: ClickOutcome)
    ensures o.Cancelled? <==> !cfg.enabled
    ensures o.Followed? ==> o.href == a.href && o.download == a.download
  {
    if !cfg.enabled then Cancelled else Followed(a.href, a.download)
  }

  /** One tooltip of `DualTooltip`: its text when it is enabled, nothing when it is hidden. */
  function Tooltip(enabled: bool, text: Option<string>): (t: Option<string>)
    ensures t.Some? <==> enabled
    ensures t.Some? ==> t.value == text.GetOr("")
  {
    if enabled then Some(text.GetOr("")) else None
  }

  /** A shown button inside its `DualTooltip`. */
  datatype RenderedButton = RenderedButton(anchor: Anchor, topTooltip: Option<string>, bottomTooltip: Option<string>)

  /**
   * `DualTooltip` around an `ActionButton`: the anchor links to the button's
   * href under its caption, is announced as `<caption> (PDF)`, downloads
   * only when enabled, and each tooltip is present exactly when enabled.
   */
  function RenderButton(cfg: ButtonCfg, colorHex: string): (r: RenderedButton)
    ensures r.anchor.href == cfg.href && r.anchor.text == cfg.caption
    ensures r.anchor.ariaLabel == cfg.caption + " (PDF)"
    ensures r.anchor.download <==> cfg.enabled
    ensures r.topTooltip.Some? <==> cfg.topTooltipEnabled
    ensures r.bottomTooltip.Some? <==> cfg.bottomTooltipEnabled
    ensures r.bottomTooltip.Some? ==> r.bottomTooltip.value == cfg.bottomTooltipLabel.GetOr("")
  {
    RenderedButton(
      ActionButton(cfg, colorHex, cfg.caption + " (PDF)"),
      Tooltip(cfg.topTooltipEnabled, cfg.topTooltipLabel),
      Tooltip(cfg.bottomTooltipEnabled, cfg.bottomTooltipLabel))
  }

  /** The button group of the locale: the CityU button, then the Columbia button, each only when shown. */
  function ButtonGroup(raw: Option<string>): (group: seq<RenderedButton>)
    ensures |group| <= 2
    ensures |group| == (if ButtonsByLocale(Normalise(raw)).cityu.show then 1 else 0)
                     + (if ButtonsByLocale(Normalise(raw)).columbia.show then 1 else 0)
    ensures ButtonsByLocale(Normalise(raw)).columbia.show ==>
      group[|group| - 1] == RenderButton(ButtonsByLocale(Normalise(raw)).columbia, ColumbiaColor)
  {
    var buttons := ButtonsByLocale(Normalise(raw));
    (if buttons.cityu.show then [RenderButton(buttons.cityu, CityUColor)] else [])
      + (if buttons.columbia.show then [RenderButton(buttons.columbia, ColumbiaColor)] else [])
  }

  /** `getImagePath(num)` for the normalised locale. */
  function SectionImagePath(raw: Option<string>, num: nat): (path: string)
    ensures raw != Some("zh-cn") && raw != Some("zh-hk") ==>
      path == "/images/2025/en/en_" + NatToString(num) + ".png"
  {
    ImagePath(Year, Normalise(raw), num)
  }

  /** The rendered image column at scroll progress `progress`. */
  function Images(raw: Option<string>, progress: real): (images: seq<RenderedImage>)
    ensures |images| == ImageCount
    ensures forall i :: 0 <= i < ImageCount ==> images[i].src == SectionImagePath(raw, i + 1)
  {
    Column(Year, Normalise(raw), ImageCount, progress)
  }

  /* ---------------- Lemmas ---------------- */

  /**
   * Every button links to a 2025 PDF: English ones directly under
   * `/pdfs/2025/`, Chinese ones in the folder named by the locale code.
   */
  lemma HrefsArePdfs(k: LocaleKey)
    ensures var b := ButtonsByLocale(k);
      && EndsWith(b.cityu.href, ".pdf") && EndsWith(b.columbia.href, ".pdf")
      && StartsWith(b.cityu.href, PdfFolder(k)) && StartsWith(b.columbia.href, PdfFolder(k))
    ensures PdfFolder(k) == (if k == En then "/pdfs/2025/" else "/pdfs/2025/" + Code(k) + "/")
  {
    VolumeHrefShape(k, "cityu");
    VolumeHrefShape(k, "columbia");
  }

  /** A volume href lies in the locale's folder and names a PDF. */
  lemma VolumeHrefShape(k: LocaleKey, school: string)
    ensures StartsWith(VolumeHref(k, school), PdfFolder(k))
    ensures EndsWith(VolumeHref(k, school), ".pdf")
  {
    var folder := PdfFolder(k);
    var name := "volume_" + school;
    ConcatEnds(folder + name, ".pdf");
    ConcatEnds(folder, name + ".pdf");
    assert folder + name + ".pdf" == folder + (name + ".pdf");
  }

  /**
   * In every locale the CityU button is hidden and the Columbia one shown,
   * no top tooltip is enabled, and both buttons carry the locale's default
   * tooltip labels.
   */
  lemma ButtonTableShape(k: LocaleKey)
    ensures var b := ButtonsByLocale(k);
      && !b.cityu.show && b.columbia.show
      && !b.cityu.topTooltipEnabled && !b.columbia.topTooltipEnabled
      && b.cityu.topTooltipLabel == b.columbia.topTooltipLabel == Some(DefaultTopTooltip(k))
      && b.cityu.bottomTooltipLabel == b.columbia.bottomTooltipLabel == Some(DefaultBottomTooltip(k))
  {
  }

  /**
   * Only the Simplified Chinese Columbia volume can be downloaded, and the
   * bottom tooltip ("coming soon") is enabled exactly on the shown buttons
   * that are disabled.
   */
  lemma OnlySimplifiedColumbiaEnabled(k: LocaleKey)
    ensures !ButtonsByLocale(k).cityu.enabled
    ensures ButtonsByLocale(k).columbia.enabled <==> k == ZhCn
    ensures ButtonsByLocale(k).columbia.bottomTooltipEnabled <==> !ButtonsByLocale(k).columbia.enabled
    ensures !ButtonsByLocale(k).cityu.bottomTooltipEnabled
  {
  }

  /** A click is cancelled exactly when the button is disabled; an enabled button downloads its href. */
  lemma ClickFollowsEnabled(cfg: ButtonCfg, colorHex: string, ariaLabel: string)
    ensures Click(cfg, ActionButton(cfg, colorHex, ariaLabel)) == Cancelled <==> !cfg.enabled
    ensures cfg.enabled ==> Click(cfg, ActionButton(cfg, colorHex, ariaLabel)) == Followed(cfg.href, true)
  {
  }

  /**
   * The page shows one button, the Columbia volume: its link and colour,
   * whether it downloads, and whether its "coming soon" tooltip shows all
   * follow from the locale alone.
   */
  lemma ButtonGroupOfLocale(raw: Option<string>)
    ensures var group := ButtonGroup(raw);
      var k := Normalise(raw);
      && |group| == 1
      && group[0].anchor.href == ButtonsByLocale(k).columbia.href
      && group[0].anchor.ariaLabel == ButtonsByLocale(k).columbia.caption + " (PDF)"
      && (group[0].anchor.download <==> k == ZhCn)
      && group[0].anchor.background == (if k == ZhCn then ColumbiaColor else DisabledColor)
      && group[0].topTooltip == None
      && group[0].bottomTooltip == (if k == ZhCn then None else Some(DefaultBottomTooltip(k)))
  {
    var k := Normalise(raw);
    ButtonTableShape(k);
    OnlySimplifiedColumbiaEnabled(k);
  }

  /** The images travel 270vh, and the section is exactly that tall. */
  lemma SectionDimensions()
    ensures ScrollDistance(ImageCount) == 270
    ensures SectionHeightVh(ImageCount) == 270
  {
  }

  /** The five images are five different files, whatever the locale. */
  lemma ImagesDistinct(raw: Option<string>, progress: real)
    ensures forall i, j :: 0 <= i < j < ImageCount ==> Images(raw, progress)[i].src != Images(raw, progress)[j].src
  {
    ColumnSourcesDistinct(Year, Normalise(raw), ImageCount, progress);
  }

  /** Before the span only the first two images show; after it only the last two, the last resting 10vh up. */
  lemma VisibleImages(raw: Option<string>)
    ensures forall i :: 0 <= i < ImageCount ==> (Images(raw, 0.0)[i].visible <==> i < 2)
    ensures forall i :: 0 <= i < ImageCount ==> (Images(raw, 1.0)[i].visible <==> i >= 3)
    ensures Images(raw, 1.0)[ImageCount - 1].bottom == 10.0
  {
    VisibleAtStart(ImageCount);
    VisibleAtEnd(ImageCount);
    LastImageStops(ImageCount);
  }
}
