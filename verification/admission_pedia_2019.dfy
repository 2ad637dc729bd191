/**
 * The 2019 AdmissionPedia section (`src/components/AdmissionPediaSection.tsx`):
 * a sticky section whose height equals the image travel, with a column of
 * seven localised images that rise as the reader scrolls through it.
 */
module AdmissionPedia2019 {
  import opened Options
  import opened Strings
  import opened Locales
  import opened StickyScroll

  /** `imageCount`. */
  const ImageCount: nat := 7
  const Year := "2019"

  /** `getImagePath(num)`, where the locale is the raw route parameter, possibly missing. */
  function SectionImagePath(raw: Option<string>, num: nat): (path: string)
    ensures raw != Some("zh-cn") && raw != Some("zh-hk") ==>
      path == "/images/2019/en/en_" + NatToString(num) + ".png"
  {
    ImagePath(Year, FromRaw(raw), num)
  }

  /** The rendered image column at scroll progress `progress`. */
  function Images(raw: Option<string>, progress: real): (images: seq<RenderedImage>)
    ensures |images| == ImageCount
    ensures forall i :: 0 <= i < ImageCount ==> images[i].src == SectionImagePath(raw, i + 1)
  {
    Column(Year, FromRaw(raw), ImageCount, progress)
  }

  /* ---------------- Lemmas ---------------- */

  /** The images travel 400vh, and the section is exactly that tall. */
  lemma SectionDimensions()
    ensures ScrollDistance(ImageCount) == 400
    ensures SectionHeightVh(ImageCount) == 400
  {
  }

  /** The seven images are seven different files, whatever the locale. */
  lemma ImagesDistinct(raw: Option<string>, progress: real)
    ensures forall i, j :: 0 <= i < j < ImageCount ==> Images(raw, progress)[i].src != Images(raw, progress)[j].src
  {
    ColumnSourcesDistinct(Year, FromRaw(raw), ImageCount, progress);
  }

  /**
   * Before the span begins only the first two images show; once it is done
   * only the last two show, and the last image rests 10vh above the bottom.
   */
  lemma VisibleImages(raw: Option<string>)
    ensures forall i :: 0 <= i < ImageCount ==> (Images(raw, 0.0)[i].visible <==> i < 2)
    ensures forall i :: 0 <= i < ImageCount ==> (Images(raw, 1.0)[i].visible <==> i >= 5)
    ensures Images(raw, 1.0)[ImageCount - 1].bottom == 10.0
  {
    VisibleAtStart(ImageCount);
    VisibleAtEnd(ImageCount);
    LastImageStops(ImageCount);
  }
}
