/**
 * The sticky-scroll arithmetic shared by `src/components/AdmissionPediaSection.tsx`
 * and `src/components/AdmissionPediaSection2.tsx`: how far the image column
 * travels, how scroll progress through the section is measured, where each
 * image sits for a given progress, and when it is faded in.
 *
 * Lengths are `real`s in viewport-height units (`vh`) or pixels, as the
 * source uses them; IEEE rounding is not modelled.
 */
module StickyScroll {
  import opened Locales

  /** `IMAGE_SPACING_VH`: the vertical distance between consecutive images. */
  const ImageSpacingVh: int := 65

  /** `LAST_IMAGE_STOP_VH`: where the last image's bottom edge comes to rest. */
  const LastImageStopVh: int := 10

  /**
   * `scrollDistance = LAST_IMAGE_STOP_VH + lastIndex * IMAGE_SPACING_VH`:
   * the travel of the image column over the whole section. The last image
   * starts `lastIndex` spacings down and must end at the stop line.
   */
  function ScrollDistance(imageCount: nat): (d: int)
    requires imageCount >= 1
    ensures d - (imageCount - 1) * ImageSpacingVh == LastImageStopVh
  {
    LastImageStopVh + (imageCount - 1) * ImageSpacingVh
  }

  /** Both sections set their height, in `vh`, to the travel, so the sticky span has no dead zone. */
  function SectionHeightVh(imageCount: nat): (h: int)
    requires imageCount >= 1
    ensures h == ScrollDistance(imageCount)
  {
    ScrollDistance(imageCount)
  }

  /** The part of `getBoundingClientRect()` the progress uses. */
  datatype Rect = Rect(top: real, height: real) {
    function Bottom(): real {
      top + height
    }
  }

  /** The section's rectangle in pixels, `SectionHeightVh` hundredths of the window height tall. */
  function SectionRect(imageCount: nat, windowHeight: real, top: real): Rect
    requires imageCount >= 1
  {
    Rect(top, (SectionHeightVh(imageCount) as real) * windowHeight / 100.0)
  }

  function Abs(x: real): real {
    if x < 0.0 then -x else x
  }

  function Max(a: real, b: real): real {
    if a >= b then a else b
  }

  function Min(a: real, b: real): real {
    if a <= b then a else b
  }

  /** `Math.min(Math.max(x, 0), 1)`. */
  function Clamp01(x: real): (c: real)
    ensures 0.0 <= c <= 1.0
    ensures 0.0 <= x <= 1.0 ==> c == x
    ensures x < 0.0 ==> c == 0.0
    ensures x > 1.0 ==> c == 1.0
  {
    Min(Max(x, 0.0), 1.0)
  }

  /**
   * The progress computation divides by `height - windowHeight` only inside
   * the sticky span; there the section must be taller than the window
   * (otherwise the source computes `0 / 0`).
   */
  predicate ProgressDefined(rect: Rect, windowHeight: real) {
    rect.top <= 0.0 && rect.Bottom() >= windowHeight ==> rect.height > windowHeight
  }

  /**
   * `handleScroll`'s progress: the share of the sticky span already
   * scrolled past, 0 before the section reaches the top of the window and
   * 1 once its bottom has risen above the window's bottom.
   */
  function Progress(rect: Rect, windowHeight: real): (p: real)
    requires ProgressDefined(rect, windowHeight)
    ensures 0.0 <= p <= 1.0
    ensures rect.top > 0.0 ==> p == 0.0
    ensures rect.top <= 0.0 && rect.Bottom() < windowHeight ==> p == 1.0
    ensures rect.top <= 0.0 && rect.Bottom() >= windowHeight ==> p * (rect.height - windowHeight) == -rect.top
  {
    if rect.top <= 0.0 && rect.Bottom() >= windowHeight then
      var span := rect.height - windowHeight;
      RatioInUnit(Abs(rect.top), span);
      Clamp01(Abs(rect.top) / span)
    else if rect.top > 0.0 then
      0.0
    else
      1.0
  }

  /**
   * `currentBottom`: image `index` starts `index` spacings down and, over
   * the span, rises by at most the travel `distance`.
   */
  function CurrentBottom(index: nat, progress: real, distance: int): (b: real)
    ensures progress == 0.0 ==> b == -(index * ImageSpacingVh) as real
    ensures 0.0 <= progress <= 1.0 && distance >= 0 ==>
      -(index * ImageSpacingVh) as real <= b <= -(index * ImageSpacingVh) as real + distance as real
  {
    ScaleBounds(progress, distance as real);
    -((index * ImageSpacingVh) as real) + progress * (distance as real)
  }

  /** Scaling by a factor in [0,1] keeps a non-negative length between 0 and itself. */
  lemma ScaleBounds(p: real, d: real)
    ensures 0.0 <= p <= 1.0 && d >= 0.0 ==> 0.0 <= p * d <= d
  {
    if 0.0 <= p <= 1.0 && d >= 0.0 {
      assert (1.0 - p) * d >= 0.0;
    }
  }

  /** `isVisible`: the image is faded in while its bottom offset lies strictly between -80 and 120. */
  predicate IsVisible(bottom: real) {
    -80.0 < bottom < 120.0
  }

  /** One rendered image: its number, bottom offset and whether it is faded in. */
  datatype ImageSlot = ImageSlot(num: nat, bottom: real, visible: bool)

  function Slot(index: nat, progress: real, distance: int): ImageSlot {
    var b := CurrentBottom(index, progress, distance);
    ImageSlot(index + 1, b, IsVisible(b))
  }

  /**
   * The image column for a given progress: `Array.from({ length:
   * imageCount }, (_, i) => i + 1)` mapped to its offset and visibility.
   */
  function Layout(imageCount: nat, progress: real): (slots: seq<ImageSlot>)
    requires imageCount >= 1
    ensures |slots| == imageCount
    ensures forall i :: 0 <= i < imageCount ==> slots[i].num == i + 1
    ensures forall i :: 0 <= i < imageCount ==> (slots[i].visible <==> -80.0 < slots[i].bottom < 120.0)
    ensures forall i :: 0 <= i < imageCount - 1 ==> slots[i].bottom == slots[i + 1].bottom + (ImageSpacingVh as real)
  {
    seq(imageCount, i requires 0 <= i < imageCount => Slot(i, progress, ScrollDistance(imageCount)))
  }

  /** One `<img>` of the column: its source, bottom offset and opacity flag. */
  datatype RenderedImage = RenderedImage(src: string, bottom: real, visible: bool)

  /** The image column of a section for `year` in locale `k`: image number `i + 1` in slot `i`. */
  function Column(year: string, k: LocaleKey, imageCount: nat, progress: real): (images: seq<RenderedImage>)
    requires imageCount >= 1
    ensures |images| == imageCount
    ensures forall i :: 0 <= i < imageCount ==>
      && images[i].src == ImagePath(year, k, i + 1)
      && images[i].bottom == Layout(imageCount, progress)[i].bottom
      && images[i].visible == Layout(imageCount, progress)[i].visible
  {
    var slots := Layout(imageCount, progress);
    seq(imageCount, i requires 0 <= i < imageCount =>
      RenderedImage(ImagePath(year, k, slots[i].num), slots[i].bottom, slots[i].visible))
  }

  /* ---------------- Lemmas ---------------- */

  /** A product with a positive factor has the sign of the other factor. */
  lemma ProductSign(x: real, s: real)
    requires s > 0.0
    ensures x > 0.0 ==> x * s > 0.0
    ensures x * s >= 0.0 ==> x >= 0.0
    ensures x * s == 0.0 ==> x == 0.0
  {
    if x < 0.0 {
      assert (-x) * s > 0.0;
    }
  }

  /** A share of a positive whole lies in [0,1] and scales back to the share. */
  lemma RatioInUnit(x: real, s: real)
    requires s > 0.0 && 0.0 <= x <= s
    ensures 0.0 <= x / s <= 1.0
    ensures (x / s) * s == x
  {
    var q := x / s;
    assert q * s == x;
    assert (1.0 - q) * s == s - x;
    ProductSign(q, s);
    ProductSign(1.0 - q, s);
  }

  /**
   * A section `SectionHeightVh` tall is taller than a window of 100 vh as
   * soon as it has three images, so its progress is always defined.
   */
  lemma SectionTallerThanWindow(imageCount: nat, windowHeight: real, top: real)
    requires imageCount >= 3 && windowHeight > 0.0
    ensures SectionRect(imageCount, windowHeight, top).height > windowHeight
    ensures ProgressDefined(SectionRect(imageCount, windowHeight, top), windowHeight)
  {
    var h := SectionHeightVh(imageCount) as real;
    assert h >= 140.0;
    ProductSign(h - 100.0, windowHeight);
    var extra := (h - 100.0) * windowHeight;
    assert h * windowHeight == 100.0 * windowHeight + extra;
    assert h * windowHeight / 100.0 == windowHeight + extra / 100.0;
  }

  /** The progress is continuous at both ends of the sticky span. */
  lemma ProgressAtSpanEnds(rect: Rect, windowHeight: real)
    requires rect.height > windowHeight
    ensures rect.top == 0.0 ==> Progress(rect, windowHeight) == 0.0
    ensures rect.Bottom() == windowHeight ==> Progress(rect, windowHeight) == 1.0
  {
    var p := Progress(rect, windowHeight);
    if rect.Bottom() == windowHeight {
      assert p * (rect.height - windowHeight) == rect.height - windowHeight;
      assert (p - 1.0) * (rect.height - windowHeight) == 0.0;
      ProductSign(p - 1.0, rect.height - windowHeight);
    }
  }

  /** Scrolling further down never lowers the progress: a higher section top gives a smaller progress. */
  lemma ProgressMonotone(r1: Rect, r2: Rect, windowHeight: real)
    requires r1.height == r2.height && r1.height > windowHeight
    requires r1.top <= r2.top
    ensures Progress(r1, windowHeight) >= Progress(r2, windowHeight)
  {
    var p1 := Progress(r1, windowHeight);
    var p2 := Progress(r2, windowHeight);
    var span := r1.height - windowHeight;
    if r1.top <= 0.0 && r1.Bottom() >= windowHeight && r2.top <= 0.0 {
      assert r2.Bottom() >= windowHeight;
      assert (p1 - p2) * span == r2.top - r1.top;
      ProductSign(p1 - p2, span);
    }
  }

  /** With progress 1 the last image's bottom edge rests exactly at the stop line. */
  lemma LastImageStops(imageCount: nat)
    requires imageCount >= 1
    ensures CurrentBottom(imageCount - 1, 1.0, ScrollDistance(imageCount)) == LastImageStopVh as real
    ensures IsVisible(CurrentBottom(imageCount - 1, 1.0, ScrollDistance(imageCount)))
  {
  }

  /** Images only rise as the progress grows. */
  lemma ImagesRise(index: nat, p1: real, p2: real, distance: int)
    requires p1 <= p2 && distance >= 0
    ensures CurrentBottom(index, p1, distance) <= CurrentBottom(index, p2, distance)
  {
    assert (p2 - p1) * (distance as real) >= 0.0;
  }

  /** At the start of the section exactly the first two images are faded in. */
  lemma VisibleAtStart(imageCount: nat)
    requires imageCount >= 2
    ensures forall i :: 0 <= i < imageCount ==> (Layout(imageCount, 0.0)[i].visible <==> i < 2)
  {
    var slots := Layout(imageCount, 0.0);
    forall i | 0 <= i < imageCount ensures slots[i].visible <==> i < 2 {
      assert slots[i] == Slot(i, 0.0, ScrollDistance(imageCount));
      assert slots[i].bottom == -(i * ImageSpacingVh) as real;
    }
  }

  /** At the end of the section exactly the last two images are faded in. */
  lemma VisibleAtEnd(imageCount: nat)
    requires imageCount >= 2
    ensures forall i :: 0 <= i < imageCount ==> (Layout(imageCount, 1.0)[i].visible <==> i >= imageCount - 2)
  {
    var slots := Layout(imageCount, 1.0);
    var d := ScrollDistance(imageCount);
    forall i | 0 <= i < imageCount ensures slots[i].visible <==> i >= imageCount - 2 {
      assert slots[i] == Slot(i, 1.0, d);
      assert slots[i].bottom == (LastImageStopVh + (imageCount - 1 - i) * ImageSpacingVh) as real;
    }
  }

  /**
   * The faded-in images form one unbroken run of at most four: an image
   * between two visible ones is visible, and two visible images are at most
   * three places apart, because the 200vh window holds at most three
   * spacings.
   */
  lemma VisibleRun(imageCount: nat, progress: real)
    requires imageCount >= 1
    ensures forall i, j, m ::
      (0 <= i < m < j < imageCount && Layout(imageCount, progress)[i].visible
       && Layout(imageCount, progress)[j].visible) ==> Layout(imageCount, progress)[m].visible
    ensures forall i, j ::
      (0 <= i <= j < imageCount && Layout(imageCount, progress)[i].visible
       && Layout(imageCount, progress)[j].visible) ==> j - i <= 3
  {
    var slots := Layout(imageCount, progress);
    var d := ScrollDistance(imageCount);
    assert forall i :: 0 <= i < imageCount ==> slots[i] == Slot(i, progress, d);
  }

  /** Wherever the reader is in the section, at least one image is faded in. */
  lemma SomeImageVisible(imageCount: nat, progress: real)
    requires imageCount >= 1 && 0.0 <= progress <= 1.0
    ensures exists i :: 0 <= i < imageCount && Layout(imageCount, progress)[i].visible
  {
    var slots := Layout(imageCount, progress);
    var d := ScrollDistance(imageCount);
    var x := progress * (d as real);
    assert 0.0 <= x <= d as real by {
      assert (1.0 - progress) * (d as real) >= 0.0;
    }
    var q := (x / 65.0).Floor;
    assert q >= 0;
    var i := if q < imageCount - 1 then q else imageCount - 1;
    assert slots[i] == Slot(i, progress, d);
    assert slots[i].bottom == x - (i * 65) as real;
    assert slots[i].visible;
  }

  /** Every image of a column has its own file. */
  lemma ColumnSourcesDistinct(year: string, k: LocaleKey, imageCount: nat, progress: real)
    requires imageCount >= 1
    ensures forall i, j :: 0 <= i < j < imageCount ==>
      Column(year, k, imageCount, progress)[i].src != Column(year, k, imageCount, progress)[j].src
  {
    var images := Column(year, k, imageCount, progress);
    forall i, j | 0 <= i < j < imageCount ensures images[i].src != images[j].src {
      DistinctNumbersDistinctPaths(year, k, i + 1, j + 1);
    }
  }

  /** Two image numbers of one year and locale name two different files. */
  lemma DistinctNumbersDistinctPaths(year: string, k: LocaleKey, n1: nat, n2: nat)
    requires n1 != n2
    ensures ImagePath(year, k, n1) != ImagePath(year, k, n2)
  {
    if ImagePath(year, k, n1) == ImagePath(year, k, n2) {
      ImagePathInjective(year, k, n1, k, n2);
    }
  }
}
