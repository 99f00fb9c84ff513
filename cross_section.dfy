/**
 The cross-section layout engine: a trapezoidal wall profile, wide at the
 base and narrower at the top, is cut into courses of equal thickness that
 tile the height exactly; each course holds as many whole bags as fit in its
 average width, centred on the vertical axis x = 0. The result is the
 sequence of bag rectangles of each course, bottom course first and, within a
 course, left to right: the rectangles the drawing backend fills.
 */
module CrossSection {
  import opened Rounding
  import opened Estimator  // the course count is the estimator's layer count

  /** An axis-aligned rectangle: one bag seen in cross-section. */
  datatype Rect = Rect(xLeft: real, xRight: real, yBottom: real, yTop: real)

  /**
   What the code needs to run without dividing by zero: a non-zero bag
   height (the course count divides by it), a course count that is not zero
   (the course thickness divides by it), and a non-zero bag width whenever
   there is a course to fill (each course divides its width by it).
   */
  predicate Drawable(height: real, bagHeight: real, bagWidth: real) {
    bagHeight != 0.0 && Layers(height, bagHeight) != 0 && (Layers(height, bagHeight) > 0 ==> bagWidth != 0.0)
  }

  /** The actual course thickness: the nominal bag height adjusted so that the courses tile the height. */
  function Thickness(height: real, bagHeight: real): (t: real)
    requires bagHeight != 0.0 && Layers(height, bagHeight) != 0
    ensures t * Layers(height, bagHeight) as real == height
  {
    height / Layers(height, bagHeight) as real
  }

  function LayerBottom(height: real, bagHeight: real, i: int): real
    requires bagHeight != 0.0 && Layers(height, bagHeight) != 0
  {
    i as real * Thickness(height, bagHeight)
  }

  function LayerTop(height: real, bagHeight: real, i: int): real
    requires bagHeight != 0.0 && Layers(height, bagHeight) != 0
  {
    (i + 1) as real * Thickness(height, bagHeight)
  }

  /** The profile's width at a fraction of the height (0 at the base, 1 at the top). */
  function WidthAt(wBase: real, wTop: real, frac: real): real {
    wBase + (wTop - wBase) * frac
  }

  /** The fraction of the height at the middle of course i of n. */
  function MidFraction(n: int, i: int): real
    requires n != 0
  {
    (2 * i + 1) as real / (2 * n) as real
  }

  /** The width a course packs bags into: the profile's width at the course's mid-height. */
  function PackingWidth(height: real, bagHeight: real, wBase: real, wTop: real, i: int): real
    requires bagHeight != 0.0 && Layers(height, bagHeight) != 0
  {
    WidthAt(wBase, wTop, MidFraction(Layers(height, bagHeight), i))
  }

  /** Whole bags that fit across course i; none is cut. */
  function BagsInLayer(height: real, bagHeight: real, wBase: real, wTop: real, bagWidth: real, i: int): (n: int)
    requires bagHeight != 0.0 && Layers(height, bagHeight) != 0 && bagWidth != 0.0
    ensures n as real <= PackingWidth(height, bagHeight, wBase, wTop, i) / bagWidth < (n + 1) as real
  {
    Floor(PackingWidth(height, bagHeight, wBase, wTop, i) / bagWidth)
  }

  /** Bag b of a row of k bags of width w, centred on x = 0, spanning [yBottom, yTop]. */
  function BagRect(k: int, w: real, yBottom: real, yTop: real, b: int): (r: Rect)
    ensures r.xRight - r.xLeft == w && r.yBottom == yBottom && r.yTop == yTop
    ensures r.xLeft + r.xRight == (2 * b + 1 - k) as real * w
  {
    Rect(-(k as real * w) / 2.0 + b as real * w, -(k as real * w) / 2.0 + (b + 1) as real * w, yBottom, yTop)
  }

  /** A row of k bags of width w, left to right, spanning [yBottom, yTop]; a negative k gives no bags. */
  function Row(k: int, w: real, yBottom: real, yTop: real): (row: seq<Rect>)
    ensures |row| == Max0(k)
    ensures forall b :: 0 <= b < |row| ==> row[b].xRight - row[b].xLeft == w
  {
    seq(Max0(k), b => BagRect(k, w, yBottom, yTop, b))
  }

  /** The bags of course i, left to right. */
  function LayerBags(height: real, bagHeight: real, wBase: real, wTop: real, bagWidth: real, i: int): seq<Rect>
    requires bagHeight != 0.0 && Layers(height, bagHeight) != 0 && bagWidth != 0.0
  {
    Row(BagsInLayer(height, bagHeight, wBase, wTop, bagWidth, i), bagWidth,
        LayerBottom(height, bagHeight, i), LayerTop(height, bagHeight, i))
  }

  /** The whole cross-section: the bags of every course, bottom course first. */
  function Layout(height: real, bagHeight: real, wBase: real, wTop: real, bagWidth: real): (layout: seq<seq<Rect>>)
    requires Drawable(height, bagHeight, bagWidth)
    ensures |layout| == Max0(Layers(height, bagHeight))
    ensures forall i :: 0 <= i < |layout| ==> |layout[i]| == Max0(BagsInLayer(height, bagHeight, wBase, wTop, bagWidth, i))
  {
    seq(Max0(Layers(height, bagHeight)),
        i requires 0 <= i < Max0(Layers(height, bagHeight)) => LayerBags(height, bagHeight, wBase, wTop, bagWidth, i))
  }

  /**
   The layer and bag loops of plot_wall_cross_section_with_bags, each
   rectangle handed to the drawing backend appended to its course's row.
   */
  method ComputeLayout(height: real, bagHeight: real, wBase: real, wTop: real, bagWidth: real)
    returns (layers: seq<seq<Rect>>)
    requires Drawable(height, bagHeight, bagWidth)
    ensures layers == Layout(height, bagHeight, wBase, wTop, bagWidth)
  {
    var nLayers := Ceil(height / bagHeight);
    var layerThickness := height / nLayers as real;
    layers := [];
    var i := 0;
    while i < nLayers
      invariant 0 <= i <= Max0(nLayers)
      invariant |layers| == i
      invariant forall j :: 0 <= j < i ==> layers[j] == LayerBags(height, bagHeight, wBase, wTop, bagWidth, j)
    {
      var yBottom := i as real * layerThickness;
      var yTop := (i + 1) as real * layerThickness;

      var fracBottom := if height != 0.0 then yBottom / height else 0.0;
      var fracTop := if height != 0.0 then yTop / height else 1.0;

      var widthBottom := wBase + (wTop - wBase) * fracBottom;
      var widthTop := wBase + (wTop - wBase) * fracTop;
      var avgLayerWidth := (widthBottom + widthTop) / 2.0;

      var nBagsLayer := Floor(avgLayerWidth / bagWidth);
      var totalBagsWidth := nBagsLayer as real * bagWidth;
      var xStart := -(totalBagsWidth / 2.0) + (bagWidth / 2.0);

      SourceCourseArithmetic(height, bagHeight, wBase, wTop, i, yBottom, yTop, fracBottom, fracTop, avgLayerWidth);
      assert nBagsLayer == BagsInLayer(height, bagHeight, wBase, wTop, bagWidth, i);

      var row := [];
      var b := 0;
      while b < nBagsLayer
        invariant 0 <= b <= Max0(nBagsLayer)
        invariant |row| == b
        invariant forall c :: 0 <= c < b ==> row[c] == BagRect(nBagsLayer, bagWidth, yBottom, yTop, c)
      {
        var xCenter := xStart + b as real * bagWidth;
        var xLeft := xCenter - (bagWidth / 2.0);
        var xRight := xCenter + (bagWidth / 2.0);
        SourceBagRect(nBagsLayer, bagWidth, yBottom, yTop, b, xStart, xLeft, xRight);
        row := row + [Rect(xLeft, xRight, yBottom, yTop)];
        b := b + 1;
      }
      assert row == LayerBags(height, bagHeight, wBase, wTop, bagWidth, i);
      layers := layers + [row];
      i := i + 1;
    }
  }

  /**
   The interpolation fractions y/height of course i of n are i/n and
   (i+1)/n, and the average of the widths at the two is the width at the
   course's mid-height.
   */
  lemma AverageIsPackingWidth(height: real, bagHeight: real, wBase: real, wTop: real, i: int)
    requires bagHeight != 0.0 && Layers(height, bagHeight) != 0
    ensures height != 0.0
    ensures LayerBottom(height, bagHeight, i) / height == i as real / Layers(height, bagHeight) as real
    ensures LayerTop(height, bagHeight, i) / height == (i + 1) as real / Layers(height, bagHeight) as real
    ensures (WidthAt(wBase, wTop, LayerBottom(height, bagHeight, i) / height)
             + WidthAt(wBase, wTop, LayerTop(height, bagHeight, i) / height)) / 2.0
         == PackingWidth(height, bagHeight, wBase, wTop, i)
  {
  }

  /**
   The course arithmetic as the loop body writes it, guards included: the
   bounds of course i are the closed-form ones, and the average of the widths
   at the two bounds is the course's packing width.
   */
  lemma SourceCourseArithmetic(height: real, bagHeight: real, wBase: real, wTop: real, i: int,
                               yBottom: real, yTop: real, fracBottom: real, fracTop: real, avgLayerWidth: real)
    requires bagHeight != 0.0 && Layers(height, bagHeight) != 0
    requires yBottom == i as real * (height / Layers(height, bagHeight) as real)
    requires yTop == (i + 1) as real * (height / Layers(height, bagHeight) as real)
    requires fracBottom == if height != 0.0 then yBottom / height else 0.0
    requires fracTop == if height != 0.0 then yTop / height else 1.0
    requires avgLayerWidth == (wBase + (wTop - wBase) * fracBottom + (wBase + (wTop - wBase) * fracTop)) / 2.0
    ensures yBottom == LayerBottom(height, bagHeight, i) && yTop == LayerTop(height, bagHeight, i)
    ensures avgLayerWidth == PackingWidth(height, bagHeight, wBase, wTop, i)
  {
    assert yBottom == LayerBottom(height, bagHeight, i) && yTop == LayerTop(height, bagHeight, i);
    AverageIsPackingWidth(height, bagHeight, wBase, wTop, i);
    assert fracBottom == yBottom / height && fracTop == yTop / height;
    var widthBottom, widthTop := WidthAt(wBase, wTop, fracBottom), WidthAt(wBase, wTop, fracTop);
    assert widthBottom == wBase + (wTop - wBase) * fracBottom;
    assert widthTop == wBase + (wTop - wBase) * fracTop;
    assert avgLayerWidth == (widthBottom + widthTop) / 2.0;
  }

  /** The bag rectangle as the inner loop body writes it, from x_start, is the closed-form one. */
  lemma SourceBagRect(k: int, w: real, yBottom: real, yTop: real, b: int, xStart: real, xLeft: real, xRight: real)
    requires xStart == -((k as real * w) / 2.0) + (w / 2.0)
    requires xLeft == (xStart + b as real * w) - (w / 2.0)
    requires xRight == (xStart + b as real * w) + (w / 2.0)
    ensures Rect(xLeft, xRight, yBottom, yTop) == BagRect(k, w, yBottom, yTop, b)
  {
    assert (b + 1) as real * w == b as real * w + w;
  }

  /** With a positive height and bag height there is at least one course, and one course per started bag height. */
  lemma LayoutHasEveryCourse(height: real, bagHeight: real, wBase: real, wTop: real, bagWidth: real)
    requires height > 0.0 && bagHeight > 0.0 && bagWidth != 0.0
    ensures |Layout(height, bagHeight, wBase, wTop, bagWidth)| == Layers(height, bagHeight) >= 1
    ensures forall i :: 0 <= i < Layers(height, bagHeight) ==>
      |Layout(height, bagHeight, wBase, wTop, bagWidth)[i]| == Max0(BagsInLayer(height, bagHeight, wBase, wTop, bagWidth, i))
  {
  }

  /**
   The courses tile the height exactly: the first starts at the base, the
   last ends at the top, each ends where the next begins, and each is one
   thickness thick.
   */
  lemma CoursesTileHeight(height: real, bagHeight: real)
    requires bagHeight != 0.0 && Layers(height, bagHeight) != 0
    ensures LayerBottom(height, bagHeight, 0) == 0.0
    ensures LayerTop(height, bagHeight, Layers(height, bagHeight) - 1) == height
    ensures forall i :: LayerTop(height, bagHeight, i) == LayerBottom(height, bagHeight, i + 1)
    ensures forall i :: LayerTop(height, bagHeight, i) - LayerBottom(height, bagHeight, i) == Thickness(height, bagHeight)
  {
  }

  /** With a positive height every course lies inside the wall. */
  lemma CoursesInsideWall(height: real, bagHeight: real, i: int)
    requires height > 0.0 && bagHeight > 0.0
    requires 0 <= i < Layers(height, bagHeight)
    ensures 0.0 <= LayerBottom(height, bagHeight, i) < LayerTop(height, bagHeight, i) <= height
  {
  }

  /** When the height is a whole number of bag heights, the courses are exactly one bag height thick. */
  lemma ExactHeightKeepsBagHeight(height: real, bagHeight: real, k: int)
    requires bagHeight > 0.0 && k >= 1
    requires height == k as real * bagHeight
    ensures Layers(height, bagHeight) == k
    ensures Thickness(height, bagHeight) == bagHeight
  {
    assert height / bagHeight == k as real;
    CeilUnique(height / bagHeight, k);
  }

  /** The interpolation fractions of an existing course, and its mid-height fraction, lie in [0, 1]. */
  lemma FractionsInUnitInterval(height: real, bagHeight: real, i: int)
    requires bagHeight != 0.0 && 0 <= i < Layers(height, bagHeight)
    ensures height != 0.0
    ensures 0.0 <= LayerBottom(height, bagHeight, i) / height <= 1.0
    ensures 0.0 <= LayerTop(height, bagHeight, i) / height <= 1.0
    ensures 0.0 <= MidFraction(Layers(height, bagHeight), i) <= 1.0
  {
    var n := Layers(height, bagHeight);
    AverageIsPackingWidth(height, bagHeight, 0.0, 0.0, i);
    FractionBetween(i, n);
    FractionBetween(i + 1, n);
    FractionBetween(2 * i + 1, 2 * n);
  }

  lemma FractionBetween(a: int, n: int)
    requires 0 <= a <= n && n > 0
    ensures 0.0 <= a as real / n as real <= 1.0
  {
  }

  /** Between the base and the top the profile's width lies between the base and top widths. */
  lemma WidthBetween(wBase: real, wTop: real, frac: real)
    requires 0.0 <= frac <= 1.0
    ensures wBase <= wTop ==> wBase <= WidthAt(wBase, wTop, frac) <= wTop
    ensures wTop <= wBase ==> wTop <= WidthAt(wBase, wTop, frac) <= wBase
  {
    var d := wTop - wBase;
    assert WidthAt(wBase, wTop, frac) == wBase + d * frac;
    assert wTop == wBase + d;
    if d > 0.0 {
      MultiplyWeak(0.0, frac, d);
      MultiplyWeak(frac, 1.0, d);
      assert 0.0 <= d * frac <= d;
    } else if d < 0.0 {
      MultiplyWeak(0.0, frac, -d);
      MultiplyWeak(frac, 1.0, -d);
      assert d <= d * frac <= 0.0;
    }
  }

  /** A course holds the most whole bags its packing width allows: no more, and not one fewer. */
  lemma BagsFitPackingWidth(height: real, bagHeight: real, wBase: real, wTop: real, bagWidth: real, i: int)
    requires Drawable(height, bagHeight, bagWidth) && bagWidth > 0.0
    ensures BagsInLayer(height, bagHeight, wBase, wTop, bagWidth, i) as real * bagWidth
         <= PackingWidth(height, bagHeight, wBase, wTop, i)
    ensures PackingWidth(height, bagHeight, wBase, wTop, i)
         < (BagsInLayer(height, bagHeight, wBase, wTop, bagWidth, i) + 1) as real * bagWidth
  {
    var k := BagsInLayer(height, bagHeight, wBase, wTop, bagWidth, i);
    var p := PackingWidth(height, bagHeight, wBase, wTop, i);
    var q := p / bagWidth;
    assert q * bagWidth == p;
    assert k as real <= q < (k + 1) as real;
    MultiplyWeak(k as real, q, bagWidth);
    MultiplyStrict(q, (k + 1) as real, bagWidth);
    assert p < (k + 1) as real * bagWidth;
  }

  /** A profile of non-negative widths never asks for a negative number of bags. */
  lemma BagCountNonNegative(height: real, bagHeight: real, wBase: real, wTop: real, bagWidth: real, i: int)
    requires Drawable(height, bagHeight, bagWidth) && bagWidth > 0.0
    requires wBase >= 0.0 && wTop >= 0.0
    requires 0 <= i < Layers(height, bagHeight)
    ensures BagsInLayer(height, bagHeight, wBase, wTop, bagWidth, i) >= 0
  {
    FractionsInUnitInterval(height, bagHeight, i);
    WidthBetween(wBase, wTop, MidFraction(Layers(height, bagHeight), i));
    FloorMonotone(0.0, PackingWidth(height, bagHeight, wBase, wTop, i) / bagWidth);
  }

  /** On a profile that narrows upwards a higher course never holds more bags than a lower one. */
  lemma BagCountNonIncreasing(height: real, bagHeight: real, wBase: real, wTop: real, bagWidth: real, i: int, j: int)
    requires Drawable(height, bagHeight, bagWidth) && bagWidth > 0.0
    requires Layers(height, bagHeight) > 0
    requires wTop <= wBase && i <= j
    ensures BagsInLayer(height, bagHeight, wBase, wTop, bagWidth, j) <= BagsInLayer(height, bagHeight, wBase, wTop, bagWidth, i)
  {
    var n := Layers(height, bagHeight);
    var fi, fj := MidFraction(n, i), MidFraction(n, j);
    assert fi <= fj by {
      MultiplyWeak((2 * i + 1) as real, (2 * j + 1) as real, 1.0 / (2 * n) as real);
    }
    assert (wBase - wTop) * fi <= (wBase - wTop) * fj by {
      if wBase - wTop > 0.0 {
        MultiplyWeak(fi, fj, wBase - wTop);
      }
    }
    var pi, pj := PackingWidth(height, bagHeight, wBase, wTop, i), PackingWidth(height, bagHeight, wBase, wTop, j);
    assert pj <= pi;
    MultiplyWeak(pj, pi, 1.0 / bagWidth);
    FloorMonotone(pj / bagWidth, pi / bagWidth);
  }

  /** The mid-point of a rectangle's horizontal span. */
  function Centre(r: Rect): real {
    (r.xLeft + r.xRight) / 2.0
  }

  /** A row of k bags has k rectangles (none when k is negative), each one bag width wide, spanning the row's height. */
  lemma RowBags(k: int, w: real, yBottom: real, yTop: real)
    ensures |Row(k, w, yBottom, yTop)| == Max0(k)
    ensures forall b :: 0 <= b < k ==> Row(k, w, yBottom, yTop)[b].xRight - Row(k, w, yBottom, yTop)[b].xLeft == w
    ensures forall b :: 0 <= b < k ==>
      Row(k, w, yBottom, yTop)[b].yBottom == yBottom && Row(k, w, yBottom, yTop)[b].yTop == yTop
  {
  }

  /** A row spans exactly [-k*w/2, k*w/2] and adjacent bags touch. */
  lemma RowContiguous(k: int, w: real, yBottom: real, yTop: real)
    ensures k > 0 ==> Row(k, w, yBottom, yTop)[0].xLeft == -(k as real * w) / 2.0
    ensures k > 0 ==> Row(k, w, yBottom, yTop)[k - 1].xRight == (k as real * w) / 2.0
    ensures forall b :: 0 <= b < k - 1 ==> Row(k, w, yBottom, yTop)[b].xRight == Row(k, w, yBottom, yTop)[b + 1].xLeft
  {
    var row := Row(k, w, yBottom, yTop);
    forall b | 0 <= b < k - 1
      ensures row[b].xRight == row[b + 1].xLeft
    {
      assert row[b] == BagRect(k, w, yBottom, yTop, b);
      assert row[b + 1] == BagRect(k, w, yBottom, yTop, b + 1);
    }
  }

  /** The centres of a row mirror about x = 0: bag b and bag k-1-b are reflections of each other. */
  lemma RowSymmetric(k: int, w: real, yBottom: real, yTop: real)
    ensures forall b :: 0 <= b < k ==> Centre(Row(k, w, yBottom, yTop)[b]) == -Centre(Row(k, w, yBottom, yTop)[k - 1 - b])
  {
  }

  /** Every course of the layout is such a centred row, at the course's height. */
  lemma CourseIsRow(height: real, bagHeight: real, wBase: real, wTop: real, bagWidth: real, i: int)
    requires Drawable(height, bagHeight, bagWidth)
    requires 0 <= i < |Layout(height, bagHeight, wBase, wTop, bagWidth)|
    ensures Layout(height, bagHeight, wBase, wTop, bagWidth)[i]
         == Row(BagsInLayer(height, bagHeight, wBase, wTop, bagWidth, i), bagWidth,
                LayerBottom(height, bagHeight, i), LayerTop(height, bagHeight, i))
  {
  }

  /** Every course of the layout spans exactly [-k*w/2, k*w/2] for its k bags, and adjacent bags touch. */
  lemma LayoutContiguous(height: real, bagHeight: real, wBase: real, wTop: real, bagWidth: real, i: int)
    requires Drawable(height, bagHeight, bagWidth)
    requires 0 <= i < |Layout(height, bagHeight, wBase, wTop, bagWidth)|
    ensures var course, k := Layout(height, bagHeight, wBase, wTop, bagWidth)[i], BagsInLayer(height, bagHeight, wBase, wTop, bagWidth, i);
      && (k > 0 ==> course[0].xLeft == -(k as real * bagWidth) / 2.0 && course[k - 1].xRight == (k as real * bagWidth) / 2.0)
      && forall b :: 0 <= b < k - 1 ==> course[b].xRight == course[b + 1].xLeft
  {
    CourseIsRow(height, bagHeight, wBase, wTop, bagWidth, i);
    RowContiguous(BagsInLayer(height, bagHeight, wBase, wTop, bagWidth, i), bagWidth,
                  LayerBottom(height, bagHeight, i), LayerTop(height, bagHeight, i));
  }

  /** Every course of the layout is centred on x = 0: its bags mirror pairwise about the axis. */
  lemma LayoutSymmetric(height: real, bagHeight: real, wBase: real, wTop: real, bagWidth: real, i: int)
    requires Drawable(height, bagHeight, bagWidth)
    requires 0 <= i < |Layout(height, bagHeight, wBase, wTop, bagWidth)|
    ensures var course := Layout(height, bagHeight, wBase, wTop, bagWidth)[i];
      forall b :: 0 <= b < |course| ==> Centre(course[b]) == -Centre(course[|course| - 1 - b])
  {
    CourseIsRow(height, bagHeight, wBase, wTop, bagWidth, i);
    RowSymmetric(BagsInLayer(height, bagHeight, wBase, wTop, bagWidth, i), bagWidth,
                 LayerBottom(height, bagHeight, i), LayerTop(height, bagHeight, i));
  }

  /** A wall 1 m high of 0.10 m courses on a 3 m base narrowing to 1 m, with 0.25 m bags: 11 bags at the bottom, 4 at the top. */
  lemma TrapezoidExample()
    ensures Drawable(1.0, 0.10, 0.25)
    ensures |Layout(1.0, 0.10, 3.0, 1.0, 0.25)| == 10
    ensures |Layout(1.0, 0.10, 3.0, 1.0, 0.25)[0]| == 11
    ensures |Layout(1.0, 0.10, 3.0, 1.0, 0.25)[9]| == 4
  {
    CeilUnique(1.0 / 0.10, 10);
    assert PackingWidth(1.0, 0.10, 3.0, 1.0, 0) == 2.9;
    FloorUnique(2.9 / 0.25, 11);
    assert PackingWidth(1.0, 0.10, 3.0, 1.0, 9) == 1.1;
    FloorUnique(1.1 / 0.25, 4);
  }
}
