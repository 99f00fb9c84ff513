/**
 The sandbag quantity estimator: how many layers a wall of a given height
 needs, how long the footprint of each wall shape is, how many bags fill one
 layer, and the total. Every quantity is rounded up, so the estimate never
 falls short of the wall it is for.
 */
module Estimator {
  import opened Rounding

  /** The exact value of the double-precision constant math.pi. */
  const Pi: real := 884279719003555.0 / 281474976710656.0

  /** Default bag length along the wall, and default layer thickness (m). */
  const DefaultBagLength: real := 0.35
  const DefaultBagHeight: real := 0.10

  /**
   The wall shapes. The shape reaches the estimator as a name; a name that is
   none of the four is accepted and treated as a plain length.
   */
  datatype Shape = Straight | Arc | Circle | Semicircle | Unrecognised

  datatype Estimate = Estimate(totalBags: int, layers: int)

  /** The name of a recognised shape, as the input form offers it. */
  function Name(shape: Shape): (name: string)
    requires !shape.Unrecognised?
  {
    match shape
    case Straight => "Straight"
    case Arc => "Arc"
    case Circle => "Circle"
    case Semicircle => "Semicircle"
  }

  predicate IsShapeName(name: string) {
    name == "Straight" || name == "Arc" || name == "Circle" || name == "Semicircle"
  }

  /** The if/elif chain on the shape name. */
  function ShapeOf(name: string): (shape: Shape)
    ensures shape.Unrecognised? <==> !IsShapeName(name)
    ensures !shape.Unrecognised? ==> Name(shape) == name
  {
    if name == "Straight" then Straight
    else if name == "Arc" then Arc
    else if name == "Circle" then Circle
    else if name == "Semicircle" then Semicircle
    else Unrecognised
  }

  /**
   The length of the wall's footprint. For Straight, Arc and unrecognised
   shapes the measurement is that length; for Circle and Semicircle it is the
   radius, and the footprint lies between that radius and the full
   circumference of a circle of that radius.
   */
  function EffectiveLength(shape: Shape, length: real): (r: real)
    ensures length >= 0.0 ==> length <= r <= 2.0 * Pi * length
    ensures length <= 0.0 ==> 2.0 * Pi * length <= r <= length
  {
    match shape
    case Straight => length
    case Arc => length
    case Circle => 2.0 * Pi * length
    case Semicircle => Pi * length
    case Unrecognised => length
  }

  /** Layers of bags needed to reach the wall height, rounded up. */
  function Layers(height: real, bagHeight: real): (layers: int)
    requires bagHeight != 0.0
    ensures (layers - 1) as real < height / bagHeight <= layers as real
  {
    Ceil(height / bagHeight)
  }

  /**
   calculate_bags: the total number of bags and the number of layers. The
   only demand the code makes is that the two divisions are defined.
   */
  function CalculateBags(height: real, length: real, shape: string, bagLength: real, bagHeight: real): (r: Estimate)
    requires bagLength != 0.0 && bagHeight != 0.0
    ensures (r.layers - 1) as real < height / bagHeight <= r.layers as real
    ensures r.totalBags == r.layers * Ceil(EffectiveLength(ShapeOf(shape), length) / bagLength)
  {
    var layers := Layers(height, bagHeight);
    var effectiveLength := EffectiveLength(ShapeOf(shape), length);
    var bagsPerLayer := Ceil(effectiveLength / bagLength);
    Estimate(layers * bagsPerLayer, layers)
  }

  /** Every recognised shape's name is read back as that shape. */
  lemma NameRoundTrip(shape: Shape)
    requires !shape.Unrecognised?
    ensures ShapeOf(Name(shape)) == shape
  {
  }

  /** The constant is math.pi to two decimal places. */
  lemma PiBounds()
    ensures Pi > 3.14 && Pi < 3.15
  {
  }

  /** Straight, Arc and any unrecognised name keep the measurement as the length. */
  lemma LinearShapesKeepLength(name: string, length: real)
    requires name == "Straight" || name == "Arc" || !IsShapeName(name)
    ensures EffectiveLength(ShapeOf(name), length) == length
  {
  }

  /** For one radius, a semicircle is exactly half a circle. */
  lemma SemicircleIsHalfCircle(radius: real)
    ensures 2.0 * EffectiveLength(Semicircle, radius) == EffectiveLength(Circle, radius)
  {
  }

  /** Circle and Semicircle lengths grow strictly with the radius. */
  lemma RoundLengthIncreasing(shape: Shape, r1: real, r2: real)
    requires shape.Circle? || shape.Semicircle?
    requires r1 < r2
    ensures EffectiveLength(shape, r1) < EffectiveLength(shape, r2)
  {
  }

  /** For every shape the footprint grows with the measurement. */
  lemma EffectiveLengthMonotone(shape: Shape, l1: real, l2: real)
    requires l1 <= l2
    ensures EffectiveLength(shape, l1) <= EffectiveLength(shape, l2)
  {
  }

  /** A positive measurement gives a positive footprint for every shape. */
  lemma EffectiveLengthPositive(shape: Shape, length: real)
    requires length > 0.0
    ensures EffectiveLength(shape, length) > 0.0
  {
  }

  /** With positive sizes the layers cover the height, with less than one layer to spare. */
  lemma LayersCoverHeight(height: real, bagHeight: real)
    requires height > 0.0 && bagHeight > 0.0
    ensures Layers(height, bagHeight) >= 1
    ensures (Layers(height, bagHeight) - 1) as real * bagHeight < height
    ensures height <= Layers(height, bagHeight) as real * bagHeight
  {
  }

  /** With a positive bag length the bags of one layer cover the footprint, with less than one bag to spare. */
  lemma BagsCoverLength(effectiveLength: real, bagLength: real)
    requires bagLength > 0.0
    ensures Ceil(effectiveLength / bagLength) as real * bagLength >= effectiveLength
    ensures effectiveLength > (Ceil(effectiveLength / bagLength) - 1) as real * bagLength
  {
    var k := Ceil(effectiveLength / bagLength);
    var q := effectiveLength / bagLength;
    assert q * bagLength == effectiveLength;
    assert (k - 1) as real < q <= k as real;
    MultiplyStrict((k - 1) as real, q, bagLength);
    MultiplyWeak(q, k as real, bagLength);
    assert (k - 1) as real * bagLength < effectiveLength;
  }

  /** With all inputs positive there is at least one layer and at least one bag per layer. */
  lemma TotalAtLeastLayers(height: real, length: real, shape: string, bagLength: real, bagHeight: real)
    requires height > 0.0 && length > 0.0 && bagLength > 0.0 && bagHeight > 0.0
    ensures CalculateBags(height, length, shape, bagLength, bagHeight).layers >= 1
    ensures CalculateBags(height, length, shape, bagLength, bagHeight).totalBags
         >= CalculateBags(height, length, shape, bagLength, bagHeight).layers
  {
  }

  /** For a fixed shape, height and bag size, a longer wall never needs fewer bags. */
  lemma TotalMonotoneInLength(height: real, l1: real, l2: real, shape: string, bagLength: real, bagHeight: real)
    requires height > 0.0 && bagLength > 0.0 && bagHeight > 0.0
    requires l1 <= l2
    ensures CalculateBags(height, l1, shape, bagLength, bagHeight).totalBags
         <= CalculateBags(height, l2, shape, bagLength, bagHeight).totalBags
  {
    var s := ShapeOf(shape);
    EffectiveLengthMonotone(s, l1, l2);
    var e1, e2 := EffectiveLength(s, l1), EffectiveLength(s, l2);
    assert e1 / bagLength <= e2 / bagLength;
    CeilMonotone(e1 / bagLength, e2 / bagLength);
    CeilOfPositive(height / bagHeight);
    MultiplyInts(Layers(height, bagHeight), Ceil(e1 / bagLength), Ceil(e2 / bagLength));
  }

  /** An unrecognised shape name is estimated exactly like a straight wall. */
  lemma UnrecognisedIsStraight(height: real, length: real, name: string, bagLength: real, bagHeight: real)
    requires bagLength != 0.0 && bagHeight != 0.0
    requires !IsShapeName(name)
    ensures CalculateBags(height, length, name, bagLength, bagHeight)
         == CalculateBags(height, length, "Straight", bagLength, bagHeight)
  {
  }

  /** A straight wall 10 m long and 1 m high, default bags: 29 bags in each of 10 layers. */
  lemma StraightExample()
    ensures CalculateBags(1.0, 10.0, "Straight", DefaultBagLength, DefaultBagHeight) == Estimate(290, 10)
  {
  }

  /** A circular wall of radius 5 m and 1 m high, default bags: 90 bags in each of 10 layers. */
  lemma CircleExample()
    ensures CalculateBags(1.0, 5.0, "Circle", DefaultBagLength, DefaultBagHeight) == Estimate(900, 10)
  {
  }
}
