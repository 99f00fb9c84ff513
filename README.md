# Sandbag wall calculator: verified model of the core

The repository is a small Streamlit app (`app.py`) that estimates how many
sandbags a flood wall needs and draws a schematic cross-section of the wall
with its bag courses. This project models its two computational routines in
Dafny and proves their properties:

- **Quantity estimator** (`calculate_bags`), module `Estimator` in
  `estimator.dfy`. The wall height is rounded up to whole layers of bag height.
  The wall shape turns the measurement into a footprint length: Straight, Arc
  and any unrecognised name keep it; Circle gives `2·π·r` and Semicircle `π·r`.
  The footprint is rounded up to whole bag lengths, and the total is layers ×
  bags per layer. The shape arrives as a name (`ShapeOf` is the if/elif chain);
  `Shape` is the tagged variant it maps to.
- **Cross-section layout engine** (the geometry of
  `plot_wall_cross_section_with_bags`), module `CrossSection` in
  `cross_section.dfy`. The height is cut into `ceil(height/bag_height)` courses
  of equal thickness. Each course's width is interpolated linearly between the
  base and top widths at its bottom and top, and the two are averaged. As many
  whole bags as fit in that average are laid side by side, centred on x = 0.
  `ComputeLayout` is the imperative nested loop of the source. It returns, course by
  course, the rectangles the source hands to the drawing backend. It is
  proved equal to `Layout`, a closed-form reference: course i spans
  `[i·t, (i+1)·t]`, its packing width is the profile's width at mid-height
  `(2i+1)/(2n)`, and bag b of k spans `[-k·w/2 + b·w, -k·w/2 + (b+1)·w]`.
- `rounding.dfy`, module `Rounding`: `math.floor` and `math.ceil` on exact reals,
  written as `x.Floor` and `-((-x).Floor)`, and a few arithmetic helpers.

Arithmetic is exact (`real`). `math.pi` is the constant `Estimator.Pi`, the
exact value of the double-precision `math.pi` (884279719003555 / 2^48). The
general lemmas use only that it exceeds 1, or that a semicircle is half a
circle. `PiBounds` states its value to two decimals, and the Circle worked
example computes with it.

Preconditions are what the code needs to run. `calculate_bags` only needs
non-zero divisors. For non-positive sizes it computes what Python computes,
which may be a zero or negative count. The layout (`Drawable`) needs a non-zero
bag height (line 78), a course count `ceil(height/bag_height)` that is not zero
(line 80 divides by it), and a non-zero bag width only when there is a course
to fill (line 101 runs inside the course loop). The code does not guarantee a
layer: a course count of zero raises at line 80, and a negative course or bag
count makes Python's `range` empty, which the model does too (`Max0`), giving
an empty layout or an empty course. The lemmas add positivity where a property
needs it.

## Model

| member | source | states |
|---|---|---|
| Rounding.Floor | app.py:101 | `math.floor`: the result is the integer r with r ≤ x < r + 1 |
| Rounding.Ceil | app.py:29 | `math.ceil`: the result is the integer r with r − 1 < x ≤ r |
| Rounding.Max0 | app.py:84 | the number of passes of `for _ in range(n)`: none when n ≤ 0, otherwise n |
| Estimator.ShapeOf | app.py:32-45 | a name is recognised exactly when it is one of Straight, Arc, Circle, Semicircle, and a recognised shape's name is the name given |
| Estimator.NameRoundTrip | app.py:32-43 | every recognised shape's name is read back as that shape |
| Estimator.PiBounds | app.py:40 | the constant used for π lies strictly between 3.14 and 3.15 |
| Estimator.EffectiveLength | app.py:31-45 | for a non-negative measurement the footprint is at least the measurement and at most the circumference 2π·r of a circle of that radius (reversed for a negative one) |
| Estimator.Layers | app.py:29 | the layer count is the least integer with layers ≥ height / bag_height (and more than height / bag_height − 1) |
| Estimator.CalculateBags | app.py:5-53 | the layer count rounds height / bag_height up, and the total is layers × the rounded-up bags per layer of the shape's footprint |
| Estimator.LinearShapesKeepLength | app.py:32-45 | Straight, Arc and any unrecognised name keep the measurement as the footprint length |
| Estimator.SemicircleIsHalfCircle | app.py:38-43 | for one radius, twice the Semicircle length is the Circle length |
| Estimator.RoundLengthIncreasing | app.py:38-43 | Circle and Semicircle lengths grow strictly with the radius |
| Estimator.EffectiveLengthMonotone | app.py:31-45 | for every shape, a larger measurement never gives a shorter footprint |
| Estimator.EffectiveLengthPositive | app.py:31-45 | a positive measurement gives a positive footprint for every shape |
| Estimator.LayersCoverHeight | app.py:28-29 | with positive height and bag height: layers ≥ 1 and (layers − 1)·bag_height < height ≤ layers·bag_height |
| Estimator.BagsCoverLength | app.py:47-48 | with a positive bag length, bags per layer = ceil(effective length / bag length) satisfies bags·bag_length ≥ effective length > (bags − 1)·bag_length |
| Estimator.TotalAtLeastLayers | app.py:47-53 | with all inputs positive there is at least one layer and total ≥ layers |
| Estimator.TotalMonotoneInLength | app.py:31-51 | for fixed shape, height and bag sizes, the total never decreases as the measurement grows |
| Estimator.UnrecognisedIsStraight | app.py:44-45 | an unrecognised shape name gives the same estimate as "Straight" |
| Estimator.StraightExample | app.py:5-53 | height 1, length 10, Straight, default bags: (290, 10) |
| Estimator.CircleExample | app.py:38-53 | height 1, radius 5, Circle, default bags: (900, 10) |
| CrossSection.Thickness | app.py:80 | the course thickness times the course count is exactly the height |
| CrossSection.BagsInLayer | app.py:101 | the bag count n of course i is the floor of its packing width over the bag width: n ≤ width / bag_width < n + 1 |
| CrossSection.BagRect | app.py:107-113 | a bag is one bag width wide, spans [y_bottom, y_top], and bag b of k has its centre at (2b + 1 − k)·w/2 |
| CrossSection.Row | app.py:109-113 | a row of k bags has max(0, k) rectangles, each one bag width wide |
| CrossSection.Layout | app.py:84-113 | the closed-form cross-section has one course per pass of the course loop, max(0, ceil(height/bag_height)), and course i has max(0, its bag count) rectangles |
| CrossSection.ComputeLayout | app.py:78-118 | the nested course and bag loops produce exactly the closed-form layout: every course, in order, with every bag rectangle of that course, left to right |
| CrossSection.AverageIsPackingWidth | app.py:89-98 | the fractions y_bottom/height and y_top/height are i/n and (i+1)/n, and the average of the two interpolated widths is the profile's width at the course's mid-height |
| CrossSection.SourceCourseArithmetic | app.py:86-98 | the loop body's course bounds, guarded fractions and averaged width are the closed-form bounds and packing width of course i |
| CrossSection.SourceBagRect | app.py:104-113 | the rectangle the inner loop builds from x_start for bag b is the closed-form bag b of the row |
| CrossSection.LayoutHasEveryCourse | app.py:78-84 | with positive height and bag height the layout has ceil(height/bag_height) ≥ 1 courses, course i holding max(0, its bag count) rectangles |
| CrossSection.CoursesTileHeight | app.py:78-87 | course 0 starts at y = 0, the last course ends at y = height, each course ends where the next begins, and each is one thickness thick |
| CrossSection.CoursesInsideWall | app.py:84-87 | with positive sizes every course satisfies 0 ≤ y_bottom < y_top ≤ height |
| CrossSection.ExactHeightKeepsBagHeight | app.py:78-80 | when the height is k whole bag heights there are k courses, each exactly one bag height thick |
| CrossSection.FractionsInUnitInterval | app.py:89-91 | for every course that exists, both interpolation fractions and the mid-height fraction lie in [0, 1] |
| CrossSection.WidthBetween | app.py:93-95 | at a fraction in [0, 1] the interpolated width lies between the base and top widths |
| CrossSection.BagsFitPackingWidth | app.py:97-101 | with a positive bag width: n·bag_width ≤ average width < (n + 1)·bag_width |
| CrossSection.BagCountNonNegative | app.py:93-101 | with non-negative base and top widths, no course has a negative bag count |
| CrossSection.BagCountNonIncreasing | app.py:93-101 | when the top is no wider than the base, a higher course never holds more bags than a lower one |
| CrossSection.RowBags | app.py:109-115 | a row of k bags has max(0, k) rectangles, each bag_width wide and spanning exactly [y_bottom, y_top] |
| CrossSection.RowContiguous | app.py:104-113 | the leftmost bag starts at −k·w/2, the rightmost ends at +k·w/2, and each bag's right edge is the next bag's left edge |
| CrossSection.RowSymmetric | app.py:106-113 | the centres of bag b and bag k−1−b are reflections of each other about x = 0 |
| CrossSection.CourseIsRow | app.py:104-118 | every course of the layout is the centred row of its bag count at that course's height, so the row lemmas apply to it |
| CrossSection.LayoutContiguous | app.py:104-113 | every course of the layout spans exactly [−k·w/2, k·w/2] for its k bags, and adjacent bags touch |
| CrossSection.LayoutSymmetric | app.py:104-113 | in every course of the layout, bag b and bag k−1−b mirror each other about x = 0 |
| CrossSection.TrapezoidExample | app.py:78-101 | height 1, bag height 0.10, base 3, top 1, bag width 0.25: 10 courses, 11 bags in the bottom one, 4 in the top one |

## Left out

- `main()` (app.py:132-216): the Streamlit input widgets, the button and the text output. The model's inputs are plain parameters. This includes the arc-length-from-angle conversion at app.py:156, which happens before the estimator is called.
- The matplotlib figure: creating it, the titles, labels, axis limits, aspect and grid (app.py:82, 120-130). Each bag is modelled as the rectangle whose corners the source passes to `ax.fill` (app.py:112-118), not as the five-point polygon lists. The drawing call itself is not modelled.
- CrossSection.ComputeLayout: the rectangles are grouped by course. The source issues one `ax.fill` per bag in the same order, which is the concatenation of the courses.
- IEEE-754 floating point. The model computes in exact reals. Python's float division, the products with `math.pi`, and the interpolation can round differently. Near an integer boundary that changes a ceiling or a floor, for example when `height / bag_height` should be 10 but is computed as 10.000000000000002.
- Estimator.CalculateBags: a zero bag height or bag length raises ZeroDivisionError in the source. The model excludes these inputs with a precondition and does not model the exception. The same holds for the layout's divisions (`Drawable`).
- The default argument values `bag_length=0.35`, `bag_height=0.10` are the named constants `DefaultBagLength` and `DefaultBagHeight`, which the worked examples pass explicitly.
- The `height != 0` guards at app.py:90-91 are kept as written in `ComputeLayout`. They never fire, because a zero height gives zero courses and line 80 already requires a non-zero course count.
