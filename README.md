# image-drawer-2d in Dafny

A model of the core of image-drawer-2d, a C++ library that draws shapes given in
world coordinates onto a raster image that grows on demand, together with the
older testcasedrawer (tcd) library it grew out of and that library's image
comparator.

The model has nine modules, one per file:

- `geometry.dfy` (`Geometry`): integer and real points, `ortho`, the
  `pointPosition` side test, `normalizeAngle`, `isInRangeAngle`, the
  `Tangens` quarter-then-tangent order, `Rect` (`minmax`, both `expand`s) and
  the implicit line `Linear` (`createFrom*`, `valueX`/`valueY`, `pointSide`,
  and `distance` stated as a squared comparison).
- `pixels.dfy` (`Pixels`): RGBA pixels of four bytes, pixel `==`/`!=`,
  brightness, the byte and pixel `difference`, the difference-mode blend,
  `std::stoul` in base 16 and `convertColor`.
- `images.dfy` (`Images`): the `Image` class over an `array2<Pixel>`
  (`empty`, `resize`, `fill`, `setPixel`, `setPixelColor`, `compare`,
  `equals`), plus the two double loops the painters use.
- `painting.dfy` (`Painting`): the imgdraw2d `Painter`, its composition
  mode and the destination and difference workers. Each primitive is specified
  by the exact pixel set it repaints.
- `canvas.dfy` (`Canvas`): the growable canvas (`Drawer2DBase` in
  `Drawer2D.cpp`, `ImageBox` in the header). It covers the world-to-pixel
  transform, `resize`, `resetImage` and `resizeImage`.
- `drawer.dfy` (`Drawer`): the imgdraw2d `Drawer2D` façade.
- `tcd_painting.dfy`, `tcd_drawer.dfy` (`TcdPainting`, `TcdDrawer`): the
  testcasedrawer painter and drawer.
- `comparator.dfy` (`Comparator`): the testcasedrawer `ImageComparator`. It
  builds the chessboard, the difference image and the threshold mask, and lays
  out the four panels.

Modelling conventions:

- C++ `double` is `real`, with rounding ignored. Casts to `int64_t`,
  `uint32_t` and `size_t` are `Trunc`, truncation toward zero.
- π is an abstract positive constant `PI`.
- `int64_t` and `uint32_t` values are `int`s. Callers are required to keep
  them in range, so the C++ code never wraps in the modelled calls.
- A thrown `std::runtime_error` becomes a `Failed(message)` status. The
  painter's image is then left unchanged, though the façade may already have
  grown the canvas before the painter threw.
- `RayI` and `rotateVector` are not in any of the modelled files. They become
  a `RayKernel` parameter that supplies `side` and `rotate`.
- Where a header and its `.cpp` disagree, the `.cpp` body is modelled.
- The façade's `drawArc` hands `-range` to the painter, whose wide-wedge rule
  tests `range > M_PI` on the value it receives. A façade arc of positive range
  above π therefore reaches the painter as a negative range and takes the
  narrow rule, and a façade range below -π takes the wide one. The model keeps
  this as written (`Drawer.Drawer2D.DrawArc` passes `-range`, and
  `Painting.ModeWorker.DrawArc` tests `range > PI`).
- Where a doc comment and the code disagree, the code is followed:
  - `normalizeAngle` returns exactly 2π for negative whole turns, although its
    comment promises [0, 2π);
  - `convertColor` takes red, green and blue all from the first byte pair of
    a `#RRGGBB` code.

## Model

| member | source | states |
|---|---|---|
| Geometry.Trunc | src/imgdraw2d/src/Drawer2D.cpp:50 | the integer cast of a double truncates toward zero: the result is within one of the value, on the side of zero |
| Geometry.TruncDivExact | src/imgdraw2d/include/imgdraw2d/Geometry.h:386-397 | the truncated quotient in valueY/valueX is exact when the divisor divides the numerator |
| Geometry.TruncDivNegateBoth | src/imgdraw2d/include/imgdraw2d/Geometry.h:386-397 | negating numerator and divisor leaves the truncated quotient unchanged |
| Geometry.PointI.Neg | src/testcasedrawer/include/Geometry.h:37-39 | unary minus negates both coordinates |
| Geometry.OrthoProperties | src/testcasedrawer/include/Geometry.h:47-49 | ortho() is perpendicular to the vector, has the same squared length, and applied twice gives the negated vector |
| Geometry.MinusPlusCancel | src/testcasedrawer/include/Geometry.h:40-45 | (p - q) + q == p |
| Geometry.PointPosition | src/imgdraw2d/include/imgdraw2d/Geometry.h:104-126 | pointPosition is positive exactly when the cross product base × p is positive and negative exactly when it is negative; it is 0 for a zero base |
| Geometry.SideSignY | src/imgdraw2d/include/imgdraw2d/Geometry.h:110-116 | for base.x ≠ 0, the sign of p.y - linearY(base, p.x) is the sign of the cross product, flipped when base.x < 0 |
| Geometry.SideSignX | src/imgdraw2d/include/imgdraw2d/Geometry.h:117-123 | for base.y ≠ 0, the sign of p.x - linearX(base, p.y) is minus the sign of the cross product, flipped when base.y < 0 |
| Geometry.NormalizeAngleRange | src/imgdraw2d/include/imgdraw2d/Geometry.h:128-134 | normalizeAngle removes a whole number of turns and lands in [0, 2π]; it reaches 2π exactly for negative whole turns |
| Geometry.NormalizeAngleExamples | src/imgdraw2d/tests/Geometry_test.cpp:35-43 | 15π/2 normalises to 3π/2, -6π - π/2 to 3π/2, and -2π to 2π |
| Geometry.IsInRangeAngleSwapped | src/imgdraw2d/include/imgdraw2d/Geometry.h:153-167 | with from < to the range is the closed interval; with the bounds swapped it is exactly the complement |
| Geometry.IsInRangeAngleExamples | src/imgdraw2d/tests/Geometry_test.cpp:64-100 | π/8 lies outside [π/4, 7π/4] and inside the wrapped range (7π/4, π/4); π/2 lies inside the former; 3π/2 lies outside the latter |
| Geometry.Tangens.Quarter | src/imgdraw2d/include/imgdraw2d/Geometry.h:212-226 | quarter() is in 1..4; posX selects quarters 1 and 4, and a negative value selects quarters 2 and 4 |
| Geometry.TangensOrder | src/imgdraw2d/include/imgdraw2d/Geometry.h:178-210 | <, >, <= and >= are the lexicographic order on (quarter, value): a < b iff b > a, and a <= b iff not a > b |
| Geometry.TangensLessTransitive | src/imgdraw2d/include/imgdraw2d/Geometry.h:195-202 | Tangens < is transitive |
| Geometry.TangensIsInRange | src/imgdraw2d/include/imgdraw2d/Geometry.h:228-242 | isInRange is the closed interval [min, max] when max >= min, and "above min or below max" otherwise |
| Geometry.RectI.Expanded | src/imgdraw2d/include/imgdraw2d/Geometry.h:297-301 | expand(radius) moves the top-left corner by (-radius, -radius) and the bottom-right by (+radius, +radius), so width and height grow by 2 * radius; a non-negative radius gives a box that contains the original |
| Geometry.MinMaxI | src/testcasedrawer/include/Geometry.h:69-80 | minmax gives an ordered box that contains both points, with every edge taken from one of them |
| Geometry.MinMaxISymmetric | src/testcasedrawer/include/Geometry.h:69-80 | minmax(p1, p2) == minmax(p2, p1), and minmax(p, p) is the degenerate box at p |
| Geometry.RectD.Expanded | src/imgdraw2d/include/imgdraw2d/Geometry.h:297-301 | expand(radius) on the world box moves a by (-radius, -radius) and b by (+radius, +radius), so width and height grow by 2 * radius; with a non-negative radius the result encloses the original and stays ordered |
| Geometry.ExpandedAdditive | src/imgdraw2d/include/imgdraw2d/Geometry.h:297-301 | expanding by r1 and then by r2 is expanding by r1 + r2, and expanding by 0 changes nothing |
| Geometry.MinMaxD | src/imgdraw2d/include/imgdraw2d/Geometry.h:324-340 | the world minmax is ordered, contains both points, and takes every edge from one of them |
| Geometry.UnionEncloses | src/imgdraw2d/include/imgdraw2d/Geometry.h:303-322 | the union encloses both boxes; it equals the first box iff that box already encloses the second; it keeps boxes ordered; it is idempotent |
| Geometry.Expand | src/imgdraw2d/include/imgdraw2d/Geometry.h:303-322 | expand(box) yields the union; the result is true iff some edge moved, iff the box was not already enclosed, so a repeated call reports false |
| Geometry.CreateFromPointsThrough | src/imgdraw2d/include/imgdraw2d/Geometry.h:380-384 | both defining points satisfy A·x + B·y + C = 0; the line is degenerate (A = B = 0) iff the points coincide |
| Geometry.CreateFromParallelValue | src/imgdraw2d/include/imgdraw2d/Geometry.h:372-375 | the coefficients of createFromParallel(start, sense) |
| Geometry.CreateFromOrthogonalValue | src/imgdraw2d/include/imgdraw2d/Geometry.h:362-366 | the coefficients of createFromOrthogonal(start, ortho): the normal is ortho |
| Geometry.CreateFromPointsOnLine | src/imgdraw2d/include/imgdraw2d/Geometry.h:399-416 | pointSide is 0 at both defining points, and their distance is below any positive radius |
| Geometry.OnLineSideZero | src/imgdraw2d/include/imgdraw2d/Geometry.h:399-411 | a point on a non-degenerate line has pointSide 0 |
| Geometry.PointSideNegated | src/imgdraw2d/include/imgdraw2d/Geometry.h:386-411 | negating all coefficients leaves pointSide unchanged |
| Geometry.PointSideIndependentOfDirection | src/imgdraw2d/include/imgdraw2d/Geometry.h:372-411 | the line along -sense is the negated line along sense, so pointSide does not depend on the direction |
| Geometry.DiagonalLines | src/imgdraw2d/tests/Geometry_test.cpp:155-165 | the diagonal through (5, 5) built in either direction |
| Geometry.HorizontalLine | src/imgdraw2d/tests/Geometry_test.cpp:167-171 | the horizontal line through (5, 5) is y - 5 = 0 |
| Geometry.OrthogonalLineOX | src/imgdraw2d/tests/Geometry_test.cpp:110-113 | createFromOrthogonal((0, 5), (0, 1)) is y - 5 = 0 |
| Geometry.OrthogonalLineOY | src/imgdraw2d/tests/Geometry_test.cpp:120-123 | createFromOrthogonal((5, 0), (1, 0)) is x - 5 = 0 |
| Geometry.PointSideExamples | src/imgdraw2d/tests/Geometry_test.cpp:155-165 | on the diagonal in both directions, pointSide(5, 10) is 5 and pointSide(5, -10) is -15 |
| Geometry.ValueExamples | src/imgdraw2d/tests/Geometry_test.cpp:110-133 | valueY(10) of y - 5 = 0 is 5, and valueX(10) of x - 5 = 0 is 5 |
| Geometry.DistanceExamples | src/imgdraw2d/tests/Geometry_test.cpp:167-171 | the distance from y - 5 = 0 is 5 at (5, 10) and 15 at (5, -10), stated as comparisons with radii |
| Pixels.PixelEquals | src/imgdraw2d/include/imgdraw2d/Image.h:122-132 | pixel == holds iff all four channels agree |
| Pixels.PixelNotEquals | src/imgdraw2d/include/imgdraw2d/Image.h:134-144 | pixel != is exactly the negation of == |
| Pixels.AlphaOnlyDifference | src/imgdraw2d/include/imgdraw2d/Image.h:122-132 | pixels that differ only in alpha have the same RGB but are not == |
| Pixels.Brightness | src/imgdraw2d/src/Painter.cpp:32-34 | brightness, r + g + b, is at most 765 |
| Pixels.BrightnessZero | src/imgdraw2d/src/Painter.cpp:32-34 | brightness is 0 iff red, green and blue are all 0 |
| Pixels.StoreByte | src/imgdraw2d/src/Painter.cpp:41 | storing a value below 512 into a byte keeps it modulo 256 |
| Pixels.ByteDifference | src/imgdraw2d/src/Painter.cpp:36-45 | the byte difference, with its 256 - diff wrap, always equals abs(a - b); the testcasedrawer copy at src/testcasedrawer/src/Painter.cpp:33-42 is the same |
| Pixels.PixelDifference | src/imgdraw2d/src/Painter.cpp:47-53 | each colour channel is abs(a - b) and alpha is taken from the first pixel |
| Pixels.DifferenceBlend | src/imgdraw2d/src/Painter.cpp:391-402 | the difference-mode pixel has abs(orig - src) per channel; alpha comes from orig when orig is strictly brighter, else from src |
| Pixels.DifferenceOverBlack | src/testcasedrawer/src/Painter.cpp:94-104 | blending any source over a pixel with zero RGB gives the source pixel exactly |
| Pixels.DifferenceUnderBlack | src/imgdraw2d/src/Painter.cpp:391-402 | blending a zero-RGB source keeps the destination's RGB |
| Pixels.DifferenceSymmetric | src/imgdraw2d/src/Painter.cpp:391-402 | the blend's RGB does not depend on the order of the operands, and blending a pixel with itself gives brightness 0 |
| Pixels.StoulHex | src/imgdraw2d/src/Image.cpp:137 | a value std::stoul accepts fits in unsigned long |
| Pixels.StoulHexDigits | src/imgdraw2d/src/Image.cpp:137 | stoul in base 16 of six hexadecimal digits succeeds with their value |
| Pixels.ConvertColorNames | src/imgdraw2d/src/Image.cpp:144-161 | the six colour names map to their RGBA values |
| Pixels.ConvertColorUnknownName | src/imgdraw2d/src/Image.cpp:144-163 | without a leading '#', exactly the six names convert and everything else throws |
| Pixels.ConvertColorBadLength | src/imgdraw2d/src/Image.cpp:132-136 | a '#' code whose length after the '#' is not 6 throws "unknown color format: " + color |
| Pixels.ConvertColorHexCode | src/imgdraw2d/src/Image.cpp:137-141 | a six-character code that stoul accepts gives (value >> 16) & 0xff in all three channels, with alpha 255 |
| Pixels.ConvertColorHexGrey | src/imgdraw2d/src/Image.cpp:137-141 | for six hexadecimal digits, all three channels take the value of the RR pair |
| Pixels.ConvertColorGrey666 | src/testcasedrawer/src/ImageComparator.cpp:40 | "#666666" converts to (0x66, 0x66, 0x66, 255) |
| Pixels.ConvertColorGreenCode | src/imgdraw2d/src/Image.cpp:138-140 | "#00ff00" converts to opaque black, because green and blue also read the RR pair |
| Images.Image.constructor | src/imgdraw2d/src/Image.cpp:33-36 | the default image (empty path) is 0 x 0 |
| Images.Image.Sized | src/imgdraw2d/src/Image.cpp:38-39 | Image(width, height) has that size |
| Images.Image.IsEmpty | src/imgdraw2d/src/Image.cpp:47-53 | empty() iff width and height are both 0 |
| Images.Image.Resize | src/imgdraw2d/src/Image.cpp:127-129 | resize gives the image the new size |
| Images.Image.MapRegion | src/imgdraw2d/src/Painter.cpp:299-303 | the double loop over [x0, x1) x [y0, y1): the selected pixels get f of their old value and all others are unchanged |
| Images.Image.ComposeImage | src/imgdraw2d/src/Painter.cpp:338-349 | the clipped double loop over a source placed at (x, y): covered pixels become f(old, source pixel) and all others are unchanged |
| Images.Image.Fill | src/imgdraw2d/include/imgdraw2d/Image.h:95 | fill(Pixel) sets every pixel to the colour |
| Images.Image.FillColor | src/imgdraw2d/src/Image.cpp:82-91 | fill(string) sets every pixel to convertColor(color); an unknown colour throws and leaves the pixels unchanged |
| Images.Image.FillTransparent | src/imgdraw2d/src/Image.cpp:93-95 | every pixel becomes (0, 0, 0, 0) |
| Images.Image.SetPixel | src/imgdraw2d/src/Image.cpp:97-99 | exactly pixel (x, y) takes the colour |
| Images.Image.SetPixelColor | src/imgdraw2d/src/Image.cpp:101-104 | exactly pixel (x, y) takes the converted colour; an unknown colour throws and changes nothing |
| Images.Image.Compare | src/imgdraw2d/src/Image.cpp:167-190 | true iff the sizes match and every pixel agrees in red, green and blue |
| Images.Image.Equals | src/imgdraw2d/src/Image.cpp:41-45 | equals, and so operator==, is true iff the images agree in size and in RGB, and always true for the same instance |
| Images.RGBEqualReflexive | src/imgdraw2d/src/Image.cpp:41-45 | every image equals itself, so the same-instance shortcut agrees with compare |
| Images.EmptyImagesEqual | src/imgdraw2d/tests/Image_test.cpp:39-43 | two empty images are equal |
| Images.AlphaIgnored | src/imgdraw2d/src/Image.cpp:176-187 | images of equal size that differ only in alpha are equal |
| Images.RedDiffersFromBlue | src/imgdraw2d/tests/Image_test.cpp:97-107 | a non-empty red image differs from a blue one |
| Images.FillRedExample | src/imgdraw2d/tests/Image_test.cpp:70-81 | after fill("red") on a 10 x 10 image, pixel (1, 1) is (255, 0, 0, 255) |
| Painting.Udiff | src/imgdraw2d/src/Painter.cpp:55-59 | udiff is value - subtractor, clamped below at 0 |
| Painting.GetBBox | src/imgdraw2d/src/Painter.cpp:166-174 | getBBox lies inside the image and, within the image, holds exactly the pixels of the square centre ± radius |
| Painting.DiskInBox | src/imgdraw2d/src/Painter.cpp:313-324 | every in-image pixel of the open disk lies in fillCircle's scan box |
| Painting.RingInBox | src/imgdraw2d/src/Painter.cpp:265-281 | every in-image pixel of the ring lies in drawRing's scan box |
| Painting.ModeWorker.constructor | src/imgdraw2d/src/Painter.cpp:125-126 | a worker draws on the given image in its own mode |
| Painting.ModeWorker.SetImage | src/imgdraw2d/include/imgdraw2d/Painter.h:64-66 | setImage rebinds the worker to the image |
| Painting.ModeWorker.DrawImage | src/imgdraw2d/src/Painter.cpp:335-350 | drawImage in either mode: pixels covered by the source at the point are composed with it (copied, or blended in difference mode) and all others are unchanged |
| Painting.ModeWorker.FillRect | src/imgdraw2d/src/Painter.cpp:290-304 | fillRect(Pixel) composes exactly [x, min(W, x + w)) x [y, min(H, y + h)) with the colour; the difference worker at src/imgdraw2d/src/Painter.cpp:367-381 blends it |
| Painting.ModeWorker.FillCircle | src/imgdraw2d/src/Painter.cpp:306-325 | destination: exactly the in-image pixels with d² < r² take the converted colour; difference mode throws "fillCircle not implemented" and changes nothing |
| Painting.ModeWorker.DrawRing | src/imgdraw2d/src/Painter.cpp:254-283 | destination: exactly the in-image pixels with udiff(r, w/2)² <= d² <= (r + w/2)² take the colour; difference mode throws and changes nothing |
| Painting.ModeWorker.DrawArc | src/imgdraw2d/src/Painter.cpp:176-252 | destination: for abs(range) >= 2π the ring is drawn (reported as drawRing), otherwise exactly the ring pixels that pass the wedge test; difference mode throws and changes nothing |
| Painting.ModeWorker.PaintWedge | src/imgdraw2d/src/Painter.cpp:197-248 | the arc loop repaints exactly the ring pixels in the wedge between the normalised bounds |
| Painting.ModeWorker.DrawLine | src/imgdraw2d/src/Painter.cpp:132-164 | destination: exactly the pixels of the expanded minmax box that pass both side tests and lie closer than w/2 to the line take the colour; difference mode throws and changes nothing |
| Painting.Painter.constructor | src/imgdraw2d/src/Painter.cpp:410-416 | a new painter is in destination mode with a fresh destination worker on the same image |
| Painting.Painter.SetCompositionMode | src/imgdraw2d/src/Painter.cpp:418-430 | the mode is set and a fresh worker for that mode is installed on the painter's image |
| Painting.Painter.SetImage | src/imgdraw2d/include/imgdraw2d/Painter.h:119-122 | setImage rebinds both the painter and its worker, so they keep drawing on the same image |
| Painting.Painter.DrawImage | src/imgdraw2d/include/imgdraw2d/Painter.h:137-139 | drawImage has the effect of the current mode's worker |
| Painting.Painter.DrawLine | src/imgdraw2d/include/imgdraw2d/Painter.h:141-143 | drawLine has the effect of the current mode's worker |
| Painting.Painter.DrawArc | src/imgdraw2d/include/imgdraw2d/Painter.h:145-147 | drawArc has the effect of the current mode's worker |
| Painting.Painter.FillRect | src/imgdraw2d/include/imgdraw2d/Painter.h:149-151 | fillRect has the effect of the current mode's worker |
| Painting.Painter.FillCircle | src/imgdraw2d/include/imgdraw2d/Painter.h:153-155 | fillCircle has the effect of the current mode's worker |
| Painting.Painter.DrawImageAt | src/imgdraw2d/include/imgdraw2d/Painter.h:77-79 | the (x, y) overload of drawImage equals drawImage at PointI(x, y) |
| Painting.Painter.DrawLineAt | src/imgdraw2d/include/imgdraw2d/Painter.h:81-83 | the coordinate overload of drawLine equals drawLine between the two PointIs |
| Painting.Painter.FillCircleAt | src/imgdraw2d/include/imgdraw2d/Painter.h:89-91 | the (x, y) overload of fillCircle equals fillCircle at PointI(x, y) |
| Painting.ZeroRadiusCircleEmpty | src/imgdraw2d/src/Painter.cpp:309-324 | fillCircle with radius 0 paints nothing |
| Painting.ThickRingIsDisk | src/imgdraw2d/src/Painter.cpp:260-278 | when w/2 >= r the ring is the closed disk of radius r + w/2 |
| Painting.ArcWithinRing | src/imgdraw2d/src/Painter.cpp:176-180 | every arc pixel is a ring pixel, and for abs(range) >= 2π the arc is the ring |
| Painting.NarrowWedgeOpen | src/imgdraw2d/src/Painter.cpp:227-235 | under the narrow rule, pixels on either boundary ray are excluded |
| Painting.WideWedgeContainsNarrow | src/imgdraw2d/src/Painter.cpp:219-236 | the wide wedge contains the narrow one and both boundary rays |
| Painting.ArcBoundsOrder | src/imgdraw2d/src/Painter.cpp:187-195 | the bounds are normalize(start) and normalize(start + range), swapped when range <= 0, and both lie in [0, 2π] |
| Painting.ThinLineEmpty | src/imgdraw2d/src/Painter.cpp:139-160 | a line of width at most 1 between distinct points paints nothing |
| Painting.LinePixelInBox | src/imgdraw2d/src/Painter.cpp:139-146 | every line pixel lies in minmax(from, to) expanded by w/2 |
| Canvas.TransformCorner | src/imgdraw2d/src/Drawer2D.cpp:44-52 | world (a.x - 0.5, b.y + 0.5) maps to pixel (0, 0) |
| Canvas.TransformMonotone | src/imgdraw2d/src/Drawer2D.cpp:44-52 | a larger world x never gives a smaller pixel x, and a larger world y never gives a larger pixel y (the y flip) |
| Canvas.PasteOffsetIsTransform | src/imgdraw2d/src/Drawer2D.cpp:71-74 | the paste point (old a.x - 0.5, old b.y + 0.5) maps to (trunc(scale·(old.a.x - new.a.x)), trunc(scale·(new.b.y - old.b.y))) |
| Canvas.PasteFitsX | src/imgdraw2d/src/Drawer2D.cpp:62-75 | after growth the paste offset's x is non-negative and the old image's width fits inside the new one |
| Canvas.PasteFitsY | src/imgdraw2d/src/Drawer2D.cpp:62-75 | the same on the flipped y axis |
| Canvas.ImageBox.constructor | src/imgdraw2d/src/Drawer2D.cpp:32-37 | the canvas starts with an empty image, the box ((0, 0), (0, 0)), a transparent background and a destination painter on the image |
| Canvas.ImageBox.Sized | src/imgdraw2d/src/Drawer2D.cpp:39-42 | the sized constructor sets the background, adopts the box, sizes the image for it and fills it with the background |
| Canvas.ImageBox.SetBackground | src/imgdraw2d/include/imgdraw2d/Drawer2D.h:67-69 | only the background changes |
| Canvas.ImageBox.SetBackgroundColor | src/imgdraw2d/include/imgdraw2d/Drawer2D.h:63-65 | the background becomes the converted colour; an unknown colour throws and changes nothing |
| Canvas.ImageBox.ResizeImage | src/imgdraw2d/src/Drawer2D.cpp:83-89 | the image becomes trunc(scale·(1 + width)) x trunc(scale·(1 + height)) of the box |
| Canvas.ImageBox.ResetImage | src/imgdraw2d/src/Drawer2D.cpp:78-81 | a fresh empty image, with the painter and its worker rebound to it |
| Canvas.ImageBox.Grow | src/imgdraw2d/src/Drawer2D.cpp:64-75 | on growth the new image holds the old pixels at the paste offset and the background everywhere else; the painter targets the new image |
| Canvas.ImageBox.Paste | src/imgdraw2d/src/Drawer2D.cpp:69-74 | drawImage of the old image onto the background-filled new one: the old pixels at the offset, the background elsewhere |
| Canvas.ImageBox.Resize | src/imgdraw2d/src/Drawer2D.cpp:54-76 | on an empty image the box is adopted and the image sized and filled; otherwise the box becomes the union, the image is replaced iff the box grew, and an unchanged box leaves image and pixels untouched; in every case each pixel is its backdrop, the old pixel at the paste offset or else the background |
| Canvas.GrownLayout | src/imgdraw2d/src/Drawer2D.cpp:68-74 | after growth each pixel is the old image's pixel at the offset or else the background |
| Drawer.ScaledLength | src/imgdraw2d/include/imgdraw2d/Drawer2D.h:130 | the uint32_t of a non-negative length times the scale is its truncation and fits in 32 bits |
| Drawer.LineFits | src/imgdraw2d/include/imgdraw2d/Drawer2D.h:125-131 | once the canvas encloses the line's world box, with scale at least 2, the painter's scan box lies inside the image |
| Drawer.PointInImage | src/imgdraw2d/src/Drawer2D.cpp:44-52 | a world point inside the box maps to a pixel inside the image sized for it, when the scale is at least 2 |
| Drawer.Drawer2D.constructor | src/imgdraw2d/include/imgdraw2d/Drawer2D.h:96-97 | an empty canvas with a destination painter on its image |
| Drawer.Drawer2D.Sized | src/imgdraw2d/include/imgdraw2d/Drawer2D.h:99-102 | a canvas sized for the box and filled with the background, with a destination painter on its image |
| Drawer.Drawer2D.SetBackground | src/imgdraw2d/include/imgdraw2d/Drawer2D.h:116-118 | only the background changes |
| Drawer.Drawer2D.SetBackgroundColor | src/imgdraw2d/include/imgdraw2d/Drawer2D.h:112-114 | the background becomes the converted colour; an unknown colour throws and changes nothing |
| Drawer.Drawer2D.Fit | src/imgdraw2d/include/imgdraw2d/Drawer2D.h:171-196 | the expand helpers: the canvas becomes the box on an empty image and the union otherwise, sized for it; the painter targets the current image; mode and background are kept; an enclosed box changes nothing; every pixel is its backdrop, the old pixel at the paste offset or else the background |
| Drawer.Drawer2D.DrawImage | src/imgdraw2d/include/imgdraw2d/Drawer2D.h:120-123 | drawImage transforms the top-left point and draws there in the painter's mode, without growing the canvas |
| Drawer.Drawer2D.DrawLine | src/imgdraw2d/include/imgdraw2d/Drawer2D.h:125-132 | the box becomes minmax(from, to) expanded by width/2 (on an empty canvas) or its union with the old box; the transformed line of width trunc(width·scale) is painted in the converted colour over the backdrop and every other pixel is its backdrop; on a throw the whole image is the backdrop; on an enclosing canvas exactly the line's pixels change |
| Drawer.Drawer2D.StrokeLine | src/imgdraw2d/include/imgdraw2d/Drawer2D.h:128-131 | on a canvas that already encloses the line: exactly the transformed line's pixels change |
| Drawer.Drawer2D.DrawArc | src/imgdraw2d/include/imgdraw2d/Drawer2D.h:134-142 | the box becomes centre ± (radius + width/2) or its union with the old box; the painter gets -normalize(start) and -range with radius and width scaled; the arc's pixels take the colour over the backdrop and every other pixel is its backdrop; on a throw the whole image is the backdrop |
| Drawer.Drawer2D.StrokeArc | src/imgdraw2d/include/imgdraw2d/Drawer2D.h:137-141 | on an enclosing canvas: exactly the mirrored arc's pixels change |
| Drawer.Drawer2D.FillCircle | src/imgdraw2d/include/imgdraw2d/Drawer2D.h:160-166 | the box becomes centre ± radius or its union with the old box; the transformed disk of radius trunc(radius·scale) takes the colour over the backdrop and every other pixel is its backdrop; on a throw the whole image is the backdrop |
| Drawer.Drawer2D.StrokeCircle | src/imgdraw2d/include/imgdraw2d/Drawer2D.h:163-165 | on an enclosing canvas: exactly the transformed disk changes |
| Drawer.Drawer2D.FillRect | src/imgdraw2d/include/imgdraw2d/Drawer2D.h:149-158 | the box becomes minmax(bl, bl + (w, h)) or its union with the old box; inside the rectangle anchored at the transformed (bl.x, bl.y + h), of size trunc(w·scale) x trunc(h·scale), each pixel is the colour composed over its backdrop in the painter's mode, and every other pixel is its backdrop |
| Drawer.Drawer2D.PaintRect | src/imgdraw2d/include/imgdraw2d/Drawer2D.h:153-157 | on an enclosing canvas: exactly that rectangle is composed with the colour |
| Drawer.Drawer2D.FillRectColor | src/imgdraw2d/include/imgdraw2d/Drawer2D.h:144-147 | fillRect(string) converts once and then behaves as fillRect(Pixel), with the same box and the rectangle composed over the backdrop; an unknown colour throws before the canvas is touched |
| TcdPainting.TcdWorker.constructor | src/testcasedrawer/src/Painter.cpp:59-60 | a worker draws on the given image in its own mode |
| TcdPainting.TcdWorker.DrawImage | src/testcasedrawer/src/Painter.cpp:62-107 | over [x, min(W, x + sw)) x [y, min(H, y + sh)), the destination worker copies the source and the difference worker blends it; other pixels are unchanged |
| TcdPainting.TcdWorker.FillRect | src/testcasedrawer/src/Painter.cpp:75-77 | the workers' fillRect changes nothing |
| TcdPainting.TcdPainter.constructor | src/testcasedrawer/src/Painter.cpp:119-125 | a new painter is in destination mode with a destination worker on its image |
| TcdPainting.TcdPainter.SetCompositionMode | src/testcasedrawer/src/Painter.cpp:127-139 | the mode is set and a fresh worker for it is installed on the painter's image |
| TcdPainting.TcdPainter.SetImage | src/testcasedrawer/src/Drawer2D.cpp:105-108 | the call resetImage makes: painter and worker are both rebound to the image |
| TcdPainting.TcdPainter.DrawImage | src/testcasedrawer/src/Painter.cpp:141-143 | drawImage has the effect of the current mode's worker |
| TcdPainting.TcdPainter.FillRect | src/testcasedrawer/src/Painter.cpp:145-156 | in every mode, exactly [x, min(W, x + w)) x [y, min(H, y + h)) takes the converted colour; an unknown colour throws and changes nothing |
| TcdDrawer.TcdDrawer2D.constructor | src/testcasedrawer/src/Drawer2D.cpp:32-33 | an empty image, the box ((0, 0), (0, 0)) and a destination painter on the image |
| TcdDrawer.TcdDrawer2D.Sized | src/testcasedrawer/src/Drawer2D.cpp:35-37 | the sized constructor adopts the box and sizes the image for it |
| TcdDrawer.TcdDrawer2D.ResizeImage | src/testcasedrawer/src/Drawer2D.cpp:110-116 | the image becomes trunc(scale·(1 + width)) x trunc(scale·(1 + height)) of the box |
| TcdDrawer.TcdDrawer2D.ResetImage | src/testcasedrawer/src/Drawer2D.cpp:105-108 | a fresh empty image, with the painter rebound to it |
| TcdDrawer.TcdDrawer2D.Resize | src/testcasedrawer/src/Drawer2D.cpp:84-103 | the first box is adopted with no fill; later the box becomes the union; an enclosed box leaves image and pixels untouched; on growth the old pixels sit at the transformed paste point; every old pixel keeps its value at the paste offset |
| TcdDrawer.TcdDrawer2D.Enlarge | src/testcasedrawer/src/Drawer2D.cpp:91-102 | on a non-empty image the box becomes the union; an enclosed box leaves the image untouched, a growing box gives a fresh image holding the old one at the paste offset |
| TcdDrawer.TcdDrawer2D.Refit | src/testcasedrawer/src/Drawer2D.cpp:84-103 | the resize fillRect makes: the new box encloses the rectangle, an enclosed box leaves the pixels untouched, and every old pixel keeps its value at the paste offset |
| TcdDrawer.TcdDrawer2D.Grow | src/testcasedrawer/src/Drawer2D.cpp:93-102 | on growth the new image holds the old pixels at the paste offset |
| TcdDrawer.TcdDrawer2D.Paste | src/testcasedrawer/src/Drawer2D.cpp:99-101 | the old image is copied in at the offset |
| TcdDrawer.TcdDrawer2D.DrawImage | src/testcasedrawer/src/Drawer2D.cpp:39-42 | the image is copied at the transformed top-left point |
| TcdDrawer.TcdDrawer2D.DrawLine | src/testcasedrawer/src/Drawer2D.cpp:44-52 | the canvas grows to minmax(from, to) expanded by the radius, and every old pixel keeps its value at the paste offset; the request carries both transformed end points and trunc(radius·scale); with scale at least 2 the end points are inside the image |
| TcdDrawer.TcdDrawer2D.FillCircle | src/testcasedrawer/src/Drawer2D.cpp:65-72 | the canvas grows to centre ± radius, and every old pixel keeps its value at the paste offset; the request carries the transformed centre and trunc(radius·scale) |
| TcdDrawer.TcdDrawer2D.FillRect | src/testcasedrawer/src/Drawer2D.cpp:54-63 | the canvas grows to minmax(bl, bl + (w, h)); the rectangle at the transformed (bl.x, bl.y + h), of size trunc(w·scale) x trunc(h·scale), takes the colour and every old pixel outside it keeps its value at the paste offset; an unknown colour throws after the resize, and then every old pixel keeps its value; on an enclosing canvas only the rectangle changes |
| Comparator.GridSize | src/testcasedrawer/src/ImageComparator.cpp:42-43 | the cell side is 10 iff both sides are at least 30, and 2 otherwise |
| Comparator.GenerateChessboard | src/testcasedrawer/src/ImageComparator.cpp:37-59 | every pixel is white when its column cell and row cell have equal parity, and "#666666" grey otherwise |
| Comparator.FillGrey | src/testcasedrawer/src/ImageComparator.cpp:40 | the board starts all "#666666" |
| Comparator.PaintColumn | src/testcasedrawer/src/ImageComparator.cpp:48-56 | one pass of the inner loop finishes the chessboard colours of column wo |
| Comparator.PaintCell | src/testcasedrawer/src/ImageComparator.cpp:49-52 | one cell is painted white when its parities match and left grey otherwise |
| Comparator.ThresholdByBrightness | src/testcasedrawer/src/ImageComparator.cpp:93-98 | the mask pixel is black iff the difference has zero RGB, and white otherwise |
| Comparator.DiffChannels | src/testcasedrawer/src/ImageComparator.cpp:78-86 | each RGB channel of the difference is abs(A - B) where both images cover the pixel, the covering image's value where only one does, and 0 elsewhere |
| Comparator.MaskBlackIffSameColor | src/testcasedrawer/src/ImageComparator.cpp:88-100 | a mask pixel is black iff A and B (transparent where absent) agree in RGB there |
| Comparator.IdenticalMaskBlack | src/testcasedrawer/src/ImageComparator.cpp:88-100 | comparing an image with itself gives an all-black mask |
| Comparator.MaskSymmetric | src/testcasedrawer/src/ImageComparator.cpp:88-100 | swapping A and B gives the same mask |
| Comparator.MaskBlackIffEqual | src/testcasedrawer/src/ImageComparator.cpp:88-100 | for equal sizes, the mask is all black iff the images are equal under compare |
| Comparator.DrawnIsJoined | src/testcasedrawer/src/ImageComparator.cpp:104-114 | the four panels drawn in order over the chessboard give the joined picture at every pixel |
| Comparator.MakeDiff | src/testcasedrawer/src/ImageComparator.cpp:78-86 | the difference image is max(wA, wB) x max(hA, hB), and each pixel is A then B blended in difference mode over transparent |
| Comparator.DrawOver | src/testcasedrawer/src/ImageComparator.cpp:84-85 | drawing an image at (0, 0) in difference mode blends the pixels it covers and keeps the rest |
| Comparator.MakeThreshold | src/testcasedrawer/src/ImageComparator.cpp:88-100 | the mask has the difference's size, and each pixel is white iff the difference's RGB is non-zero, else black |
| Comparator.Compare | src/testcasedrawer/src/ImageComparator.cpp:61-117 | two empty inputs give a 2 x 1 all-black image; otherwise the result is (2·w + 20) x (2·h + 20) and every pixel is the joined picture: chessboard, A, B, mask and difference in their panels |
| Comparator.Assemble | src/testcasedrawer/src/ImageComparator.cpp:102-116 | the chessboard of the output size with the four panels drawn over it is the joined picture |
| Comparator.PlaceInputs | src/testcasedrawer/src/ImageComparator.cpp:105-111 | A at (0, 0) and B at (w + 20, 0), each only when non-empty, over the chessboard |
| Comparator.PlaceMask | src/testcasedrawer/src/ImageComparator.cpp:112 | the mask is drawn at (0, h + 20) over the first two panels |
| Comparator.PlaceDiff | src/testcasedrawer/src/ImageComparator.cpp:113 | the difference is drawn at (w + 20, h + 20) over the first three panels |
| Comparator.ComparePointers | src/testcasedrawer/src/ImageComparator.cpp:119-124 | a null argument gives an empty image; two empty images give the 2 x 1 black image; otherwise the result is (2·w + 20) x (2·h + 20) and every pixel is the joined picture, as compare gives it |
| Comparator.CompareWithLoaded | src/testcasedrawer/src/ImageComparator.cpp:126-132 | the result is imgA == loaded B, whatever the difference picture |

## Left out

- PNG and the file system are not modelled, because they are I/O over png++ and boost. This covers `Image(path)` loading, `load`, `save` with directory creation, and `ImageBox::save`. `Comparator.CompareWithLoaded` takes the loaded image as a parameter and does not write the difference picture.
- Images.Image.Sized: png++ chooses the initial pixels of a sized image, so the model leaves them open.
- Images.Image.Resize: png++ chooses the pixels after a resize, so the model leaves them open.
- The accessors `pixel`, `red`, `green`, `blue` and `row` are not separate members, because they are plain reads of the pixel array.
- `Image.h` declares `fill(const Pixel&)`, `fillRect` and `pasteImage`, but `Image.cpp` does not define them. `fill` is called by `Drawer2D.cpp` (lines 58 and 69); `Images.Image.Fill` gives it its evident meaning, every pixel set to the colour. The destination worker's `drawImage` calls `pasteImage`. It is modelled as the clipped copy that testcasedrawer writes out.
- `Point::operator[]`, `operator*`, `+=` and `-=` and the `Rect` constructors are not separate members; they are used inline.
- `RayI` and `rotateVector` are not defined in any modelled file. The model takes them as the `RayKernel` parameter and does not invent their behaviour.
- Floating-point numerics are left out:
  - `angleFromOX` and `angleFromOXByTan` (atan);
  - `Tangens::fromAngle` and `fromCoords` (tan, and NaN from 0/0);
  - `Linear::distFactor` (sqrt). `distance < r` is instead stated as a comparison of squares.
- Floating-point rounding is ignored; doubles are reals.
- Images.Image.ComposeImage: requires the source image to be a different image from the target (the double loop the drawImage workers share). The C++ also accepts drawing an image onto itself, and then its loops read source pixels they have already overwritten; that in-place read-after-write order is not modelled, and the contract's "old source pixel" reading does not cover it.
- Painting.ModeWorker.DrawImage: requires the source image to be a different image from the target (the imgdraw2d destination and difference workers). The C++ also accepts drawing an image onto itself, and then its loops read source pixels they have already overwritten; that in-place read-after-write order is not modelled, and the contract's "old source pixel" reading does not cover it.
- Painting.Painter.DrawImage: requires the source image to be a different image from the target (forwarded to the worker). The C++ also accepts drawing an image onto itself, and then its loops read source pixels they have already overwritten; that in-place read-after-write order is not modelled, and the contract's "old source pixel" reading does not cover it.
- Painting.Painter.DrawImageAt: requires the source image to be a different image from the target (forwarded to the worker). The C++ also accepts drawing an image onto itself, and then its loops read source pixels they have already overwritten; that in-place read-after-write order is not modelled, and the contract's "old source pixel" reading does not cover it.
- Drawer.Drawer2D.DrawImage: requires the source image to be a different image from the target (the façade's drawImage). The C++ also accepts drawing an image onto itself, and then its loops read source pixels they have already overwritten; that in-place read-after-write order is not modelled, and the contract's "old source pixel" reading does not cover it.
- TcdPainting.TcdWorker.DrawImage: requires the source image to be a different image from the target (the testcasedrawer loops). The C++ also accepts drawing an image onto itself, and then its loops read source pixels they have already overwritten; that in-place read-after-write order is not modelled, and the contract's "old source pixel" reading does not cover it.
- TcdPainting.TcdPainter.DrawImage: requires the source image to be a different image from the target (forwarded to the worker). The C++ also accepts drawing an image onto itself, and then its loops read source pixels they have already overwritten; that in-place read-after-write order is not modelled, and the contract's "old source pixel" reading does not cover it.
- TcdDrawer.TcdDrawer2D.DrawImage: requires the source image to be a different image from the target (the testcasedrawer drawer's drawImage). The C++ also accepts drawing an image onto itself, and then its loops read source pixels they have already overwritten; that in-place read-after-write order is not modelled, and the contract's "old source pixel" reading does not cover it.
- `normalizeAngle` stores the number of whole turns in an `int parts` (`Geometry.h:130`). The overflow of that 32-bit `int` for angles beyond about 2^31 turns is not modelled; `Geometry.NormalizeAngleRange` assumes an unbounded turn count.
- The `linear` stepper, `drawVector`, `PixelDrawer` and `VectorDrawer` are left out. Nothing in the modelled code calls them.
- The commented-out timing code is left out.
- `drawClothoid`, `setDrawColor`, `autoResize` and the other calls made only by tests are defined in no modelled file.
- The overload `fillRect(x, y, width, height, string)` in `Painter.h` forwards to a string `fillRect` that `Painter.cpp` does not define. Only `fillRect(point, width, height, Pixel)` is modelled.
- Painting.ModeWorker.FillCircle: requires radius² < 2^32 and a non-negative centre in destination mode. These are the `uint32_t` square and the asserts in the source.
- Painting.ModeWorker.DrawRing: requires (r + w/2)² < 2^32, so the `uint32_t` squares do not wrap, and a non-negative centre.
- Painting.ModeWorker.DrawArc: requires (r + w/2)² < 2^32, so the `uint32_t` squares do not wrap, and a non-negative centre.
- Painting.ModeWorker.DrawLine: requires the unclipped scan box to lie inside the image in destination mode. What png++ does with an out-of-range `setPixel` is not modelled.
- Drawer.Drawer2D.DrawLine: requires a scale of at least 2 in destination mode. That is what makes the scan box of the transformed line fit inside the canvas image.
- Drawer.Drawer2D.StrokeLine: requires a scale of at least 2 in destination mode, for the same reason.
- Drawer.ScaledLength: gives 0 for a negative product, where the C++ conversion to `uint32_t` is undefined. All callers require non-negative lengths whose scaled value fits in 32 bits.
- Canvas.ImageBox.Resize: requires an ordered box. Every drawing call passes one, and a negative extent would make the `size_t` conversion undefined.
- Canvas.ImageBox.Sized: requires an ordered box, for the same reason.
- Drawer.Drawer2D.Sized: requires an ordered box, for the same reason.
- TcdDrawer.TcdDrawer2D.DrawLine: returns the request it hands to the painter. The testcasedrawer painter has no `drawLine` body.
- TcdDrawer.TcdDrawer2D.FillCircle: returns the request it hands to the painter. The testcasedrawer painter has no `fillCircle` body.
- TcdDrawer.TcdDrawer2D.Resize: requires an ordered box and image sides that fit in `uint32_t` (`Addressable`). The testcasedrawer loops count in `uint32_t`, and a negative extent would make the `size_t` conversion undefined.
- TcdDrawer.TcdDrawer2D.Sized: requires an ordered box and image sides that fit in `uint32_t`, for the same reasons.
- The testcasedrawer `Geometry.h` has no `PointD`, `RectD` or `Rect::expand`, though its `Drawer2D.cpp` uses them. The imgdraw2d geometry stands in for them.
- The testcasedrawer `Image.cpp` is not part of this model; only its `Image.h` is present. The testcasedrawer painter, drawer and comparator therefore run over the imgdraw2d `Image` (`images.dfy`).
- The testcasedrawer `Painter` declares no `setImage`, though its `Drawer2D.cpp` calls it. It is modelled like imgdraw2d's.
- The testcasedrawer `Drawer2D.h` declares a different, pixel-coordinate class. Its `Drawer2D.cpp` is modelled.
- The imgdraw2d `Drawer2D.cpp` defines `Drawer2DBase` with a `void resize`, while the header declares `ImageBox::resize` returning `bool`. `Canvas.ImageBox.Resize` follows the `.cpp` body and also returns whether the image was replaced, which the façade uses to rebind the painter.
- The imgdraw2d `ImageComparator.cpp` is not part of this model. Only its header is present.
- Comparator.Compare: requires the output sides to fit in `uint32_t`, because the source computes them in `uint32_t`.
- Comparator.ComparePointers: requires the output sides to fit in `uint32_t`, for the same reason.
- Comparator.CompareWithLoaded: requires the output sides to fit in `uint32_t`, for the same reason.
