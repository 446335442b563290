/**
 * Drawer2D of imgdraw2d: a canvas (ImageBox) and a painter of its own on the
 * canvas image.  Every primitive given in world coordinates first grows the
 * canvas so that the shape's world box fits, rebinds the painter when the
 * image was replaced, transforms the coordinates to pixels and scales the
 * lengths, then draws through the painter.
 */
module Drawer {
  import opened Geometry
  import opened Pixels
  import opened Images
  import opened Painting
  import opened Canvas

  /** drawLine's world box: minmax(from, to) grown by half the width. */
  function LineWorldBox(from: PointD, to: PointD, width: real): RectD
  {
    MinMaxD(from, to).Expanded(width / 2.0)
  }

  /** The world box of a disk or ring: the centre grown by the outer radius. */
  function RoundWorldBox(center: PointD, radius: real): RectD
  {
    RectD(center, center).Expanded(radius)
  }

  /** fillRect's world box: minmax of the bottom-left and top-right corners. */
  function RectWorldBox(bottomLeft: PointD, width: real, height: real): RectD
  {
    MinMaxD(bottomLeft, bottomLeft.Plus(PointD(width, height)))
  }

  /** What a shape primitive reports: "not implemented" in difference mode, else the colour conversion's outcome. */
  function ShapeStatus(mode: CompositionMode, name: string, color: string): Status
  {
    match mode
    case Difference => Failed(NotImplemented(name))
    case Destination =>
      match ConvertColor(color)
      case Failure(e) => Failed(e)
      case Success(_) => Done
  }

  /** The primitive drawArc reports as: drawRing in destination mode for a full turn or more, drawArc otherwise. */
  function ArcName(mode: CompositionMode, range: real): string
  {
    if mode == Destination && AbsReal(range) >= 2.0 * PI then "drawRing" else "drawArc"
  }

  /** Every pixel of `region` holds the colour. */
  predicate Painted(buf: array2<Pixel>, region: (int, int) -> bool, color: Pixel)
    reads buf
  {
    forall i, j :: 0 <= i < buf.Length0 && 0 <= j < buf.Length1 && region(i, j) ==> buf[i, j] == color
  }

  /** After a facade call: the pixels of `region` hold the colour, every other pixel its backdrop. */
  twostate predicate PaintedOver(c: ImageBox, region: (int, int) -> bool, color: Pixel)
    reads c, c.img, c.img.buf
  {
    forall i, j :: 0 <= i < c.img.buf.Length0 && 0 <= j < c.img.buf.Length1 ==>
      c.img.buf[i, j] == if region(i, j) then color else Backdrop(c, i, j)
  }

  /**
   * A shape primitive of the facade: the painter's outcome drawn over the image
   * resize left.  On a throw that image stays as resize left it.
   */
  twostate predicate ShapeOverBackdrop(mode: CompositionMode, name: string, c: ImageBox, color: string,
                                       region: (int, int) -> bool, s: Status)
    reads c, c.img, c.img.buf
  {
    match mode
    case Difference => s == Failed(NotImplemented(name)) && OnBackdrop(c)
    case Destination =>
      match ConvertColor(color)
      case Failure(e) => s == Failed(e) && OnBackdrop(c)
      case Success(col) => s == Done && PaintedOver(c, region, col)
  }

  /** fillRect(Pixel) over the image resize left: the clipped rectangle is combined with the colour in the mode. */
  twostate predicate RectOverBackdrop(mode: CompositionMode, c: ImageBox, point: PointI, width: nat, height: nat, color: Pixel)
    reads c, c.img, c.img.buf
  {
    forall i, j :: 0 <= i < c.img.buf.Length0 && 0 <= j < c.img.buf.Length1 ==>
      c.img.buf[i, j] == if RectPixel(point, width, height, i, j) then Compose(mode, Backdrop(c, i, j), color) else Backdrop(c, i, j)
  }

  /** The box resize(box) leaves: the box itself on an empty image, the union otherwise. */
  function ResizedBox(wasEmpty: bool, sizeBox: RectD, box: RectD): RectD
  {
    if wasEmpty then box else Union(sizeBox, box)
  }

  /**
   * The uint32_t conversion of a world length times the scale: the product
   * truncated.  The callers keep the product in [0, 2^32), where the C++
   * conversion is defined; a negative product gives 0 here.
   */
  function ScaledLength(length: real, scale: real): (n: nat)
    ensures 0.0 <= length && 0.0 <= scale && length * scale < UINT32_RANGE as real ==>
      n < UINT32_RANGE && n as real <= length * scale < n as real + 1.0
  {
    var product := length * scale;
    if product < 0.0 then 0 else Trunc(product)
  }

  /** The pixels drawLine covers on a canvas with this world box and scale. */
  function LineOnCanvas(rays: RayKernel, box: RectD, scale: real, from: PointD, to: PointD, width: real): (int, int) -> bool
  {
    LineRegion(rays, TransformCoords(box, scale, from.x, from.y), TransformCoords(box, scale, to.x, to.y),
               ScaledLength(width, scale))
  }

  /** The pixels drawArc covers: the y axis is flipped, so the start angle and the range change sign. */
  function ArcOnCanvas(rays: RayKernel, box: RectD, scale: real, center: PointD, radius: real, width: real,
                       startAngle: real, range: real): (int, int) -> bool
  {
    ArcRegion(rays, TransformCoords(box, scale, center.x, center.y), ScaledLength(radius, scale),
              ScaledLength(width, scale), -NormalizeAngle(startAngle), -range)
  }

  /** The pixels fillCircle covers. */
  function CircleOnCanvas(box: RectD, scale: real, center: PointD, radius: real): (int, int) -> bool
  {
    CircleRegion(TransformCoords(box, scale, center.x, center.y), ScaledLength(radius, scale))
  }

  /** The pixels fillRect covers, from the pixel of the top-left corner. */
  function RectOnCanvas(box: RectD, scale: real, bottomLeft: PointD, width: real, height: real): (int, int) -> bool
  {
    RectRegion(TransformCoords(box, scale, bottomLeft.x, bottomLeft.y + height), ScaledLength(width, scale),
               ScaledLength(height, scale))
  }

  // ---------------------------------------------------------------------------
  // Fitting a shape into the image

  /**
   * A point that keeps width/2 inside the box, transformed and widened by half
   * the scaled width, stays inside the columns of the image sized for the box.
   */
  lemma {:induction false} PointFitsX(box: RectD, scale: real, p: PointD, width: real)
    requires scale >= 2.0 && width >= 0.0
    requires box.a.x + width / 2.0 <= p.x && p.x + width / 2.0 <= box.b.x
    ensures 0 <= TransformCoords(box, scale, p.x, p.y).x - Scaled(width, scale) / 2
    ensures TransformCoords(box, scale, p.x, p.y).x + Scaled(width, scale) / 2 < PixelSpan(box.Width(), scale)
  {
    SpanFits(box.a.x, box.b.x, p.x, width, scale);
  }

  /** The same for the rows, on the flipped axis: the x case on negated coordinates. */
  lemma {:induction false} PointFitsY(box: RectD, scale: real, p: PointD, width: real)
    requires scale >= 2.0 && width >= 0.0
    requires box.a.y + width / 2.0 <= p.y && p.y + width / 2.0 <= box.b.y
    ensures 0 <= TransformCoords(box, scale, p.x, p.y).y - Scaled(width, scale) / 2
    ensures TransformCoords(box, scale, p.x, p.y).y + Scaled(width, scale) / 2 < PixelSpan(box.Height(), scale)
  {
    var lo, hi, q := -box.b.y, -box.a.y, -p.y;
    assert lo + width / 2.0 <= q && q + width / 2.0 <= hi;
    SpanFits(lo, hi, q, width, scale);
    assert q - lo + MARGIN == box.b.y - p.y + MARGIN;
    assert hi - lo == box.Height();
  }

  /**
   * The scan box of a line drawn by Drawer2D::drawLine lies inside an image sized
   * for a box that holds the line's world box, when the scale is at least 2.
   */
  lemma {:induction false} LineFits(box: RectD, scale: real, from: PointD, to: PointD, width: real, imgWidth: nat, imgHeight: nat)
    requires scale >= 2.0 && width >= 0.0 && width * scale < UINT32_RANGE as real
    requires box.Encloses(LineWorldBox(from, to, width)) && SizedFor(imgWidth, imgHeight, box, scale)
    ensures LineBoxInside(TransformCoords(box, scale, from.x, from.y), TransformCoords(box, scale, to.x, to.y),
                          ScaledLength(width, scale), imgWidth, imgHeight)
  {
    MulNonNegative(width, scale);
    PointFitsX(box, scale, from, width);
    PointFitsY(box, scale, from, width);
    PointFitsX(box, scale, to, width);
    PointFitsY(box, scale, to, width);
  }

  /** The arguments StrokeLine passes to the painter's drawLine meet its requirements. */
  lemma LineFitsCanvas(box: RectD, scale: real, from: PointD, to: PointD, width: real, imgWidth: nat, imgHeight: nat,
                       mode: CompositionMode)
    requires box.Encloses(LineWorldBox(from, to, width)) && SizedFor(imgWidth, imgHeight, box, scale)
    requires 0.0 <= width && width * scale < UINT32_RANGE as real
    requires mode == Destination ==> scale >= 2.0
    ensures ScaledLength(width, scale) < UINT32_RANGE
    ensures mode == Destination ==> LineBoxInside(TransformCoords(box, scale, from.x, from.y),
                                                  TransformCoords(box, scale, to.x, to.y),
                                                  ScaledLength(width, scale), imgWidth, imgHeight)
  {
    if mode == Destination {
      LineFits(box, scale, from, to, width, imgWidth, imgHeight);
    }
  }

  /** With a scale of at least 2, every point of the box maps to a pixel of the image sized for the box. */
  lemma {:induction false} PointInImage(box: RectD, scale: real, p: PointD, imgWidth: nat, imgHeight: nat)
    requires scale >= 2.0 && box.Contains(p) && SizedFor(imgWidth, imgHeight, box, scale)
    ensures 0 <= TransformCoords(box, scale, p.x, p.y).x < imgWidth
    ensures 0 <= TransformCoords(box, scale, p.x, p.y).y < imgHeight
  {
    assert Scaled(0.0, scale) == 0;
    PointFitsX(box, scale, p, 0.0);
    PointFitsY(box, scale, p, 0.0);
  }

  /** A point of the box maps to a pixel with non-negative coordinates. */
  lemma {:induction false} PointNonNegative(box: RectD, scale: real, p: PointD)
    requires scale > 0.0 && box.a.x <= p.x && p.y <= box.b.y
    ensures 0 <= TransformCoords(box, scale, p.x, p.y).x && 0 <= TransformCoords(box, scale, p.x, p.y).y
  {
    OffsetNonNegative(box.a.x, p.x, scale);
    OffsetNonNegative(p.y, box.b.y, scale);
  }

  // ---------------------------------------------------------------------------
  // The facade

  /** Drawer2D: the canvas `base` and the user's `painter` on the canvas image. */
  class Drawer2D {
    const base: ImageBox
    const painter: Painter

    /** The painter draws on the canvas image and shares no object with the canvas's own painter. */
    ghost predicate Valid()
      reads this, base, base.img, base.painter, base.painter.worker, painter, painter.worker
    {
      base.Valid() && painter.Valid() && painter.img == base.img &&
      painter != base.painter && painter.worker != base.painter.worker
    }

    /** Drawer2D(scale): an empty canvas and a destination painter on it. */
    constructor (scale: real)
      requires scale > 0.0
      ensures Valid() && base.scale == scale && base.img.IsEmpty() && painter.mode == Destination
      ensures base.sizeBox == RectD(PointD(0.0, 0.0), PointD(0.0, 0.0)) && base.background == TRANSPARENT
    {
      var canvas := new ImageBox(scale);
      base := canvas;
      painter := new Painter(canvas.img);
    }

    /** Drawer2D(size, scale, background): a canvas of that box filled with the background, and a destination painter. */
    constructor Sized(size: RectD, scale: real, background: Pixel)
      requires scale > 0.0 && size.Ordered()
      ensures Valid() && base.scale == scale && base.background == background && base.sizeBox == size
      ensures painter.mode == Destination
      ensures SizedFor(base.img.Width(), base.img.Height(), size, scale) && Filled(base.img.buf, background)
    {
      var canvas := new ImageBox.Sized(size, scale, background);
      base := canvas;
      painter := new Painter(canvas.img);
    }

    /** setBackground(Pixel): forwarded to the canvas. */
    method SetBackground(color: Pixel)
      requires Valid()
      modifies base
      ensures Valid() && base.background == color
      ensures base.img == old(base.img) && base.sizeBox == old(base.sizeBox)
    {
      base.SetBackground(color);
    }

    /** setBackground(string): forwarded to the canvas; an unknown colour throws and changes nothing. */
    method SetBackgroundColor(color: string) returns (s: Status)
      requires Valid()
      modifies base
      ensures Valid() && base.img == old(base.img) && base.sizeBox == old(base.sizeBox)
      ensures ConvertColor(color).Failure? ==> s == Failed(ConvertColor(color).error) && base.background == old(base.background)
      ensures ConvertColor(color).Success? ==> s == Done && base.background == ConvertColor(color).value
    {
      s := base.SetBackgroundColor(color);
    }

    /**
     * The three expand helpers after they built the box: resize the canvas to
     * hold it and rebind the painter when the image instance changed.
     */
    method Fit(box: RectD)
      requires Valid() && box.Ordered()
      modifies base, base.img, base.painter, base.painter.worker, painter, painter.worker
      ensures Valid() && base.sizeBox.Encloses(box) && SizedFor(base.img.Width(), base.img.Height(), base.sizeBox, base.scale)
      ensures painter.mode == old(painter.mode) && base.background == old(base.background)
      ensures old(base.img.IsEmpty()) ==> base.sizeBox == box && Filled(base.img.buf, base.background)
      ensures !old(base.img.IsEmpty()) ==> base.sizeBox == Union(old(base.sizeBox), box)
      ensures !old(base.img.IsEmpty()) && old(base.sizeBox).Encloses(box) ==>
        base.img == old(base.img) && base.img.buf == old(base.img.buf) && unchanged(base.img.buf)
      ensures base.img.buf == old(base.img.buf) || fresh(base.img.buf)
      ensures OnBackdrop(base)
    {
      var replaced := base.Resize(box);
      if replaced {
        painter.SetImage(base.img);
      }
    }

    /** drawImage: the source at the pixel of the top-left world point; the canvas does not grow. */
    method DrawImage(topLeft: PointD, source: Image)
      requires Valid() && source.buf != base.img.buf
      requires 0 <= TransformCoords(base.sizeBox, base.scale, topLeft.x, topLeft.y).x
      requires 0 <= TransformCoords(base.sizeBox, base.scale, topLeft.x, topLeft.y).y
      modifies base.img.buf
      ensures ImageDrawn(painter.mode, base.img.buf, TransformCoords(base.sizeBox, base.scale, topLeft.x, topLeft.y), source.buf)
    {
      painter.DrawImage(TransformCoords(base.sizeBox, base.scale, topLeft.x, topLeft.y), source);
    }

    /**
     * drawLine: grows the canvas to the line's world box, then draws between
     * the transformed end points with the scaled width.  When the canvas kept
     * its image the effect is exactly the painter's drawLine.
     */
    method DrawLine(rays: RayKernel, from: PointD, to: PointD, width: real, color: string) returns (s: Status)
      requires Valid()
      requires 0.0 <= width && width * base.scale < UINT32_RANGE as real
      requires painter.mode == Destination ==> base.scale >= 2.0
      modifies base, base.img, base.img.buf, base.painter, base.painter.worker, painter, painter.worker
      ensures Valid() && base.sizeBox.Encloses(LineWorldBox(from, to, width))
      ensures base.sizeBox == ResizedBox(old(base.img.IsEmpty()), old(base.sizeBox), LineWorldBox(from, to, width))
      ensures painter.mode == old(painter.mode) && base.background == old(base.background)
      ensures s == ShapeStatus(painter.mode, "drawLine", color)
      ensures ShapeOverBackdrop(painter.mode, "drawLine", base, color, LineOnCanvas(rays, base.sizeBox, base.scale, from, to, width), s)
      ensures !old(base.img.IsEmpty()) && old(base.sizeBox).Encloses(LineWorldBox(from, to, width)) ==>
        base.img.buf == old(base.img.buf) &&
        ShapeDrawn(painter.mode, "drawLine", base.img.buf, color, LineOnCanvas(rays, base.sizeBox, base.scale, from, to, width), s)
    {
      Fit(LineWorldBox(from, to, width));
      label fitted:
      s := StrokeLine(rays, from, to, width, color);
      forall i, j | 0 <= i < base.img.buf.Length0 && 0 <= j < base.img.buf.Length1
        ensures old@fitted(base.img.buf[i, j]) == Backdrop(base, i, j)
      {
      }
    }

    /** The drawing half of drawLine, on a canvas that already holds the line's world box. */
    method StrokeLine(rays: RayKernel, from: PointD, to: PointD, width: real, color: string) returns (s: Status)
      requires Valid() && base.sizeBox.Encloses(LineWorldBox(from, to, width))
      requires SizedFor(base.img.Width(), base.img.Height(), base.sizeBox, base.scale)
      requires 0.0 <= width && width * base.scale < UINT32_RANGE as real
      requires painter.mode == Destination ==> base.scale >= 2.0
      modifies base.img.buf
      ensures ShapeDrawn(painter.mode, "drawLine", base.img.buf, color, LineOnCanvas(rays, base.sizeBox, base.scale, from, to, width), s)
      ensures s == ShapeStatus(painter.mode, "drawLine", color)
      ensures s == Done ==>
        Painted(base.img.buf, LineOnCanvas(rays, base.sizeBox, base.scale, from, to, width), ConvertColor(color).value)
    {
      LineFitsCanvas(base.sizeBox, base.scale, from, to, width, base.img.Width(), base.img.Height(), painter.mode);
      var w: Uint32 := ScaledLength(width, base.scale);
      var p := TransformCoords(base.sizeBox, base.scale, from.x, from.y);
      var q := TransformCoords(base.sizeBox, base.scale, to.x, to.y);
      s := painter.DrawLine(rays, p, q, w, color);
      assert LineOnCanvas(rays, base.sizeBox, base.scale, from, to, width) == LineRegion(rays, p, q, w);
    }

    /**
     * drawArc: grows the canvas to the centre widened by radius + width/2, then
     * draws at the transformed centre with the scaled radius and width, the
     * start angle -normalizeAngle(startAngle) and the range -range (the y axis
     * is flipped, so the sweep turns the other way).
     */
    method DrawArc(rays: RayKernel, center: PointD, radius: real, width: real, startAngle: real, range: real, color: string)
      returns (s: Status)
      requires Valid()
      requires 0.0 <= radius && radius * base.scale < UINT32_RANGE as real
      requires 0.0 <= width && width * base.scale < UINT32_RANGE as real
      requires painter.mode == Destination ==> RingFits(ScaledLength(radius, base.scale), ScaledLength(width, base.scale))
      modifies base, base.img, base.img.buf, base.painter, base.painter.worker, painter, painter.worker
      ensures Valid() && base.sizeBox.Encloses(RoundWorldBox(center, radius + width / 2.0))
      ensures base.sizeBox == ResizedBox(old(base.img.IsEmpty()), old(base.sizeBox), RoundWorldBox(center, radius + width / 2.0))
      ensures painter.mode == old(painter.mode) && base.background == old(base.background)
      ensures s == ShapeStatus(painter.mode, ArcName(painter.mode, -range), color)
      ensures ShapeOverBackdrop(painter.mode, ArcName(painter.mode, -range), base, color,
                                ArcOnCanvas(rays, base.sizeBox, base.scale, center, radius, width, startAngle, range), s)
      ensures !old(base.img.IsEmpty()) && old(base.sizeBox).Encloses(RoundWorldBox(center, radius + width / 2.0)) ==>
        base.img.buf == old(base.img.buf) &&
        ShapeDrawn(painter.mode, ArcName(painter.mode, -range), base.img.buf, color,
                   ArcOnCanvas(rays, base.sizeBox, base.scale, center, radius, width, startAngle, range), s)
    {
      Fit(RoundWorldBox(center, radius + width / 2.0));
      label fitted:
      s := StrokeArc(rays, center, radius, width, startAngle, range, color);
      forall i, j | 0 <= i < base.img.buf.Length0 && 0 <= j < base.img.buf.Length1
        ensures old@fitted(base.img.buf[i, j]) == Backdrop(base, i, j)
      {
      }
    }

    /** The drawing half of drawArc, on a canvas that already holds the arc's world box. */
    method StrokeArc(rays: RayKernel, center: PointD, radius: real, width: real, startAngle: real, range: real, color: string)
      returns (s: Status)
      requires Valid() && base.sizeBox.Encloses(RoundWorldBox(center, radius + width / 2.0))
      requires 0.0 <= radius && radius * base.scale < UINT32_RANGE as real
      requires 0.0 <= width && width * base.scale < UINT32_RANGE as real
      requires painter.mode == Destination ==> RingFits(ScaledLength(radius, base.scale), ScaledLength(width, base.scale))
      modifies base.img.buf
      ensures
        ShapeDrawn(painter.mode, ArcName(painter.mode, -range), base.img.buf, color,
                   ArcOnCanvas(rays, base.sizeBox, base.scale, center, radius, width, startAngle, range), s)
      ensures s == ShapeStatus(painter.mode, ArcName(painter.mode, -range), color)
      ensures s == Done ==>
        Painted(base.img.buf, ArcOnCanvas(rays, base.sizeBox, base.scale, center, radius, width, startAngle, range), ConvertColor(color).value)
    {
      var r: Uint32 := ScaledLength(radius, base.scale);
      var w: Uint32 := ScaledLength(width, base.scale);
      var c := TransformCoords(base.sizeBox, base.scale, center.x, center.y);
      PointNonNegative(base.sizeBox, base.scale, center);
      s := painter.DrawArc(rays, c, r, w, -NormalizeAngle(startAngle), -range, color);
      assert ArcOnCanvas(rays, base.sizeBox, base.scale, center, radius, width, startAngle, range) == ArcRegion(rays, c, r, w, -NormalizeAngle(startAngle), -range);
    }

    /** fillCircle: grows the canvas to the centre widened by the radius, then fills the disk of the scaled radius. */
    method FillCircle(center: PointD, radius: real, color: string) returns (s: Status)
      requires Valid()
      requires 0.0 <= radius && radius * base.scale < UINT32_RANGE as real
      requires painter.mode == Destination ==> ScaledLength(radius, base.scale) * ScaledLength(radius, base.scale) < UINT32_RANGE
      modifies base, base.img, base.img.buf, base.painter, base.painter.worker, painter, painter.worker
      ensures Valid() && base.sizeBox.Encloses(RoundWorldBox(center, radius))
      ensures base.sizeBox == ResizedBox(old(base.img.IsEmpty()), old(base.sizeBox), RoundWorldBox(center, radius))
      ensures painter.mode == old(painter.mode) && base.background == old(base.background)
      ensures s == ShapeStatus(painter.mode, "fillCircle", color)
      ensures ShapeOverBackdrop(painter.mode, "fillCircle", base, color, CircleOnCanvas(base.sizeBox, base.scale, center, radius), s)
      ensures !old(base.img.IsEmpty()) && old(base.sizeBox).Encloses(RoundWorldBox(center, radius)) ==>
        base.img.buf == old(base.img.buf) &&
        ShapeDrawn(painter.mode, "fillCircle", base.img.buf, color, CircleOnCanvas(base.sizeBox, base.scale, center, radius), s)
    {
      Fit(RoundWorldBox(center, radius));
      label fitted:
      s := StrokeCircle(center, radius, color);
      forall i, j | 0 <= i < base.img.buf.Length0 && 0 <= j < base.img.buf.Length1
        ensures old@fitted(base.img.buf[i, j]) == Backdrop(base, i, j)
      {
      }
    }

    /** The drawing half of fillCircle, on a canvas that already holds the disk's world box. */
    method StrokeCircle(center: PointD, radius: real, color: string) returns (s: Status)
      requires Valid() && base.sizeBox.Encloses(RoundWorldBox(center, radius))
      requires 0.0 <= radius && radius * base.scale < UINT32_RANGE as real
      requires painter.mode == Destination ==> ScaledLength(radius, base.scale) * ScaledLength(radius, base.scale) < UINT32_RANGE
      modifies base.img.buf
      ensures
        ShapeDrawn(painter.mode, "fillCircle", base.img.buf, color, CircleOnCanvas(base.sizeBox, base.scale, center, radius), s)
      ensures s == ShapeStatus(painter.mode, "fillCircle", color)
      ensures s == Done ==>
        Painted(base.img.buf, CircleOnCanvas(base.sizeBox, base.scale, center, radius), ConvertColor(color).value)
    {
      var r: Uint32 := ScaledLength(radius, base.scale);
      var c := TransformCoords(base.sizeBox, base.scale, center.x, center.y);
      PointNonNegative(base.sizeBox, base.scale, center);
      s := painter.FillCircle(c, r, color);
      assert CircleOnCanvas(base.sizeBox, base.scale, center, radius) == CircleRegion(c, r);
    }

    /**
     * fillRect(Pixel): grows the canvas to the rectangle's corners, then fills
     * from the pixel of the top-left corner with the scaled width and height,
     * painting in destination mode and blending in difference mode.
     */
    method FillRect(bottomLeft: PointD, width: real, height: real, color: Pixel)
      requires Valid()
      requires 0.0 <= width && width * base.scale < UINT32_RANGE as real
      requires 0.0 <= height && height * base.scale < UINT32_RANGE as real
      modifies base, base.img, base.img.buf, base.painter, base.painter.worker, painter, painter.worker
      ensures Valid() && base.sizeBox.Encloses(RectWorldBox(bottomLeft, width, height))
      ensures base.sizeBox == ResizedBox(old(base.img.IsEmpty()), old(base.sizeBox), RectWorldBox(bottomLeft, width, height))
      ensures painter.mode == old(painter.mode) && base.background == old(base.background)
      ensures RectOverBackdrop(painter.mode, base, TransformCoords(base.sizeBox, base.scale, bottomLeft.x, bottomLeft.y + height),
                               ScaledLength(width, base.scale), ScaledLength(height, base.scale), color)
      ensures !old(base.img.IsEmpty()) && old(base.sizeBox).Encloses(RectWorldBox(bottomLeft, width, height)) ==>
        base.img.buf == old(base.img.buf) &&
        RectFilled(painter.mode, base.img.buf, TransformCoords(base.sizeBox, base.scale, bottomLeft.x, bottomLeft.y + height),
                   ScaledLength(width, base.scale), ScaledLength(height, base.scale), color)
    {
      Fit(RectWorldBox(bottomLeft, width, height));
      label fitted:
      PaintRect(bottomLeft, width, height, color);
      forall i, j | 0 <= i < base.img.buf.Length0 && 0 <= j < base.img.buf.Length1
        ensures old@fitted(base.img.buf[i, j]) == Backdrop(base, i, j)
      {
      }
    }

    /** The drawing half of fillRect, on a canvas that already holds the rectangle's world box. */
    method PaintRect(bottomLeft: PointD, width: real, height: real, color: Pixel)
      requires Valid() && base.sizeBox.Encloses(RectWorldBox(bottomLeft, width, height))
      requires 0.0 <= width && width * base.scale < UINT32_RANGE as real
      requires 0.0 <= height && height * base.scale < UINT32_RANGE as real
      modifies base.img.buf
      ensures RectFilled(painter.mode, base.img.buf, TransformCoords(base.sizeBox, base.scale, bottomLeft.x, bottomLeft.y + height),
                         ScaledLength(width, base.scale), ScaledLength(height, base.scale), color)
      ensures painter.mode == Destination ==>
        Painted(base.img.buf, RectOnCanvas(base.sizeBox, base.scale, bottomLeft, width, height), color)
    {
      var w: Uint32 := ScaledLength(width, base.scale);
      var h: Uint32 := ScaledLength(height, base.scale);
      var topLeft := PointD(bottomLeft.x, bottomLeft.y + height);
      PointNonNegative(base.sizeBox, base.scale, topLeft);
      painter.FillRect(TransformCoords(base.sizeBox, base.scale, topLeft.x, topLeft.y), w, h, color);
    }

    /** fillRect(string): converts the colour first; an unknown colour throws before the canvas grows, so nothing changes. */
    method FillRectColor(bottomLeft: PointD, width: real, height: real, color: string) returns (s: Status)
      requires Valid()
      requires 0.0 <= width && width * base.scale < UINT32_RANGE as real
      requires 0.0 <= height && height * base.scale < UINT32_RANGE as real
      modifies base, base.img, base.img.buf, base.painter, base.painter.worker, painter, painter.worker
      ensures Valid() && painter.mode == old(painter.mode) && base.background == old(base.background)
      ensures ConvertColor(color).Failure? ==>
        s == Failed(ConvertColor(color).error) && base.sizeBox == old(base.sizeBox) &&
        base.img == old(base.img) && base.img.buf == old(base.img.buf) && unchanged(base.img.buf)
      ensures ConvertColor(color).Success? ==>
        s == Done && base.sizeBox.Encloses(RectWorldBox(bottomLeft, width, height)) &&
        base.sizeBox == ResizedBox(old(base.img.IsEmpty()), old(base.sizeBox), RectWorldBox(bottomLeft, width, height)) &&
        RectOverBackdrop(painter.mode, base, TransformCoords(base.sizeBox, base.scale, bottomLeft.x, bottomLeft.y + height),
                         ScaledLength(width, base.scale), ScaledLength(height, base.scale), ConvertColor(color).value)
    {
      match ConvertColor(color)
      case Failure(e) =>
        return Failed(e);
      case Success(pixColor) =>
        FillRect(bottomLeft, width, height, pixColor);
        return Done;
    }
  }
}
