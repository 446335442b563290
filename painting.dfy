/**
 * The rasteriser of the image-drawer-2d library: a Painter bound to an image
 * forwards every primitive to a mode worker.  The destination worker paints
 * lines, arcs, rings, rectangles and disks pixel by pixel; the difference
 * worker blends images and rectangles with the byte-wise |a - b| rule and
 * throws for every other primitive.
 *
 * Each primitive is specified by the exact set of pixels it paints: a pixel
 * inside the image changes to the colour when it is in the set and keeps its
 * value otherwise.
 */
module Painting {
  import opened Geometry
  import opened Pixels
  import opened Images

  /** uint32_t. */
  type Uint32 = n: int | 0 <= n < 0x1_0000_0000

  const UINT32_RANGE: nat := 0x1_0000_0000

  /** Painter::CompositionMode. */
  datatype CompositionMode = Destination | Difference

  /**
   * RayI and rotateVector are called by the painter but are not part of this
   * model: side(direction, v) stands for RayI(direction).side(v), and
   * rotate(v, angle) for rotateVector(v, angle).
   */
  datatype RayKernel = RayKernel(side: (PointI, PointI) -> real, rotate: (PointI, real) -> PointI)

  function AbsReal(r: real): real
  {
    if r < 0.0 then -r else r
  }

  /** udiff: value - subtractor, or 0 when the subtractor is larger. */
  function Udiff(value: int, subtractor: int): (r: int)
    ensures r >= 0 && r >= value - subtractor
    ensures r == 0 || r == value - subtractor
  {
    if subtractor > value then 0 else value - subtractor
  }

  /** The pixel (i, j) lies in the closed box. */
  predicate InBox(box: RectI, i: int, j: int)
  {
    box.a.x <= i <= box.b.x && box.a.y <= j <= box.b.y
  }

  /**
   * getBBox: the box [udiff(c, r), min(W - 1, c + r)] on each axis, i.e. the
   * square of half-side r around the centre clipped to the image.
   */
  function GetBBox(center: PointI, radius: nat, width: nat, height: nat): (box: RectI)
    requires center.x >= 0 && center.y >= 0
    ensures 0 <= box.a.x && box.b.x < width && 0 <= box.a.y && box.b.y < height
    ensures forall i, j :: 0 <= i < width && 0 <= j < height ==>
      (InBox(box, i, j) <==> center.x - radius <= i <= center.x + radius && center.y - radius <= j <= center.y + radius)
  {
    RectI(PointI(Udiff(center.x, radius), Udiff(center.y, radius)),
          PointI(Min(width - 1, center.x + radius), Min(height - 1, center.y + radius)))
  }

  // ---------------------------------------------------------------------------
  // Pixel sets of the primitives

  /** The squared distance from the centre. */
  function DistSquare(center: PointI, i: int, j: int): nat
  {
    (i - center.x) * (i - center.x) + (j - center.y) * (j - center.y)
  }

  /** fillRect: the columns [x, x + width) and rows [y, y + height). */
  predicate RectPixel(point: PointI, width: nat, height: nat, i: int, j: int)
  {
    point.x <= i < point.x + width && point.y <= j < point.y + height
  }

  /** fillCircle: the open disk, distance strictly below the radius. */
  predicate CirclePixel(center: PointI, radius: nat, i: int, j: int)
  {
    DistSquare(center, i, j) < radius * radius
  }

  /** The ring test with the radii precomputed: minR^2 <= d^2 <= maxR^2. */
  predicate RingTest(center: PointI, minR: nat, maxR: nat, i: int, j: int)
  {
    minR * minR <= DistSquare(center, i, j) <= maxR * maxR
  }

  /** drawRing: radius + width/2 outside, udiff(radius, width/2) inside, both bounds included. */
  predicate RingPixel(center: PointI, radius: nat, width: nat, i: int, j: int)
  {
    RingTest(center, Udiff(radius, width / 2), radius + width / 2, i, j)
  }

  /** The two arc bounds: start and start + range, normalised, in increasing order of the sweep. */
  function ArcBounds(startAngle: real, range: real): (real, real)
  {
    if range > 0.0 then (NormalizeAngle(startAngle), NormalizeAngle(startAngle + range))
    else (NormalizeAngle(startAngle + range), NormalizeAngle(startAngle))
  }

  /**
   * The wedge test of drawArc for the vector from the centre: with the wide rule a
   * pixel is skipped only when it is right of the start ray and left of the end ray;
   * with the narrow rule it must be strictly left of the start ray and strictly
   * right of the end ray.
   */
  predicate WedgeTest(rays: RayKernel, fromVector: PointI, toVector: PointI, wide: bool, v: PointI)
  {
    if wide then !(rays.side(fromVector, v) < 0.0 && rays.side(toVector, v) > 0.0)
    else rays.side(fromVector, v) > 0.0 && rays.side(toVector, v) < 0.0
  }

  /** drawArc below a full turn: the wedge of the normalised bounds, wide when range > PI. */
  predicate InWedge(rays: RayKernel, startAngle: real, range: real, v: PointI)
  {
    var (minAngle, maxAngle) := ArcBounds(startAngle, range);
    WedgeTest(rays, rays.rotate(PointI(1000, 0), minAngle), rays.rotate(PointI(1000, 0), maxAngle), range > PI, v)
  }

  /** drawArc: the ring for a full turn or more, otherwise the ring cut by the wedge. */
  predicate ArcPixel(rays: RayKernel, center: PointI, radius: nat, width: nat, startAngle: real, range: real, i: int, j: int)
  {
    if AbsReal(range) >= 2.0 * PI then RingPixel(center, radius, width, i, j)
    else InWedge(rays, startAngle, range, PointI(i - center.x, j - center.y)) && RingPixel(center, radius, width, i, j)
  }

  /** The scan box of drawLine: minmax(from, to) grown by width/2, not clipped to the image. */
  function LineBox(from: PointI, to: PointI, width: nat): RectI
  {
    MinMaxI(from, to).Expanded(width / 2)
  }

  /** The tests drawLine applies inside its box: both side tests and the distance to the parallel line. */
  predicate LineTest(rays: RayKernel, from: PointI, to: PointI, width: nat, i: int, j: int)
  {
    var lineVector := to.Minus(from);
    var orthoVector := lineVector.Ortho();
    var current := PointI(i, j).Minus(from);
    Trunc(rays.side(orthoVector, current)) >= 0 &&
    Trunc(rays.side(orthoVector, current.Minus(lineVector))) <= 0 &&
    CreateFromDirection(lineVector).DistanceBelow(current, width / 2)
  }

  /** drawLine: a pixel of the scan box that passes the tests. */
  predicate LinePixel(rays: RayKernel, from: PointI, to: PointI, width: nat, i: int, j: int)
  {
    var box := LineBox(from, to, width);
    box.a.x <= i <= box.b.x && box.a.y <= j <= box.b.y && LineTest(rays, from, to, width, i, j)
  }

  /** The scan box of drawLine lies inside a width x height image. */
  predicate LineBoxInside(from: PointI, to: PointI, width: nat, imgWidth: nat, imgHeight: nat)
  {
    var box := LineBox(from, to, width);
    0 <= box.a.x && box.b.x < imgWidth && 0 <= box.a.y && box.b.y < imgHeight
  }

  // ---------------------------------------------------------------------------
  // The pixel sets of the shapes, as regions over (column, row)

  function RectRegion(point: PointI, width: nat, height: nat): (int, int) -> bool
  {
    (i, j) => RectPixel(point, width, height, i, j)
  }

  function CircleRegion(center: PointI, radius: nat): (int, int) -> bool
  {
    (i, j) => CirclePixel(center, radius, i, j)
  }

  function RingRegion(center: PointI, radius: nat, width: nat): (int, int) -> bool
  {
    (i, j) => RingPixel(center, radius, width, i, j)
  }

  function ArcRegion(rays: RayKernel, center: PointI, radius: nat, width: nat, startAngle: real, range: real): (int, int) -> bool
  {
    (i, j) => ArcPixel(rays, center, radius, width, startAngle, range, i, j)
  }

  function LineRegion(rays: RayKernel, from: PointI, to: PointI, width: nat): (int, int) -> bool
  {
    (i, j) => LinePixel(rays, from, to, width, i, j)
  }

  // ---------------------------------------------------------------------------
  // Effects of the primitives

  /** The message of the runtime_error a primitive throws in difference mode. */
  function NotImplemented(name: string): string
  {
    name + " not implemented"
  }

  /**
   * A shape primitive in the given mode: the difference mode throws "<name> not
   * implemented"; the destination mode converts the colour (an unknown colour
   * throws) and then repaints exactly the pixels of `region`.  Nothing changes
   * when it throws.
   */
  twostate predicate ShapeDrawn(mode: CompositionMode, name: string, buf: array2<Pixel>, color: string,
                                region: (int, int) -> bool, s: Status)
    reads buf
  {
    match mode
    case Difference => s == Failed(NotImplemented(name)) && unchanged(buf)
    case Destination =>
      match ConvertColor(color)
      case Failure(e) => s == Failed(e) && unchanged(buf)
      case Success(c) => s == Done && Repainted(buf, region, c)
  }

  /** The pixel a mode writes over `orig` when it draws `src`. */
  function Compose(mode: CompositionMode, orig: Pixel, src: Pixel): Pixel
  {
    match mode
    case Destination => src
    case Difference => DifferenceBlend(orig, src)
  }

  /** drawImage in the given mode: the covered pixels are combined with the source, the rest unchanged. */
  twostate predicate ImageDrawn(mode: CompositionMode, buf: array2<Pixel>, point: PointI, src: array2<Pixel>)
    reads buf, src
  {
    forall i, j :: 0 <= i < buf.Length0 && 0 <= j < buf.Length1 ==>
      buf[i, j] == if point.x <= i < point.x + src.Length0 && point.y <= j < point.y + src.Length1
                   then Compose(mode, old(buf[i, j]), src[i - point.x, j - point.y])
                   else old(buf[i, j])
  }

  /** fillRect(Pixel) in the given mode: the clipped rectangle is combined with the colour, the rest unchanged. */
  twostate predicate RectFilled(mode: CompositionMode, buf: array2<Pixel>, point: PointI, width: nat, height: nat, color: Pixel)
    reads buf
  {
    forall i, j :: 0 <= i < buf.Length0 && 0 <= j < buf.Length1 ==>
      buf[i, j] == if RectPixel(point, width, height, i, j) then Compose(mode, old(buf[i, j]), color) else old(buf[i, j])
  }

  // ---------------------------------------------------------------------------
  // Workers

  /** ModeWorker and its two subclasses: the image it draws on and the mode it implements. */
  class ModeWorker {
    const mode: CompositionMode
    var img: Image

    constructor (mode: CompositionMode, image: Image)
      ensures this.mode == mode && img == image
    {
      this.mode := mode;
      img := image;
    }

    method SetImage(image: Image)
      modifies this
      ensures img == image
    {
      img := image;
    }

    /** drawImage: pasteImage in destination mode, the difference blend pixel by pixel otherwise. */
    method DrawImage(point: PointI, source: Image)
      requires point.x >= 0 && point.y >= 0
      requires source.buf != img.buf
      modifies img.buf
      ensures ImageDrawn(mode, img.buf, point, source.buf)
    {
      img.ComposeImage(point.x, point.y, source, (o, p) => Compose(mode, o, p));
    }

    /** fillRect(Pixel): the clipped rectangle painted (destination) or blended (difference). */
    method FillRect(point: PointI, width: Uint32, height: Uint32, color: Pixel)
      requires point.x >= 0 && point.y >= 0
      modifies img.buf
      ensures RectFilled(mode, img.buf, point, width, height, color)
    {
      var endW := Min(img.Width(), point.x + width);
      var endH := Min(img.Height(), point.y + height);
      img.MapRegion(point.x, endW, point.y, endH, (i, j) => true, p => Compose(mode, p, color));
    }

    /**
     * The scan shared by the shape primitives: the pixels of [x0, x1) x [y0, y1)
     * that pass `inside` take the colour.  `region` names that pixel set within
     * the image.
     */
    method PaintRegion(x0: int, x1: int, y0: int, y1: int, inside: (int, int) -> bool,
                       region: (int, int) -> bool, color: Pixel)
      requires 0 <= x0 && 0 <= y0 && x1 <= img.Width() && y1 <= img.Height()
      requires forall i, j :: 0 <= i < img.Width() && 0 <= j < img.Height() ==>
        (region(i, j) <==> x0 <= i < x1 && y0 <= j < y1 && inside(i, j))
      modifies img.buf
      ensures Repainted(img.buf, region, color)
    {
      img.MapRegion(x0, x1, y0, y1, inside, p => color);
    }

    /** fillCircle: the in-image pixels strictly inside the circle, scanned over getBBox. */
    method FillCircle(center: PointI, radius: Uint32, color: string) returns (s: Status)
      requires mode == Destination ==> center.x >= 0 && center.y >= 0 && radius * radius < UINT32_RANGE
      modifies img.buf
      ensures ShapeDrawn(mode, "fillCircle", img.buf, color, CircleRegion(center, radius), s)
    {
      if mode == Difference {
        return Failed(NotImplemented("fillCircle"));
      }
      match ConvertColor(color)
      case Failure(e) =>
        return Failed(e);
      case Success(pixColor) =>
        var box := GetBBox(center, radius, img.Width(), img.Height());
        forall i, j | 0 <= i < img.Width() && 0 <= j < img.Height() && CirclePixel(center, radius, i, j)
          ensures InBox(box, i, j)
        {
          DiskInBox(center, radius, img.Width(), img.Height(), i, j);
        }
        PaintRegion(box.a.x, box.b.x + 1, box.a.y, box.b.y + 1, CircleRegion(center, radius),
                    CircleRegion(center, radius), pixColor);
        return Done;
    }

    /** drawRing: the in-image pixels of the closed ring, scanned over getBBox of the outer radius. */
    method DrawRing(center: PointI, radius: Uint32, width: Uint32, color: string) returns (s: Status)
      requires mode == Destination ==> center.x >= 0 && center.y >= 0 && RingFits(radius, width)
      modifies img.buf
      ensures ShapeDrawn(mode, "drawRing", img.buf, color, RingRegion(center, radius, width), s)
    {
      if mode == Difference {
        return Failed(NotImplemented("drawRing"));
      }
      match ConvertColor(color)
      case Failure(e) =>
        return Failed(e);
      case Success(pixColor) =>
        var maxRadius := radius + width / 2;
        var minRadius := Udiff(radius, width / 2);
        var box := GetBBox(center, maxRadius, img.Width(), img.Height());
        forall i, j | 0 <= i < img.Width() && 0 <= j < img.Height() && RingTest(center, minRadius, maxRadius, i, j)
          ensures InBox(box, i, j)
        {
          RingInBox(center, minRadius, maxRadius, img.Width(), img.Height(), i, j);
        }
        PaintRegion(box.a.x, box.b.x + 1, box.a.y, box.b.y + 1, (i, j) => RingTest(center, minRadius, maxRadius, i, j),
                    RingRegion(center, radius, width), pixColor);
        return Done;
    }

    /**
     * drawArc: a sweep of a full turn or more draws the ring; otherwise the ring
     * pixels that pass the wedge test of the normalised bounds.
     */
    method DrawArc(rays: RayKernel, center: PointI, radius: Uint32, width: Uint32, startAngle: real, range: real, color: string)
      returns (s: Status)
      requires mode == Destination ==> center.x >= 0 && center.y >= 0 && RingFits(radius, width)
      modifies img.buf
      ensures ShapeDrawn(mode, if mode == Destination && AbsReal(range) >= 2.0 * PI then "drawRing" else "drawArc",
                         img.buf, color, ArcRegion(rays, center, radius, width, startAngle, range), s)
    {
      if mode == Difference {
        return Failed(NotImplemented("drawArc"));
      }
      if AbsReal(range) >= 2.0 * PI {
        s := DrawRing(center, radius, width, color);
        return;
      }
      match ConvertColor(color)
      case Failure(e) =>
        return Failed(e);
      case Success(pixColor) =>
        PaintWedge(rays, center, radius, width, startAngle, range, pixColor);
        return Done;
    }

    /** The painting half of drawArc below a full turn: the ring pixels that pass the wedge test. */
    method PaintWedge(rays: RayKernel, center: PointI, radius: Uint32, width: Uint32, startAngle: real, range: real,
                      pixColor: Pixel)
      requires center.x >= 0 && center.y >= 0 && RingFits(radius, width) && AbsReal(range) < 2.0 * PI
      modifies img.buf
      ensures Repainted(img.buf, ArcRegion(rays, center, radius, width, startAngle, range), pixColor)
    {
      var (minAngle, maxAngle) := ArcBounds(startAngle, range);
      var wide := range > PI;
      var maxRadius := radius + width / 2;
      var minRadius := Udiff(radius, width / 2);
      var box := GetBBox(center, maxRadius, img.Width(), img.Height());
      var fromVector := rays.rotate(PointI(1000, 0), minAngle);
      var toVector := rays.rotate(PointI(1000, 0), maxAngle);
      forall i, j | 0 <= i < img.Width() && 0 <= j < img.Height() && RingTest(center, minRadius, maxRadius, i, j)
        ensures InBox(box, i, j)
      {
        RingInBox(center, minRadius, maxRadius, img.Width(), img.Height(), i, j);
      }
      PaintRegion(box.a.x, box.b.x + 1, box.a.y, box.b.y + 1,
                  (i, j) => WedgeTest(rays, fromVector, toVector, wide, PointI(i - center.x, j - center.y)) &&
                            RingTest(center, minRadius, maxRadius, i, j),
                  ArcRegion(rays, center, radius, width, startAngle, range), pixColor);
    }

    /** drawLine: the pixels of the unclipped scan box that pass the side and distance tests. */
    method DrawLine(rays: RayKernel, from: PointI, to: PointI, width: Uint32, color: string) returns (s: Status)
      requires mode == Destination ==> LineBoxInside(from, to, width, img.Width(), img.Height())
      modifies img.buf
      ensures ShapeDrawn(mode, "drawLine", img.buf, color, LineRegion(rays, from, to, width), s)
    {
      if mode == Difference {
        return Failed(NotImplemented("drawLine"));
      }
      match ConvertColor(color)
      case Failure(e) =>
        return Failed(e);
      case Success(pixColor) =>
        var box := LineBox(from, to, width);
        PaintRegion(box.a.x, box.b.x + 1, box.a.y, box.b.y + 1, (i, j) => LineTest(rays, from, to, width, i, j),
                    LineRegion(rays, from, to, width), pixColor);
        return Done;
    }
  }

  /** The outer radius of a ring and its square fit in uint32. */
  predicate RingFits(radius: nat, width: nat)
  {
    (radius + width / 2) * (radius + width / 2) < UINT32_RANGE
  }

  /** A point strictly inside the circle of the given radius lies in getBBox of that radius. */
  lemma DiskInBox(center: PointI, radius: nat, width: nat, height: nat, i: int, j: int)
    requires center.x >= 0 && center.y >= 0 && 0 <= i < width && 0 <= j < height
    requires DistSquare(center, i, j) < radius * radius
    ensures InBox(GetBBox(center, radius, width, height), i, j)
  {
    WithinRadius(center, radius, i, j);
  }

  /** A pixel of the ring lies in getBBox of its outer radius. */
  lemma RingInBox(center: PointI, minR: nat, maxR: nat, width: nat, height: nat, i: int, j: int)
    requires center.x >= 0 && center.y >= 0 && 0 <= i < width && 0 <= j < height
    requires RingTest(center, minR, maxR, i, j)
    ensures InBox(GetBBox(center, maxR, width, height), i, j)
  {
    WithinRadius(center, maxR, i, j);
  }

  /** A pixel at squared distance at most r * r is at most r away from the centre on each axis. */
  lemma WithinRadius(center: PointI, r: nat, i: int, j: int)
    requires DistSquare(center, i, j) <= r * r
    ensures center.x - r <= i <= center.x + r && center.y - r <= j <= center.y + r
  {
    var dx, dy := i - center.x, j - center.y;
    SquareNonNegative(dx);
    SquareNonNegative(dy);
    assert dx * dx <= r * r && dy * dy <= r * r;
    SquareAtMost(dx, r);
    SquareAtMost(dy, r);
  }

  lemma SquareNonNegative(d: int)
    ensures d * d >= 0
  {
    if d < 0 {
      assert d * d == (-d) * (-d);
    }
  }

  lemma SquareMonotone(a: nat, b: nat)
    requires a <= b
    ensures a * a <= b * b
  {
    assert a * a <= a * b;
  }

  /** |d| <= r when d * d <= r * r. */
  lemma SquareAtMost(d: int, r: nat)
    requires d * d <= r * r
    ensures -(r as int) <= d <= r
  {
    var a := if d < 0 then -d else d;
    assert a * a == d * d;
    if a > r {
      SquareMonotone(r + 1, a);
    }
  }

  // ---------------------------------------------------------------------------
  // Painter

  /** Painter: an image, a composition mode and the worker that implements that mode on that image. */
  class Painter {
    var img: Image
    var mode: CompositionMode
    var worker: ModeWorker

    /** The worker draws on the painter's image in the painter's mode. */
    ghost predicate Valid()
      reads this, worker
    {
      worker.img == img && worker.mode == mode
    }

    /** Painter(image): destination mode, with a destination worker on the same image. */
    constructor (image: Image)
      ensures Valid() && img == image && mode == Destination && fresh(worker)
    {
      img := image;
      mode := Destination;
      worker := new ModeWorker(Destination, image);
    }

    /** setCompositionMode: records the mode and installs a fresh worker for it on the current image. */
    method SetCompositionMode(mode: CompositionMode)
      modifies this
      ensures Valid() && this.mode == mode && img == old(img) && fresh(worker)
    {
      this.mode := mode;
      match mode
      case Destination =>
        worker := new ModeWorker(Destination, img);
      case Difference =>
        worker := new ModeWorker(Difference, img);
    }

    /** setImage: rebinds both the painter and its worker. */
    method SetImage(image: Image)
      requires Valid()
      modifies this, worker
      ensures Valid() && img == image && mode == old(mode) && worker == old(worker)
    {
      img := image;
      worker.SetImage(image);
    }

    method DrawImage(point: PointI, source: Image)
      requires Valid()
      requires point.x >= 0 && point.y >= 0
      requires source.buf != img.buf
      modifies img.buf
      ensures ImageDrawn(mode, img.buf, point, source.buf)
    {
      worker.DrawImage(point, source);
    }

    method DrawLine(rays: RayKernel, from: PointI, to: PointI, width: Uint32, color: string) returns (s: Status)
      requires Valid()
      requires mode == Destination ==> LineBoxInside(from, to, width, img.Width(), img.Height())
      modifies img.buf
      ensures ShapeDrawn(mode, "drawLine", img.buf, color, LineRegion(rays, from, to, width), s)
    {
      s := worker.DrawLine(rays, from, to, width, color);
    }

    method DrawArc(rays: RayKernel, center: PointI, radius: Uint32, width: Uint32, startAngle: real, range: real, color: string)
      returns (s: Status)
      requires Valid()
      requires mode == Destination ==> center.x >= 0 && center.y >= 0 && RingFits(radius, width)
      modifies img.buf
      ensures ShapeDrawn(mode, if mode == Destination && AbsReal(range) >= 2.0 * PI then "drawRing" else "drawArc",
                         img.buf, color, ArcRegion(rays, center, radius, width, startAngle, range), s)
    {
      s := worker.DrawArc(rays, center, radius, width, startAngle, range, color);
    }

    method FillRect(point: PointI, width: Uint32, height: Uint32, color: Pixel)
      requires Valid()
      requires point.x >= 0 && point.y >= 0
      modifies img.buf
      ensures RectFilled(mode, img.buf, point, width, height, color)
    {
      worker.FillRect(point, width, height, color);
    }

    method FillCircle(center: PointI, radius: Uint32, color: string) returns (s: Status)
      requires Valid()
      requires mode == Destination ==> center.x >= 0 && center.y >= 0 && radius * radius < UINT32_RANGE
      modifies img.buf
      ensures ShapeDrawn(mode, "fillCircle", img.buf, color, CircleRegion(center, radius), s)
    {
      s := worker.FillCircle(center, radius, color);
    }

    /** The (x, y) overload of drawImage: the PointI version at PointI{x, y}. */
    method DrawImageAt(x: Uint32, y: Uint32, source: Image)
      requires Valid()
      requires source.buf != img.buf
      modifies img.buf
      ensures ImageDrawn(mode, img.buf, PointI(x, y), source.buf)
    {
      DrawImage(PointI(x, y), source);
    }

    /** The (x, y) overload of drawLine: the PointI version on PointI{fromX, fromY} and PointI{toX, toY}. */
    method DrawLineAt(rays: RayKernel, fromX: Uint32, fromY: Uint32, toX: Uint32, toY: Uint32, width: Uint32, color: string)
      returns (s: Status)
      requires Valid()
      requires mode == Destination ==> LineBoxInside(PointI(fromX, fromY), PointI(toX, toY), width, img.Width(), img.Height())
      modifies img.buf
      ensures ShapeDrawn(mode, "drawLine", img.buf, color,
                         LineRegion(rays, PointI(fromX, fromY), PointI(toX, toY), width), s)
    {
      s := DrawLine(rays, PointI(fromX, fromY), PointI(toX, toY), width, color);
    }

    /** The (x, y) overload of fillCircle: the PointI version at PointI{x, y}. */
    method FillCircleAt(x: Uint32, y: Uint32, radius: Uint32, color: string) returns (s: Status)
      requires Valid()
      requires mode == Destination ==> radius * radius < UINT32_RANGE
      modifies img.buf
      ensures ShapeDrawn(mode, "fillCircle", img.buf, color, CircleRegion(PointI(x, y), radius), s)
    {
      s := FillCircle(PointI(x, y), radius, color);
    }
  }

  // ---------------------------------------------------------------------------
  // Properties of the pixel sets

  /** fillCircle with radius 0 paints nothing. */
  lemma ZeroRadiusCircleEmpty(center: PointI, i: int, j: int)
    ensures !CirclePixel(center, 0, i, j)
  {
  }

  /**
   * When half the width reaches the radius the inner radius is 0 and the ring is
   * the closed disk of the outer radius.
   */
  lemma ThickRingIsDisk(center: PointI, radius: nat, width: nat, i: int, j: int)
    requires width / 2 >= radius
    ensures RingPixel(center, radius, width, i, j) <==> DistSquare(center, i, j) <= (radius + width / 2) * (radius + width / 2)
  {
  }

  /** Every arc pixel is a ring pixel, and an arc of a full turn or more is the whole ring. */
  lemma ArcWithinRing(rays: RayKernel, center: PointI, radius: nat, width: nat, startAngle: real, range: real, i: int, j: int)
    ensures ArcPixel(rays, center, radius, width, startAngle, range, i, j) ==> RingPixel(center, radius, width, i, j)
    ensures AbsReal(range) >= 2.0 * PI ==>
      (ArcPixel(rays, center, radius, width, startAngle, range, i, j) <==> RingPixel(center, radius, width, i, j))
  {
  }

  /** The narrow rule excludes the pixels lying on either boundary ray. */
  lemma NarrowWedgeOpen(rays: RayKernel, fromVector: PointI, toVector: PointI, v: PointI)
    requires rays.side(fromVector, v) == 0.0 || rays.side(toVector, v) == 0.0
    ensures !WedgeTest(rays, fromVector, toVector, false, v)
  {
  }

  /** The wide rule keeps every pixel the narrow rule keeps, and also the pixels on the boundary rays. */
  lemma WideWedgeContainsNarrow(rays: RayKernel, fromVector: PointI, toVector: PointI, v: PointI)
    ensures WedgeTest(rays, fromVector, toVector, false, v) ==> WedgeTest(rays, fromVector, toVector, true, v)
    ensures rays.side(fromVector, v) == 0.0 || rays.side(toVector, v) == 0.0 ==> WedgeTest(rays, fromVector, toVector, true, v)
  {
  }

  /** The bounds are the normalised start and end of the sweep, swapped for a sweep that is not positive. */
  lemma ArcBoundsOrder(startAngle: real, range: real)
    ensures range > 0.0 ==> ArcBounds(startAngle, range) == (NormalizeAngle(startAngle), NormalizeAngle(startAngle + range))
    ensures range <= 0.0 ==> ArcBounds(startAngle, range) == (NormalizeAngle(startAngle + range), NormalizeAngle(startAngle))
    ensures 0.0 <= ArcBounds(startAngle, range).0 <= 2.0 * PI && 0.0 <= ArcBounds(startAngle, range).1 <= 2.0 * PI
  {
    NormalizeAngleRange(startAngle);
    NormalizeAngleRange(startAngle + range);
  }

  /** A line of width 0 or 1 between two different points paints nothing: the distance test needs distance < 0. */
  lemma {:induction false} ThinLineEmpty(rays: RayKernel, from: PointI, to: PointI, width: nat, i: int, j: int)
    requires width <= 1 && from != to
    ensures !LinePixel(rays, from, to, width, i, j)
  {
    var lineVector := to.Minus(from);
    CreateFromPointsThrough(PointI(0, 0), lineVector);
    assert lineVector != PointI(0, 0);
    var l := CreateFromDirection(lineVector);
    assert !l.Degenerate();
    var r := l.Residual(PointI(i, j).Minus(from));
    assert r * r >= 0;
  }

  /** Every pixel a line paints lies in its scan box. */
  lemma LinePixelInBox(rays: RayKernel, from: PointI, to: PointI, width: nat, i: int, j: int)
    requires LinePixel(rays, from, to, width, i, j)
    ensures MinMaxI(from, to).a.x - width / 2 <= i <= MinMaxI(from, to).b.x + width / 2
    ensures MinMaxI(from, to).a.y - width / 2 <= j <= MinMaxI(from, to).b.y + width / 2
  {
  }
}
