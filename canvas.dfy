/**
 * The growable canvas of imgdraw2d (Drawer2DBase, declared as ImageBox): a
 * world box, a scale, a background colour and an image sized from the box.
 * World coordinates map to pixels with a margin of half a unit and a flipped
 * y axis.  Resizing adopts the first box as it is and later grows the box by
 * union; on growth the image is reallocated, filled with the background and
 * the old pixels are pasted back where the old box now lies.
 */
module Canvas {
  import opened Geometry
  import opened Pixels
  import opened Images
  import opened Painting

  /** MARGIN: half a world unit around the box on every side. */
  const MARGIN: real := 0.5

  /**
   * The int conversion of a world length times the scale, truncated toward zero.
   * Kept as a function of the length so that equal lengths give equal pixels
   * without multiplying out.
   */
  function Scaled(length: real, scale: real): int
  {
    Trunc(length * scale)
  }

  /**
   * transformCoords: the world point relative to the box's left and top edges,
   * shifted by the margin, scaled and truncated; y grows downwards.
   */
  function TransformCoords(sizeBox: RectD, scale: real, x: real, y: real): PointI
  {
    PointI(Scaled(x - sizeBox.a.x + MARGIN, scale), Scaled(sizeBox.b.y - y + MARGIN, scale))
  }

  /** The size_t of scale * (2 * MARGIN + extent): pixels spanned by a box extent. */
  function PixelSpan(extent: real, scale: real): nat
    requires extent >= 0.0 && scale > 0.0
  {
    assert scale * (2.0 * MARGIN + extent) >= 0.0;
    Trunc(scale * (2.0 * MARGIN + extent))
  }

  /** An image of width x height is the one resizeImage makes for the box. */
  predicate SizedFor(width: nat, height: nat, box: RectD, scale: real)
  {
    scale > 0.0 && box.Ordered() && width == PixelSpan(box.Width(), scale) && height == PixelSpan(box.Height(), scale)
  }

  /** Where the old image goes after growth: the scaled distance from the new box's left and top edges to the old box's. */
  function PasteOffset(oldBox: RectD, newBox: RectD, scale: real): PointI
  {
    PointI(Scaled(oldBox.a.x - newBox.a.x, scale), Scaled(newBox.b.y - oldBox.b.y, scale))
  }

  /** The source image lies wholly inside buf at the offset, pixel for pixel. */
  predicate HoldsAt(buf: array2<Pixel>, offset: PointI, src: array2<Pixel>)
    reads buf, src
  {
    0 <= offset.x && 0 <= offset.y && offset.x + src.Length0 <= buf.Length0 && offset.y + src.Length1 <= buf.Length1 &&
    forall a, b :: 0 <= a < src.Length0 && 0 <= b < src.Length1 ==> buf[offset.x + a, offset.y + b] == src[a, b]
  }

  /** Every pixel of buf outside the region covered by a width x height image at the offset holds the colour. */
  predicate ColorOutside(buf: array2<Pixel>, offset: PointI, width: nat, height: nat, color: Pixel)
    reads buf
  {
    forall i, j :: 0 <= i < buf.Length0 && 0 <= j < buf.Length1 ==>
      (offset.x <= i < offset.x + width && offset.y <= j < offset.y + height) || buf[i, j] == color
  }

  /** Every pixel holds the colour. */
  predicate Filled(buf: array2<Pixel>, color: Pixel)
    reads buf
  {
    forall i, j :: 0 <= i < buf.Length0 && 0 <= j < buf.Length1 ==> buf[i, j] == color
  }

  // ---------------------------------------------------------------------------
  // Arithmetic of the transform

  lemma TruncMonotone(u: real, v: real)
    requires u <= v
    ensures Trunc(u) <= Trunc(v)
  {
  }

  lemma MulNonNegative(u: real, v: real)
    requires u >= 0.0 && v >= 0.0
    ensures u * v >= 0.0
  {
  }

  /** Truncation of non-negative values is superadditive: floor(u) + floor(v) <= floor(u + v). */
  lemma TruncAdd(u: real, v: real)
    requires u >= 0.0 && v >= 0.0
    ensures Trunc(u) + Trunc(v) <= Trunc(u + v)
  {
  }

  /** The left and top edges, widened by the margin, map to pixel (0, 0). */
  lemma TransformCorner(box: RectD, scale: real)
    ensures TransformCoords(box, scale, box.a.x - MARGIN, box.b.y + MARGIN) == PointI(0, 0)
  {
    assert box.a.x - MARGIN - box.a.x + MARGIN == 0.0;
    assert box.b.y - (box.b.y + MARGIN) + MARGIN == 0.0;
    assert Scaled(0.0, scale) == 0;
  }

  /** A larger world x never gives a smaller pixel x, and a larger world y never gives a larger pixel y. */
  lemma {:induction false} TransformMonotone(box: RectD, scale: real, x1: real, y1: real, x2: real, y2: real)
    requires scale > 0.0 && x1 <= x2 && y1 <= y2
    ensures TransformCoords(box, scale, x1, y1).x <= TransformCoords(box, scale, x2, y2).x
    ensures TransformCoords(box, scale, x1, y1).y >= TransformCoords(box, scale, x2, y2).y
  {
    assert (x1 - box.a.x + MARGIN) * scale <= (x2 - box.a.x + MARGIN) * scale by {
      assert (x2 - box.a.x + MARGIN) * scale - (x1 - box.a.x + MARGIN) * scale == (x2 - x1) * scale;
    }
    TruncMonotone((x1 - box.a.x + MARGIN) * scale, (x2 - box.a.x + MARGIN) * scale);
    assert (box.b.y - y2 + MARGIN) * scale <= (box.b.y - y1 + MARGIN) * scale by {
      assert (box.b.y - y1 + MARGIN) * scale - (box.b.y - y2 + MARGIN) * scale == (y2 - y1) * scale;
    }
    TruncMonotone((box.b.y - y2 + MARGIN) * scale, (box.b.y - y1 + MARGIN) * scale);
  }

  /** A coordinate at least `lo` maps to a non-negative pixel. */
  lemma {:induction false} OffsetNonNegative(lo: real, p: real, scale: real)
    requires scale > 0.0 && lo <= p
    ensures Scaled(p - lo + MARGIN, scale) >= 0
  {
    assert (p - lo + MARGIN) * scale >= 0.0;
  }

  /** Integer halves and truncation: floor(x) - floor(w) / 2 >= 0 and floor(x) + floor(w) / 2 < floor(z) when w / 2 <= x and x + w / 2 <= z - 1. */
  lemma TruncHalfWidth(x: real, w: real, z: real)
    requires 0.0 <= w && w / 2.0 <= x && x + w / 2.0 <= z - 1.0
    ensures 0 <= Trunc(x) - Trunc(w) / 2
    ensures Trunc(x) + Trunc(w) / 2 < Trunc(z)
  {
    assert (Trunc(w) / 2) as real <= w / 2.0;
  }

  /** The scaled distance from lo, margin included, is at least half the scaled width. */
  lemma ScaledLeftRoom(lo: real, p: real, width: real, scale: real)
    requires scale >= 0.0 && lo + width / 2.0 <= p
    ensures (p - lo + MARGIN) * scale >= (width * scale) / 2.0
  {
    assert (p - lo + MARGIN) * scale - (width * scale) / 2.0 == (p - lo - width / 2.0) * scale + MARGIN * scale;
    MulNonNegative(p - lo - width / 2.0, scale);
  }

  /** The scaled distance plus half the scaled width stays a pixel short of the scaled span, for a scale of at least 2. */
  lemma ScaledRightRoom(lo: real, hi: real, p: real, width: real, scale: real)
    requires scale >= 2.0 && p + width / 2.0 <= hi
    ensures (p - lo + MARGIN) * scale + (width * scale) / 2.0 <= scale * (2.0 * MARGIN + (hi - lo)) - 1.0
  {
    assert scale * (2.0 * MARGIN + (hi - lo)) - ((p - lo + MARGIN) * scale + (width * scale) / 2.0)
      == (hi - p - width / 2.0) * scale + MARGIN * scale;
    MulNonNegative(hi - p - width / 2.0, scale);
  }

  /**
   * On one axis, the pixel of a point that stays width/2 inside [lo, hi], widened by
   * half the truncated pixel width, lies in the image when the scale is at least 2.
   */
  lemma {:induction false} SpanFits(lo: real, hi: real, p: real, width: real, scale: real)
    requires scale >= 2.0 && width >= 0.0 && lo + width / 2.0 <= p && p + width / 2.0 <= hi
    ensures 0 <= Scaled(p - lo + MARGIN, scale) - Scaled(width, scale) / 2
    ensures Scaled(p - lo + MARGIN, scale) + Scaled(width, scale) / 2 < PixelSpan(hi - lo, scale)
  {
    MulNonNegative(width, scale);
    ScaledLeftRoom(lo, p, width, scale);
    ScaledRightRoom(lo, hi, p, width, scale);
    TruncHalfWidth((p - lo + MARGIN) * scale, width * scale, scale * (2.0 * MARGIN + (hi - lo)));
  }

  /** resize computes the offset as the pixel of world (oldBox.a.x - MARGIN, oldBox.b.y + MARGIN) in the new box. */
  lemma PasteOffsetIsTransform(oldBox: RectD, newBox: RectD, scale: real)
    ensures TransformCoords(newBox, scale, oldBox.a.x - MARGIN, oldBox.b.y + MARGIN) == PasteOffset(oldBox, newBox, scale)
  {
    assert oldBox.a.x - MARGIN - newBox.a.x + MARGIN == oldBox.a.x - newBox.a.x;
    assert newBox.b.y - (oldBox.b.y + MARGIN) + MARGIN == newBox.b.y - oldBox.b.y;
  }

  /**
   * On one axis, an old extent pasted at the truncated scaled offset fits within
   * the new extent's pixel span when the offset plus the old extent stays within
   * the new one: floor(d) + floor(o) <= floor(d + o) <= floor(n).
   */
  lemma {:induction false} PasteFitsAxis(offset: real, oldExtent: real, newExtent: real, scale: real)
    requires scale > 0.0 && 0.0 <= offset && 0.0 <= oldExtent && offset + oldExtent <= newExtent
    ensures 0 <= Scaled(offset, scale)
    ensures Scaled(offset, scale) + PixelSpan(oldExtent, scale) <= PixelSpan(newExtent, scale)
  {
    var d := offset * scale;
    var o := scale * (2.0 * MARGIN + oldExtent);
    var n := scale * (2.0 * MARGIN + newExtent);
    MulNonNegative(offset, scale);
    MulNonNegative(scale, 2.0 * MARGIN + oldExtent);
    TruncAdd(d, o);
    assert n - (d + o) == scale * (newExtent - offset - oldExtent);
    MulNonNegative(scale, newExtent - offset - oldExtent);
    TruncMonotone(d + o, n);
  }

  /**
   * After growth the old image, pasted at the offset, fits inside the new image on
   * the x axis, as the old box's right edge stays inside the new one.
   */
  lemma PasteFitsX(oldBox: RectD, newBox: RectD, scale: real)
    requires scale > 0.0 && oldBox.Ordered() && newBox.Encloses(oldBox)
    ensures 0 <= PasteOffset(oldBox, newBox, scale).x
    ensures PasteOffset(oldBox, newBox, scale).x + PixelSpan(oldBox.Width(), scale) <= PixelSpan(newBox.Width(), scale)
  {
    PasteFitsAxis(oldBox.a.x - newBox.a.x, oldBox.Width(), newBox.Width(), scale);
  }

  /** The same on the flipped y axis, where the offset is measured down from the new box's top edge. */
  lemma PasteFitsY(oldBox: RectD, newBox: RectD, scale: real)
    requires scale > 0.0 && oldBox.Ordered() && newBox.Encloses(oldBox)
    ensures 0 <= PasteOffset(oldBox, newBox, scale).y
    ensures PasteOffset(oldBox, newBox, scale).y + PixelSpan(oldBox.Height(), scale) <= PixelSpan(newBox.Height(), scale)
  {
    PasteFitsAxis(newBox.b.y - oldBox.b.y, oldBox.Height(), newBox.Height(), scale);
  }

  // ---------------------------------------------------------------------------
  // The canvas

  /**
   * Pixel (i, j) of the canvas image just after resize, from the state before
   * it: the old image's pixel under (i, j) once the old image sits at the
   * paste offset ((0, 0) when the box did not grow), and the background
   * everywhere else, which is every pixel of a first image.
   */
  twostate function Backdrop(c: ImageBox, i: int, j: int): Pixel
    reads c
  {
    var offset := PasteOffset(old(c.sizeBox), c.sizeBox, c.scale);
    if offset.x <= i < offset.x + old(c.img.buf.Length0) && offset.y <= j < offset.y + old(c.img.buf.Length1)
    then old(c.img.buf[i - offset.x, j - offset.y])
    else c.background
  }

  /** Every pixel of the canvas image holds its backdrop: the image resize leaves. */
  twostate predicate OnBackdrop(c: ImageBox)
    reads c, c.img, c.img.buf
  {
    forall i, j :: 0 <= i < c.img.buf.Length0 && 0 <= j < c.img.buf.Length1 ==> c.img.buf[i, j] == Backdrop(c, i, j)
  }

  /** Drawer2DBase: the image, its own destination painter, the world box, the background and the scale. */
  class ImageBox {
    var img: Image
    var painter: Painter
    var sizeBox: RectD
    var background: Pixel
    const scale: real

    /**
     * The painter draws on the current image in destination mode, and a
     * non-empty image has the size resizeImage gives the box.
     */
    ghost predicate Valid()
      reads this, img, painter, painter.worker
    {
      scale > 0.0 && painter.Valid() && painter.img == img && painter.mode == Destination &&
      (!img.IsEmpty() ==> SizedFor(img.Width(), img.Height(), sizeBox, scale))
    }

    /** Drawer2DBase(scale): an empty image, the box ((0, 0), (0, 0)) and a transparent background. */
    constructor (scale: real)
      requires scale > 0.0
      ensures Valid() && this.scale == scale && img.IsEmpty()
      ensures sizeBox == RectD(PointD(0.0, 0.0), PointD(0.0, 0.0)) && background == TRANSPARENT
      ensures fresh(img) && fresh(painter) && fresh(painter.worker)
    {
      this.scale := scale;
      var image := new Image();
      img := image;
      painter := new Painter(image);
      sizeBox := RectD(PointD(0.0, 0.0), PointD(0.0, 0.0));
      background := Pixel(0, 0, 0, 0);
    }

    /** Drawer2DBase(size, scale, background): sets the background, then resizes to the box. */
    constructor Sized(size: RectD, scale: real, background: Pixel)
      requires scale > 0.0 && size.Ordered()
      ensures Valid() && this.scale == scale && this.background == background && sizeBox == size
      ensures SizedFor(img.Width(), img.Height(), size, scale) && Filled(img.buf, background)
      ensures fresh(img) && fresh(img.buf) && fresh(painter) && fresh(painter.worker)
    {
      this.scale := scale;
      var image := new Image();
      img := image;
      painter := new Painter(image);
      sizeBox := RectD(PointD(0.0, 0.0), PointD(0.0, 0.0));
      this.background := Pixel(0, 0, 0, 0);
      new;
      SetBackground(background);
      var replaced := Resize(size);
    }

    /** setBackground(Pixel): only the background colour changes. */
    method SetBackground(color: Pixel)
      modifies this
      ensures background == color
      ensures img == old(img) && painter == old(painter) && sizeBox == old(sizeBox)
    {
      background := color;
    }

    /** setBackground(string): converts first; an unknown colour throws and changes nothing. */
    method SetBackgroundColor(color: string) returns (s: Status)
      modifies this
      ensures img == old(img) && painter == old(painter) && sizeBox == old(sizeBox)
      ensures ConvertColor(color).Failure? ==> s == Failed(ConvertColor(color).error) && background == old(background)
      ensures ConvertColor(color).Success? ==> s == Done && background == ConvertColor(color).value
    {
      match ConvertColor(color)
      case Failure(e) =>
        return Failed(e);
      case Success(pixColor) =>
        SetBackground(pixColor);
        return Done;
    }

    /** resizeImage: the image takes the size of the box, scale * (1 + extent) on each axis. */
    method ResizeImage()
      requires scale > 0.0 && sizeBox.Ordered()
      modifies img
      ensures SizedFor(img.Width(), img.Height(), sizeBox, scale) && fresh(img.buf)
    {
      img.Resize(PixelSpan(sizeBox.Width(), scale), PixelSpan(sizeBox.Height(), scale));
    }

    /** resetImage: a fresh empty image, and the painter rebound to it. */
    method ResetImage()
      requires Valid()
      modifies this, painter, painter.worker
      ensures Valid() && fresh(img) && img.IsEmpty()
      ensures painter == old(painter) && painter.worker == old(painter.worker)
      ensures sizeBox == old(sizeBox) && background == old(background)
    {
      img := new Image();
      painter.SetImage(img);
    }

    /**
     * The growth branch of resize: a new image of the (already enlarged) box's
     * size, filled with the background, with the old image pasted at the pixel
     * of the old box's widened top-left corner.
     */
    method Grow(newBox: RectD)
      requires Valid() && !img.IsEmpty() && newBox.Encloses(sizeBox)
      modifies this, painter, painter.worker
      ensures Valid() && fresh(img) && fresh(img.buf) && sizeBox == newBox
      ensures painter == old(painter) && painter.worker == old(painter.worker) && background == old(background)
      ensures HoldsAt(img.buf, PasteOffset(old(sizeBox), newBox, scale), old(img.buf))
      ensures ColorOutside(img.buf, PasteOffset(old(sizeBox), newBox, scale), old(img.Width()), old(img.Height()), background)
    {
      var oldBox, oldImg := sizeBox, img;
      ResetImage();
      sizeBox := newBox;
      ResizeImage();
      img.Fill(background);
      var offset := TransformCoords(sizeBox, scale, oldBox.a.x - MARGIN, oldBox.b.y + MARGIN);
      PasteOffsetIsTransform(oldBox, sizeBox, scale);
      PasteFitsX(oldBox, sizeBox, scale);
      PasteFitsY(oldBox, sizeBox, scale);
      Paste(offset, oldImg);
    }

    /** drawImage of the old image onto the background-filled new one, in destination mode. */
    method Paste(offset: PointI, oldImg: Image)
      requires Valid() && Filled(img.buf, background) && oldImg.buf != img.buf
      requires 0 <= offset.x && offset.x + oldImg.Width() <= img.Width()
      requires 0 <= offset.y && offset.y + oldImg.Height() <= img.Height()
      modifies img.buf
      ensures HoldsAt(img.buf, offset, oldImg.buf)
      ensures ColorOutside(img.buf, offset, oldImg.Width(), oldImg.Height(), background)
    {
      painter.DrawImage(offset, oldImg);
      assert ImageDrawn(Destination, img.buf, offset, oldImg.buf);
      forall a, b | 0 <= a < oldImg.buf.Length0 && 0 <= b < oldImg.buf.Length1
        ensures img.buf[offset.x + a, offset.y + b] == oldImg.buf[a, b]
      {
        var i, j := offset.x + a, offset.y + b;
        assert i - offset.x == a && j - offset.y == b;
        assert img.buf[i, j] == Compose(Destination, old(img.buf[i, j]), oldImg.buf[a, b]);
      }
      forall i, j | 0 <= i < img.buf.Length0 && 0 <= j < img.buf.Length1 &&
                    !(offset.x <= i < offset.x + oldImg.Width() && offset.y <= j < offset.y + oldImg.Height())
        ensures img.buf[i, j] == background
      {
        assert img.buf[i, j] == old(img.buf[i, j]);
      }
    }

    /**
     * resize(box): an empty image adopts the box, takes its size and is filled
     * with the background.  Otherwise the box becomes the union; when that
     * changed it, a new image of the new size is filled with the background and
     * the old image is pasted at the old box's corner.  Reports whether the
     * image was replaced by a new instance.
     */
    method Resize(box: RectD) returns (replaced: bool)
      requires Valid() && box.Ordered()
      modifies this, img, painter, painter.worker
      ensures Valid() && sizeBox.Encloses(box) && SizedFor(img.Width(), img.Height(), sizeBox, scale)
      ensures painter == old(painter) && painter.worker == old(painter.worker) && background == old(background)
      ensures old(img.IsEmpty()) ==>
        !replaced && img == old(img) && sizeBox == box && fresh(img.buf) && Filled(img.buf, background)
      ensures !old(img.IsEmpty()) ==>
        sizeBox == Union(old(sizeBox), box) && (replaced <==> !old(sizeBox).Encloses(box))
      ensures !old(img.IsEmpty()) && !replaced ==> img == old(img) && img.buf == old(img.buf) && unchanged(img.buf)
      ensures replaced ==>
        fresh(img) && fresh(img.buf) &&
        HoldsAt(img.buf, PasteOffset(old(sizeBox), sizeBox, scale), old(img.buf)) &&
        ColorOutside(img.buf, PasteOffset(old(sizeBox), sizeBox, scale), old(img.Width()), old(img.Height()), background)
      ensures OnBackdrop(this)
    {
      if img.IsEmpty() {
        assert img.buf.Length0 == 0 && img.buf.Length1 == 0;
        sizeBox := box;
        ResizeImage();
        img.Fill(background);
        forall i, j | 0 <= i < img.buf.Length0 && 0 <= j < img.buf.Length1
          ensures img.buf[i, j] == Backdrop(this, i, j)
        {
          assert img.buf[i, j] == background;
        }
        return false;
      }
      var grown, changed := Expand(sizeBox, box);
      UnionEncloses(sizeBox, box);
      if changed {
        Grow(grown);
        forall i, j | 0 <= i < img.buf.Length0 && 0 <= j < img.buf.Length1
          ensures img.buf[i, j] == Backdrop(this, i, j)
        {
          GrownLayout(img.buf, PasteOffset(old(sizeBox), sizeBox, scale), old(img.buf), background, i, j);
        }
      } else {
        sizeBox := grown;
        assert Scaled(0.0, scale) == 0;
        assert PasteOffset(old(sizeBox), sizeBox, scale) == PointI(0, 0);
        forall i, j | 0 <= i < img.buf.Length0 && 0 <= j < img.buf.Length1
          ensures img.buf[i, j] == Backdrop(this, i, j)
        {
          assert img.buf[i, j] == old(img.buf[i, j]);
        }
      }
      return changed;
    }
  }

  /** The background fill and the paste together: the old pixels at the offset, the background everywhere else. */
  lemma GrownLayout(buf: array2<Pixel>, offset: PointI, src: array2<Pixel>, background: Pixel, i: int, j: int)
    requires HoldsAt(buf, offset, src) && ColorOutside(buf, offset, src.Length0, src.Length1, background)
    requires 0 <= i < buf.Length0 && 0 <= j < buf.Length1
    ensures buf[i, j] == if offset.x <= i < offset.x + src.Length0 && offset.y <= j < offset.y + src.Length1
                         then src[i - offset.x, j - offset.y] else background
  {
    if offset.x <= i < offset.x + src.Length0 && offset.y <= j < offset.y + src.Length1 {
      var a, b := i - offset.x, j - offset.y;
      assert buf[offset.x + a, offset.y + b] == src[a, b];
    }
  }
}
