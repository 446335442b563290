/**
 * The older testcasedrawer Drawer2D: an image, a destination painter on it,
 * a world box and a scale.  Resizing works as in imgdraw2d except that
 * nothing fills the image, so only the pasted old pixels are known after
 * growth.  fillRect paints through the painter; the painter has no line or
 * circle drawing, so drawLine and fillCircle are modelled up to the request
 * they hand to it.
 */
module TcdDrawer {
  import opened Geometry
  import opened Pixels
  import opened Images
  import opened Painting
  import opened TcdPainting
  import opened Canvas
  import opened Drawer

  /** The painter call drawLine ends with: the pixel end points, the scaled radius and the colour. */
  datatype LineRequest = LineRequest(from: PointI, to: PointI, radius: nat, color: string)

  /** The painter call fillCircle ends with: the pixel centre, the scaled radius and the colour. */
  datatype CircleRequest = CircleRequest(center: PointI, radius: nat, color: string)

  /** drawLine's world box: minmax(from, to) grown by the radius. */
  function SegmentWorldBox(from: PointD, to: PointD, radius: real): RectD
  {
    MinMaxD(from, to).Expanded(radius)
  }

  /** An ordered box whose image sides, scale * (1 + extent), fit in uint32_t. */
  predicate Addressable(box: RectD, scale: real)
  {
    scale > 0.0 && box.Ordered() && PixelSpan(box.Width(), scale) < UINT32_RANGE && PixelSpan(box.Height(), scale) < UINT32_RANGE
  }

  /** The empty pixel region: no pixel is drawn. */
  predicate Nowhere(i: int, j: int)
  {
    false
  }

  /**
   * What survives of the image before a call: the old image sits at `offset`
   * in the new one, and each of its pixels that `region` does not cover still
   * holds its old value.  Nothing is known of a first image, which nothing fills.
   */
  twostate predicate KeptOutside(d: TcdDrawer2D, offset: PointI, region: (int, int) -> bool)
    reads d, d.img, d.img.buf
  {
    !old(d.img.IsEmpty()) ==>
      0 <= offset.x && offset.x + old(d.img.buf.Length0) <= d.img.buf.Length0 &&
      0 <= offset.y && offset.y + old(d.img.buf.Length1) <= d.img.buf.Length1 &&
      forall a, b :: 0 <= a < old(d.img.buf.Length0) && 0 <= b < old(d.img.buf.Length1) && !region(offset.x + a, offset.y + b) ==>
        d.img.buf[offset.x + a, offset.y + b] == old(d.img.buf[a, b])
  }

  class TcdDrawer2D {
    var img: Image
    var painter: TcdPainter
    var sizeBox: RectD
    const scale: real

    /** The painter draws on the current image in destination mode, and a non-empty image is sized for the box. */
    ghost predicate Valid()
      reads this, img, painter, painter.worker
    {
      scale > 0.0 && painter.Valid() && painter.img == img && painter.mode == Destination &&
      (!img.IsEmpty() ==> SizedFor(img.Width(), img.Height(), sizeBox, scale))
    }

    /** The box resize(box) leaves: the box itself on an empty image, the union otherwise. */
    ghost function NextBox(box: RectD): RectD
      reads this, img
    {
      if img.IsEmpty() then box else Union(sizeBox, box)
    }

    /** Drawer2D(scale): an empty image, the box ((0, 0), (0, 0)) and a destination painter. */
    constructor (scale: real)
      requires scale > 0.0
      ensures Valid() && this.scale == scale && img.IsEmpty()
      ensures sizeBox == RectD(PointD(0.0, 0.0), PointD(0.0, 0.0))
      ensures fresh(img) && fresh(painter) && fresh(painter.worker)
    {
      this.scale := scale;
      var image := new Image();
      img := image;
      painter := new TcdPainter(image);
      sizeBox := RectD(PointD(0.0, 0.0), PointD(0.0, 0.0));
    }

    /** Drawer2D(size, scale): resizes at once to the box. */
    constructor Sized(size: RectD, scale: real)
      requires Addressable(size, scale)
      ensures Valid() && this.scale == scale && sizeBox == size
      ensures SizedFor(img.Width(), img.Height(), size, scale)
    {
      this.scale := scale;
      var image := new Image();
      img := image;
      painter := new TcdPainter(image);
      sizeBox := RectD(PointD(0.0, 0.0), PointD(0.0, 0.0));
      new;
      Resize(size);
    }

    /** resizeImage: the image takes the size of the box, scale * (1 + extent) on each axis. */
    method ResizeImage()
      requires scale > 0.0 && sizeBox.Ordered()
      modifies img
      ensures SizedFor(img.Width(), img.Height(), sizeBox, scale) && fresh(img.buf)
    {
      img.Resize(PixelSpan(sizeBox.Width(), scale), PixelSpan(sizeBox.Height(), scale));
    }

    /** resetImage: a fresh empty image, and the painter rebound to it. */
    method ResetImage()
      requires Valid()
      modifies this, painter, painter.worker
      ensures Valid() && fresh(img) && img.IsEmpty()
      ensures painter == old(painter) && painter.worker == old(painter.worker) && sizeBox == old(sizeBox)
    {
      img := new Image();
      painter.SetImage(img);
    }

    /**
     * resize(box): an empty image adopts the box and takes its size (png++
     * decides its pixels).  Otherwise the box becomes the union; when that
     * changed it, a new image of the new size receives the old image at the
     * pixel of the old box's widened top-left corner.
     */
    method Resize(box: RectD)
      requires Valid() && box.Ordered() && Addressable(NextBox(box), scale)
      modifies this, img, painter, painter.worker
      ensures Valid() && sizeBox == old(NextBox(box)) && sizeBox.Encloses(box)
      ensures SizedFor(img.Width(), img.Height(), sizeBox, scale)
      ensures painter == old(painter) && painter.worker == old(painter.worker)
      ensures old(img.IsEmpty()) ==> img == old(img) && fresh(img.buf)
      ensures !old(img.IsEmpty()) && old(sizeBox).Encloses(box) ==> img == old(img) && img.buf == old(img.buf) && unchanged(img.buf)
      ensures !old(img.IsEmpty()) && !old(sizeBox).Encloses(box) ==>
        fresh(img) && fresh(img.buf) && HoldsAt(img.buf, PasteOffset(old(sizeBox), sizeBox, scale), old(img.buf))
      ensures KeptOutside(this, PasteOffset(old(sizeBox), sizeBox, scale), Nowhere)
    {
      if img.IsEmpty() {
        sizeBox := box;
        ResizeImage();
        return;
      }
      Enlarge(box);
    }

    /** resize(box) on a non-empty image: the box becomes the union, and the image is replaced only when that grew it. */
    method Enlarge(box: RectD)
      requires Valid() && !img.IsEmpty() && box.Ordered() && Addressable(Union(sizeBox, box), scale)
      modifies this, painter, painter.worker
      ensures Valid() && sizeBox == Union(old(sizeBox), box) && sizeBox.Encloses(box)
      ensures painter == old(painter) && painter.worker == old(painter.worker)
      ensures old(sizeBox).Encloses(box) ==> img == old(img) && img.buf == old(img.buf) && unchanged(img.buf)
      ensures !old(sizeBox).Encloses(box) ==>
        fresh(img) && fresh(img.buf) && HoldsAt(img.buf, PasteOffset(old(sizeBox), sizeBox, scale), old(img.buf))
      ensures KeptOutside(this, PasteOffset(old(sizeBox), sizeBox, scale), Nowhere)
    {
      var grown, changed := Expand(sizeBox, box);
      UnionEncloses(sizeBox, box);
      if changed {
        Grow(grown);
      } else {
        sizeBox := grown;
        assert Scaled(0.0, scale) == 0;
        assert PasteOffset(old(sizeBox), sizeBox, scale) == PointI(0, 0);
      }
    }

    /** The growth branch of resize: a new image for the enlarged box, holding the old image at the paste offset. */
    method Grow(newBox: RectD)
      requires Valid() && !img.IsEmpty() && newBox.Encloses(sizeBox) && Addressable(newBox, scale)
      modifies this, painter, painter.worker
      ensures Valid() && fresh(img) && fresh(img.buf) && sizeBox == newBox
      ensures painter == old(painter) && painter.worker == old(painter.worker)
      ensures HoldsAt(img.buf, PasteOffset(old(sizeBox), newBox, scale), old(img.buf))
    {
      var oldBox, oldImg := sizeBox, img;
      ResetImage();
      sizeBox := newBox;
      ResizeImage();
      var offset := TransformCoords(sizeBox, scale, oldBox.a.x - MARGIN, oldBox.b.y + MARGIN);
      PasteOffsetIsTransform(oldBox, sizeBox, scale);
      PasteFitsX(oldBox, sizeBox, scale);
      PasteFitsY(oldBox, sizeBox, scale);
      Paste(offset, oldImg);
    }

    /** drawImage of the old image onto the new one, in destination mode. */
    method Paste(offset: PointI, oldImg: Image)
      requires Valid() && oldImg.buf != img.buf && img.Width() < UINT32_RANGE && img.Height() < UINT32_RANGE
      requires 0 <= offset.x && offset.x + oldImg.Width() <= img.Width()
      requires 0 <= offset.y && offset.y + oldImg.Height() <= img.Height()
      modifies img.buf
      ensures HoldsAt(img.buf, offset, oldImg.buf)
    {
      painter.DrawImage(offset.x, offset.y, oldImg);
    }

    /** drawImage: the source at the pixel of the top-left world point; the image does not grow. */
    method DrawImage(topLeft: PointD, source: Image)
      requires Valid() && source.buf != img.buf
      requires 0 <= TransformCoords(sizeBox, scale, topLeft.x, topLeft.y).x
      requires 0 <= TransformCoords(sizeBox, scale, topLeft.x, topLeft.y).y
      requires TransformCoords(sizeBox, scale, topLeft.x, topLeft.y).x + source.Width() < UINT32_RANGE
      requires TransformCoords(sizeBox, scale, topLeft.x, topLeft.y).y + source.Height() < UINT32_RANGE
      modifies img.buf
      ensures ImageDrawn(Destination, img.buf, TransformCoords(sizeBox, scale, topLeft.x, topLeft.y), source.buf)
    {
      var from := TransformCoords(sizeBox, scale, topLeft.x, topLeft.y);
      painter.DrawImage(from.x, from.y, source);
    }

    /**
     * drawLine: grows the image to minmax(from, to) widened by the radius and
     * requests a line between the transformed end points with the scaled
     * radius.  With a scale of at least 2 both end points are pixels of the image.
     */
    method DrawLine(from: PointD, to: PointD, radius: real, color: string) returns (request: LineRequest)
      requires Valid() && 0.0 <= radius && radius * scale < UINT32_RANGE as real
      requires Addressable(NextBox(SegmentWorldBox(from, to, radius)), scale)
      modifies this, img, painter, painter.worker
      ensures Valid() && sizeBox == old(NextBox(SegmentWorldBox(from, to, radius)))
      ensures KeptOutside(this, PasteOffset(old(sizeBox), sizeBox, scale), Nowhere)
      ensures request == LineRequest(TransformCoords(sizeBox, scale, from.x, from.y), TransformCoords(sizeBox, scale, to.x, to.y),
                                     ScaledLength(radius, scale), color)
      ensures request.radius < UINT32_RANGE
      ensures scale >= 2.0 ==>
        0 <= request.from.x < img.Width() && 0 <= request.from.y < img.Height() &&
        0 <= request.to.x < img.Width() && 0 <= request.to.y < img.Height()
    {
      Resize(SegmentWorldBox(from, to, radius));
      if scale >= 2.0 {
        PointInImage(sizeBox, scale, from, img.Width(), img.Height());
        PointInImage(sizeBox, scale, to, img.Width(), img.Height());
      }
      var rad: Uint32 := ScaledLength(radius, scale);
      request := LineRequest(TransformCoords(sizeBox, scale, from.x, from.y), TransformCoords(sizeBox, scale, to.x, to.y), rad, color);
    }

    /**
     * fillCircle: grows the image to the centre widened by the radius and
     * requests a disk at the transformed centre with the scaled radius.  With a
     * scale of at least 2 the centre is a pixel of the image.
     */
    method FillCircle(center: PointD, radius: real, color: string) returns (request: CircleRequest)
      requires Valid() && 0.0 <= radius && radius * scale < UINT32_RANGE as real
      requires Addressable(NextBox(SegmentWorldBox(center, center, radius)), scale)
      modifies this, img, painter, painter.worker
      ensures Valid() && sizeBox == old(NextBox(SegmentWorldBox(center, center, radius)))
      ensures KeptOutside(this, PasteOffset(old(sizeBox), sizeBox, scale), Nowhere)
      ensures request == CircleRequest(TransformCoords(sizeBox, scale, center.x, center.y), ScaledLength(radius, scale), color)
      ensures request.radius < UINT32_RANGE
      ensures scale >= 2.0 ==> 0 <= request.center.x < img.Width() && 0 <= request.center.y < img.Height()
    {
      Resize(SegmentWorldBox(center, center, radius));
      if scale >= 2.0 {
        PointInImage(sizeBox, scale, center, img.Width(), img.Height());
      }
      var rad: Uint32 := ScaledLength(radius, scale);
      request := CircleRequest(TransformCoords(sizeBox, scale, center.x, center.y), rad, color);
    }

    /**
     * fillRect: grows the image to minmax(bl, bl + (w, h)), then the painter
     * converts the colour and paints from the pixel of (bl.x, bl.y + h) with the
     * scaled width and height.  The image grows even when the colour is unknown.
     */
    method FillRect(bottomLeft: PointD, width: real, height: real, color: string) returns (s: Status)
      requires Valid()
      requires 0.0 <= width && width * scale < UINT32_RANGE as real
      requires 0.0 <= height && height * scale < UINT32_RANGE as real
      requires Addressable(NextBox(RectWorldBox(bottomLeft, width, height)), scale)
      requires TransformCoords(NextBox(RectWorldBox(bottomLeft, width, height)), scale, bottomLeft.x, bottomLeft.y + height).x +
               ScaledLength(width, scale) < UINT32_RANGE
      requires TransformCoords(NextBox(RectWorldBox(bottomLeft, width, height)), scale, bottomLeft.x, bottomLeft.y + height).y +
               ScaledLength(height, scale) < UINT32_RANGE
      modifies this, img, img.buf, painter, painter.worker
      ensures Valid() && sizeBox == old(NextBox(RectWorldBox(bottomLeft, width, height)))
      ensures ConvertColor(color).Failure? ==> s == Failed(ConvertColor(color).error) && KeptOutside(this, PasteOffset(old(sizeBox), sizeBox, scale), Nowhere)
      ensures ConvertColor(color).Success? ==>
        s == Done &&
        var p := TransformCoords(sizeBox, scale, bottomLeft.x, bottomLeft.y + height);
        var w := ScaledLength(width, scale);
        var h := ScaledLength(height, scale);
        Painted(img.buf, RectRegion(p, w, h), ConvertColor(color).value) && KeptOutside(this, PasteOffset(old(sizeBox), sizeBox, scale), RectRegion(p, w, h))
      ensures !old(img.IsEmpty()) && old(sizeBox).Encloses(RectWorldBox(bottomLeft, width, height)) ==>
        img.buf == old(img.buf) &&
        (ConvertColor(color).Failure? ==> unchanged(img.buf)) &&
        (ConvertColor(color).Success? ==>
          var p := TransformCoords(sizeBox, scale, bottomLeft.x, bottomLeft.y + height);
          var w := ScaledLength(width, scale);
          var h := ScaledLength(height, scale);
          Repainted(img.buf, RectRegion(p, w, h), ConvertColor(color).value))
    {
      Refit(RectWorldBox(bottomLeft, width, height));
      var w: Uint32 := ScaledLength(width, scale);
      var h: Uint32 := ScaledLength(height, scale);
      var topLeft := PointD(bottomLeft.x, bottomLeft.y + height);
      PointNonNegative(sizeBox, scale, topLeft);
      var point := TransformCoords(sizeBox, scale, topLeft.x, topLeft.y);
      assert PointI(point.x, point.y) == point;
      s := painter.FillRect(point.x, point.y, w, h, color);
      if ConvertColor(color).Success? {
        forall i, j | 0 <= i < img.buf.Length0 && 0 <= j < img.buf.Length1 && RectPixel(point, w, h, i, j)
          ensures img.buf[i, j] == ConvertColor(color).value
        {
        }
      }
    }

    /** resize as fillRect uses it: the new box, the old pixels kept, and an untouched image when the box was enclosed. */
    method Refit(box: RectD)
      requires Valid() && box.Ordered() && Addressable(NextBox(box), scale)
      modifies this, img, painter, painter.worker
      ensures Valid() && sizeBox == old(NextBox(box)) && sizeBox.Encloses(box)
      ensures img.buf == old(img.buf) || fresh(img.buf)
      ensures !old(img.IsEmpty()) && old(sizeBox).Encloses(box) ==> img == old(img) && img.buf == old(img.buf) && unchanged(img.buf)
      ensures KeptOutside(this, PasteOffset(old(sizeBox), sizeBox, scale), Nowhere)
    {
      Resize(box);
    }
  }
}
