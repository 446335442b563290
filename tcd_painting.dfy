/**
 * The older testcasedrawer painter: a destination worker that copies an image,
 * a difference worker that blends it, workers whose fillRect does nothing, and
 * a Painter whose own fillRect paints the clipped rectangle in every mode.
 */
module TcdPainting {
  import opened Geometry
  import opened Pixels
  import opened Images
  import opened Painting

  /** DestinationModeWorker and DifferenceModeWorker of testcasedrawer. */
  class TcdWorker {
    const mode: CompositionMode
    var img: Image

    constructor (mode: CompositionMode, image: Image)
      ensures this.mode == mode && img == image
    {
      this.mode := mode;
      img := image;
    }

    /**
     * drawImage(x, y, source): over [x, min(W, x + sw)) x [y, min(H, y + sh)) the
     * destination worker copies the source pixel and the difference worker
     * writes the blend; the other pixels keep their value.
     */
    method DrawImage(x: Uint32, y: Uint32, source: Image)
      requires x + source.Width() < UINT32_RANGE && y + source.Height() < UINT32_RANGE
      requires source.buf != img.buf
      modifies img.buf
      ensures ImageDrawn(mode, img.buf, PointI(x, y), source.buf)
    {
      var f := (o, p) => Compose(mode, o, p);
      img.ComposeImage(x, y, source, f);
      forall i, j | 0 <= i < img.buf.Length0 && 0 <= j < img.buf.Length1
        ensures img.buf[i, j] == if x <= i < x + source.buf.Length0 && y <= j < y + source.buf.Length1
                                 then Compose(mode, old(img.buf[i, j]), source.buf[i - x, j - y])
                                 else old(img.buf[i, j])
      {
        if x <= i < x + source.buf.Length0 && y <= j < y + source.buf.Length1 {
          assert f(old(img.buf[i, j]), source.buf[i - x, j - y]) == Compose(mode, old(img.buf[i, j]), source.buf[i - x, j - y]);
        }
      }
    }

    /** fillRect of both workers: an empty body, so no pixel changes. */
    method FillRect(x: Uint32, y: Uint32, width: Uint32, height: Uint32, color: string)
      ensures unchanged(img.buf)
    {
    }
  }

  /** testcasedrawer's Painter: an image, a composition mode and the worker for that mode. */
  class TcdPainter {
    var img: Image
    var mode: CompositionMode
    var worker: TcdWorker

    ghost predicate Valid()
      reads this, worker
    {
      worker.img == img && worker.mode == mode
    }

    /** Painter(image): destination mode, through setCompositionMode. */
    constructor (image: Image)
      ensures Valid() && img == image && mode == Destination && fresh(worker)
    {
      img := image;
      mode := Destination;
      worker := new TcdWorker(Destination, image);
    }

    /** setCompositionMode: records the mode and installs a fresh worker for it on the painter's image. */
    method SetCompositionMode(mode: CompositionMode)
      modifies this
      ensures Valid() && this.mode == mode && img == old(img) && fresh(worker)
    {
      this.mode := mode;
      match mode
      case Destination =>
        worker := new TcdWorker(Destination, img);
      case Difference =>
        worker := new TcdWorker(Difference, img);
    }

    /** setImage: rebinds the painter and its worker (the call testcasedrawer's Drawer2D makes). */
    method SetImage(image: Image)
      requires Valid()
      modifies this, worker
      ensures Valid() && img == image && mode == old(mode) && worker == old(worker)
    {
      img := image;
      worker.img := image;
    }

    /** drawImage: dispatched to the worker of the current mode. */
    method DrawImage(x: Uint32, y: Uint32, source: Image)
      requires Valid()
      requires x + source.Width() < UINT32_RANGE && y + source.Height() < UINT32_RANGE
      requires source.buf != img.buf
      modifies img.buf
      ensures ImageDrawn(mode, img.buf, PointI(x, y), source.buf)
    {
      worker.DrawImage(x, y, source);
    }

    /**
     * fillRect: converts the colour (an unknown colour throws and changes nothing)
     * and paints [x, min(W, x + width)) x [y, min(H, y + height)) whatever the mode.
     */
    method FillRect(x: Uint32, y: Uint32, width: Uint32, height: Uint32, color: string) returns (s: Status)
      requires x + width < UINT32_RANGE && y + height < UINT32_RANGE
      modifies img.buf
      ensures ConvertColor(color).Failure? ==> s == Failed(ConvertColor(color).error) && unchanged(img.buf)
      ensures ConvertColor(color).Success? ==>
        s == Done && Repainted(img.buf, RectRegion(PointI(x, y), width, height), ConvertColor(color).value)
    {
      match ConvertColor(color)
      case Failure(e) =>
        return Failed(e);
      case Success(pixColor) =>
        var endW := Min(img.Width(), x + width);
        var endH := Min(img.Height(), y + height);
        img.MapRegion(x, endW, y, endH, (i, j) => true, p => pixColor);
        return Done;
    }
  }
}
