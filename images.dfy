/**
 * The raster image: a width x height buffer of pixels, indexed [x, y], with
 * the operations that fill, set and compare pixels, and the two double loops
 * every drawing primitive reduces to (a per-pixel update over a clipped box,
 * and a per-pixel combination with another image placed at an offset).
 */
module Images {
  import opened Pixels

  /** Completion of an operation that may throw. */
  datatype Status = Done | Failed(message: string)

  /**
   * After the call, every pixel of `buf` selected by `region` holds `f` of its
   * previous value and every other pixel is unchanged.
   */
  twostate predicate Mapped(buf: array2<Pixel>, region: (int, int) -> bool, f: Pixel -> Pixel)
    reads buf
  {
    forall i, j :: 0 <= i < buf.Length0 && 0 <= j < buf.Length1 ==>
      buf[i, j] == if region(i, j) then f(old(buf[i, j])) else old(buf[i, j])
  }

  /** After the call, exactly the pixels selected by `region` hold `color`; the rest are unchanged. */
  twostate predicate Repainted(buf: array2<Pixel>, region: (int, int) -> bool, color: Pixel)
    reads buf
  {
    forall i, j :: 0 <= i < buf.Length0 && 0 <= j < buf.Length1 ==>
      buf[i, j] == if region(i, j) then color else old(buf[i, j])
  }

  /**
   * After the call, every pixel of `buf` covered by `src` placed with its corner
   * at (x, y) holds `f` of its previous value and the covering source pixel;
   * every other pixel is unchanged.
   */
  twostate predicate Composed(buf: array2<Pixel>, x: int, y: int, src: array2<Pixel>, f: (Pixel, Pixel) -> Pixel)
    reads buf, src
  {
    forall i, j :: 0 <= i < buf.Length0 && 0 <= j < buf.Length1 ==>
      buf[i, j] == if x <= i < x + src.Length0 && y <= j < y + src.Length1
                   then f(old(buf[i, j]), src[i - x, j - y])
                   else old(buf[i, j])
  }

  class Image {
    var buf: array2<Pixel>

    function Width(): nat
      reads this
    {
      buf.Length0
    }

    function Height(): nat
      reads this
    {
      buf.Length1
    }

    /** Image(): a raster of size 0 x 0. */
    constructor ()
      ensures Width() == 0 && Height() == 0
      ensures fresh(buf)
    {
      buf := new Pixel[0, 0];
    }

    /** Image(width, height): a raster of that size; png++ decides the initial pixels, which the model leaves open. */
    constructor Sized(width: nat, height: nat)
      ensures Width() == width && Height() == height
      ensures fresh(buf)
    {
      buf := new Pixel[width, height];
    }

    /** empty: true exactly when both dimensions are zero. */
    function IsEmpty(): (r: bool)
      reads this
      ensures r <==> Width() == 0 && Height() == 0
    {
      if Width() != 0 then false
      else if Height() != 0 then false
      else true
    }

    /** red, green and blue agree pixel by pixel over equal dimensions; alpha is not compared. */
    predicate RGBEqual(other: Image)
      reads this, buf, other, other.buf
    {
      Width() == other.Width() && Height() == other.Height() &&
      forall x, y :: 0 <= x < Width() && 0 <= y < Height() ==> SameRGB(buf[x, y], other.buf[x, y])
    }

    /** resize: the raster takes the new size; png++ decides the pixels, which the model leaves open. */
    method Resize(width: nat, height: nat)
      modifies this
      ensures Width() == width && Height() == height
      ensures fresh(buf)
    {
      buf := new Pixel[width, height];
    }

    /**
     * The double loop over columns [x0, x1) and rows [y0, y1) that replaces each
     * pixel selected by `inside` with `f` of its value.
     */
    method MapRegion(x0: int, x1: int, y0: int, y1: int, inside: (int, int) -> bool, f: Pixel -> Pixel)
      requires 0 <= x0 && 0 <= y0 && x1 <= Width() && y1 <= Height()
      modifies buf
      ensures Mapped(buf, (i, j) => x0 <= i < x1 && y0 <= j < y1 && inside(i, j), f)
    {
      var i := x0;
      while i < x1
        invariant x0 <= i && (i <= x1 || i == x0)
        invariant forall a, b :: 0 <= a < buf.Length0 && 0 <= b < buf.Length1 ==>
          buf[a, b] == if x0 <= a < i && y0 <= b < y1 && inside(a, b) then f(old(buf[a, b])) else old(buf[a, b])
      {
        var j := y0;
        while j < y1
          invariant y0 <= j && (j <= y1 || j == y0)
          invariant forall a, b :: 0 <= a < buf.Length0 && 0 <= b < buf.Length1 ==>
            buf[a, b] == if (x0 <= a < i || a == i) && y0 <= b < y1 && (a < i || b < j) && inside(a, b)
                         then f(old(buf[a, b])) else old(buf[a, b])
        {
          if inside(i, j) {
            buf[i, j] := f(buf[i, j]);
          }
          j := j + 1;
        }
        i := i + 1;
      }
    }

    /**
     * The double loop over [x, min(W, x + source width)) x [y, min(H, y + source height))
     * that combines each pixel with the source pixel at (i - x, j - y).
     */
    method ComposeImage(x: int, y: int, source: Image, f: (Pixel, Pixel) -> Pixel)
      requires 0 <= x && 0 <= y
      requires source.buf != buf
      modifies buf
      ensures Composed(buf, x, y, source.buf, f)
    {
      var endW := if Width() < x + source.Width() then Width() else x + source.Width();
      var endH := if Height() < y + source.Height() then Height() else y + source.Height();
      var i := x;
      while i < endW
        invariant x <= i && (i <= endW || i == x)
        invariant forall a, b :: 0 <= a < buf.Length0 && 0 <= b < buf.Length1 ==>
          buf[a, b] == if x <= a < i && y <= b < endH then f(old(buf[a, b]), source.buf[a - x, b - y]) else old(buf[a, b])
      {
        var j := y;
        while j < endH
          invariant y <= j && (j <= endH || j == y)
          invariant forall a, b :: 0 <= a < buf.Length0 && 0 <= b < buf.Length1 ==>
            buf[a, b] == if (x <= a < i || a == i) && y <= b < endH && (a < i || b < j)
                         then f(old(buf[a, b]), source.buf[a - x, b - y]) else old(buf[a, b])
        {
          buf[i, j] := f(buf[i, j], source.buf[i - x, j - y]);
          j := j + 1;
        }
        i := i + 1;
      }
    }

    /** fill(Pixel): every pixel takes the colour. */
    method Fill(color: Pixel)
      modifies buf
      ensures forall x, y :: 0 <= x < Width() && 0 <= y < Height() ==> buf[x, y] == color
    {
      MapRegion(0, Width(), 0, Height(), (i, j) => true, p => color);
    }

    /** fill(string): converts the colour first; an unknown colour throws and leaves the pixels as they were. */
    method FillColor(color: string) returns (s: Status)
      modifies buf
      ensures ConvertColor(color).Failure? ==> s == Failed(ConvertColor(color).error) && unchanged(buf)
      ensures ConvertColor(color).Success? ==>
        s == Done && forall x, y :: 0 <= x < Width() && 0 <= y < Height() ==> buf[x, y] == ConvertColor(color).value
    {
      match ConvertColor(color)
      case Failure(e) =>
        return Failed(e);
      case Success(pixColor) =>
        Fill(pixColor);
        return Done;
    }

    /** fillTransparent: fill("transparent"). */
    method FillTransparent()
      modifies buf
      ensures forall x, y :: 0 <= x < Width() && 0 <= y < Height() ==> buf[x, y] == TRANSPARENT
    {
      ConvertColorNames();
      var s := FillColor("transparent");
    }

    /** setPixel: exactly the pixel (x, y) takes the colour. */
    method SetPixel(x: int, y: int, color: Pixel)
      requires 0 <= x < Width() && 0 <= y < Height()
      modifies buf
      ensures Repainted(buf, (i, j) => i == x && j == y, color)
    {
      buf[x, y] := color;
    }

    /** setPixelColor: converts the colour, then sets the pixel; an unknown colour throws and changes nothing. */
    method SetPixelColor(x: int, y: int, color: string) returns (s: Status)
      requires 0 <= x < Width() && 0 <= y < Height()
      modifies buf
      ensures ConvertColor(color).Failure? ==> s == Failed(ConvertColor(color).error) && unchanged(buf)
      ensures ConvertColor(color).Success? ==>
        s == Done && Repainted(buf, (i, j) => i == x && j == y, ConvertColor(color).value)
    {
      match ConvertColor(color)
      case Failure(e) =>
        return Failed(e);
      case Success(pixColor) =>
        SetPixel(x, y, pixColor);
        return Done;
    }

    /** compare: equal dimensions, then red, green and blue pixel by pixel, stopping at the first mismatch. */
    method Compare(other: Image) returns (r: bool)
      ensures r <==> RGBEqual(other)
    {
      var width := Width();
      if width != other.Width() {
        return false;
      }
      var height := Height();
      if height != other.Height() {
        return false;
      }
      var x := 0;
      while x < width
        invariant 0 <= x <= width
        invariant forall a, b :: 0 <= a < x && 0 <= b < height ==> SameRGB(buf[a, b], other.buf[a, b])
      {
        var y := 0;
        while y < height
          invariant 0 <= y <= height
          invariant forall a, b :: (0 <= a < x || a == x) && 0 <= b < height && (a < x || b < y) ==>
            SameRGB(buf[a, b], other.buf[a, b])
        {
          var pix := buf[x, y];
          var otherPix := other.buf[x, y];
          if pix.red != otherPix.red {
            return false;
          }
          if pix.green != otherPix.green {
            return false;
          }
          if pix.blue != otherPix.blue {
            return false;
          }
          y := y + 1;
        }
        x := x + 1;
      }
      return true;
    }

    /** equals (and operator==): the same instance, or equal under compare. */
    method Equals(other: Image) returns (r: bool)
      ensures r <==> RGBEqual(other)
    {
      if this == other {
        RGBEqualReflexive(this);
        return true;
      }
      r := Compare(other);
    }
  }

  lemma RGBEqualReflexive(a: Image)
    ensures a.RGBEqual(a)
  {
  }

  /** Two empty images are equal. */
  lemma EmptyImagesEqual(a: Image, b: Image)
    requires a.IsEmpty() && b.IsEmpty()
    ensures a.RGBEqual(b)
  {
  }

  /** Images of equal size whose pixels differ only in alpha are equal. */
  lemma AlphaIgnored(a: Image, b: Image)
    requires a.Width() == b.Width() && a.Height() == b.Height()
    requires forall x, y :: 0 <= x < a.Width() && 0 <= y < a.Height() ==> b.buf[x, y] == a.buf[x, y].(alpha := b.buf[x, y].alpha)
    ensures a.RGBEqual(b)
  {
  }

  /** A non-empty image filled red differs from one filled blue. */
  lemma RedDiffersFromBlue(a: Image, b: Image)
    requires a.Width() > 0 && a.Height() > 0
    requires forall x, y :: 0 <= x < a.Width() && 0 <= y < a.Height() ==> a.buf[x, y] == RED
    requires forall x, y :: 0 <= x < b.Width() && 0 <= y < b.Height() ==> b.buf[x, y] == BLUE
    ensures !a.RGBEqual(b)
  {
    if a.Width() == b.Width() && a.Height() == b.Height() {
      assert !SameRGB(a.buf[0, 0], b.buf[0, 0]);
    }
  }

  /** After fill("red"), pixel (1, 1) of a 10 x 10 image is (255, 0, 0, 255). */
  method FillRedExample() returns (pix: Pixel)
    ensures pix == Pixel(255, 0, 0, 255)
  {
    var image := new Image.Sized(10, 10);
    ConvertColorNames();
    var s := image.FillColor("red");
    pix := image.buf[1, 1];
  }
}
