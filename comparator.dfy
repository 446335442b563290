/**
 * The testcasedrawer ImageComparator.  Comparing two images builds a picture
 * of their differences: the difference of the two (drawn one over the other
 * in difference mode on a transparent image of the larger size), a black and
 * white mask of where that difference is not black, and a chessboard on
 * which A, B, the mask and the difference are laid out as four panels.
 */
module Comparator {
  import opened Geometry
  import opened Pixels
  import opened Images
  import opened Painting
  import opened TcdPainting

  /** CHESS_GRID_SIZE: the side of a chessboard cell on images of at least 30 x 30. */
  const CHESS_GRID_SIZE: nat := 10
  /** DIFF_IMAGES_SPACING: the gap between panels, two cells wide. */
  const DIFF_IMAGES_SPACING: nat := CHESS_GRID_SIZE * 2
  /** The chessboard's dark colour, "#666666". */
  const GREY := Pixel(0x66, 0x66, 0x66, 255)

  // ---------------------------------------------------------------------------
  // Chessboard

  /** The cell side: 2 when a third of the smaller side is below CHESS_GRID_SIZE, else CHESS_GRID_SIZE. */
  function GridSize(width: nat, height: nat): (g: nat)
    ensures g == 2 || g == CHESS_GRID_SIZE
    ensures g == CHESS_GRID_SIZE <==> width >= 3 * CHESS_GRID_SIZE && height >= 3 * CHESS_GRID_SIZE
  {
    if Min(width / 3, height / 3) < CHESS_GRID_SIZE then 2 else CHESS_GRID_SIZE
  }

  /** The index of the g-wide cell that holds coordinate i. */
  function Cell(i: nat, g: nat): nat
    requires g > 0
  {
    i / g
  }

  /** The chessboard colour of pixel (i, j): white on cells whose column and row have the same parity, grey elsewhere. */
  function ChessColor(g: nat, i: nat, j: nat): Pixel
    requires g > 0
  {
    if Cell(i, g) % 2 == Cell(j, g) % 2 then WHITE else GREY
  }

  /** Coordinate i lies in cell k, [k * g, k * g + g), exactly when Cell(i, g) == k. */
  lemma {:induction false} CellIndex(i: nat, g: nat, k: nat)
    requires g > 0
    ensures k * g <= i < k * g + g <==> Cell(i, g) == k
  {
    var q, r := i / g, i % g;
    assert i == q * g + r;
    if q < k {
      assert q * g + g <= k * g by { MulMonotone(q + 1, k, g); }
    } else if q > k {
      assert k * g + g <= q * g by { MulMonotone(k + 1, q, g); }
    }
  }

  lemma MulMonotone(a: nat, b: nat, g: nat)
    requires a <= b
    ensures a * g <= b * g
  {
  }

  /** No coordinate below n lies in a cell past n's. */
  lemma {:induction false} CellBound(n: nat, g: nat)
    requires g > 0
    ensures forall i: nat :: i < n ==> Cell(i, g) <= Cell(n, g)
  {
    forall i: nat | i < n
      ensures Cell(i, g) <= Cell(n, g)
    {
      CellIndex(n, g, Cell(n, g));
      if Cell(i, g) > Cell(n, g) {
        CellIndex(i, g, Cell(i, g));
        MulMonotone(Cell(n, g) + 1, Cell(i, g), g);
      }
    }
  }

  /** The chessboard of a width x height image: its chessboard colour on columns of cells before `wo`, grey elsewhere. */
  ghost predicate ChessUpTo(chess: Image, g: nat, wo: nat)
    reads chess, chess.buf
    requires g > 0
  {
    forall i, j :: 0 <= i < chess.Width() && 0 <= j < chess.Height() ==>
      chess.buf[i, j] == if Cell(i, g) < wo then ChessColor(g, i, j) else GREY
  }

  /**
   * generateChessboard: an image of the size filled "#666666", on which a
   * destination painter fills "white" the clipped g x g cell (wo, ho) for every
   * wo <= width / g and ho <= height / g of equal parity.  Every pixel ends up
   * with its chessboard colour.
   */
  method GenerateChessboard(width: Uint32, height: Uint32) returns (chess: Image)
    requires width + CHESS_GRID_SIZE < UINT32_RANGE && height + CHESS_GRID_SIZE < UINT32_RANGE
    ensures fresh(chess) && fresh(chess.buf)
    ensures chess.Width() == width && chess.Height() == height
    ensures forall i, j :: 0 <= i < width && 0 <= j < height ==> chess.buf[i, j] == ChessColor(GridSize(width, height), i, j)
  {
    chess := new Image.Sized(width, height);
    FillGrey(chess);
    var painter := new TcdPainter(chess);
    var g := GridSize(width, height);
    var wSteps, hSteps := width / g, height / g;
    var wo := 0;
    while wo <= wSteps
      invariant 0 <= wo <= wSteps + 1
      invariant painter.Valid() && painter.img == chess && chess.Width() == width && chess.Height() == height
      invariant fresh(chess.buf) && ChessUpTo(chess, g, wo)
    {
      PaintColumn(painter, g, wo, hSteps);
      wo := wo + 1;
    }
    CellBound(width, g);
  }

  /** chess.fill("#666666"). */
  method FillGrey(chess: Image)
    modifies chess.buf
    ensures forall i, j :: 0 <= i < chess.Width() && 0 <= j < chess.Height() ==> chess.buf[i, j] == GREY
  {
    ConvertColorGrey666("#666666");
    var filled := chess.FillColor("#666666");
  }

  /** The chessboard up to column of cells `wo` and, within that column, up to row of cells `ho`; grey elsewhere. */
  ghost predicate ChessUpToCell(chess: Image, g: nat, wo: nat, ho: nat)
    reads chess, chess.buf
    requires g > 0
  {
    forall i, j :: 0 <= i < chess.Width() && 0 <= j < chess.Height() ==>
      chess.buf[i, j] == if Cell(i, g) < wo || (Cell(i, g) == wo && Cell(j, g) < ho) then ChessColor(g, i, j) else GREY
  }

  /** The inner loop of generateChessboard: the cells (wo, ho) for ho <= height / g. */
  method PaintColumn(painter: TcdPainter, g: nat, wo: nat, hSteps: nat)
    requires painter.Valid() && g > 0 && wo <= Cell(painter.img.Width(), g) && hSteps == Cell(painter.img.Height(), g)
    requires painter.img.Width() + g < UINT32_RANGE && painter.img.Height() + g < UINT32_RANGE
    requires ChessUpTo(painter.img, g, wo)
    modifies painter.img.buf
    ensures ChessUpTo(painter.img, g, wo + 1)
  {
    var chess := painter.img;
    var wrest := wo % 2;
    var ho := 0;
    while ho <= hSteps
      invariant 0 <= ho <= hSteps + 1
      invariant ChessUpToCell(chess, g, wo, ho)
    {
      if ho % 2 == wrest {
        PaintCell(painter, g, wo, ho);
      } else {
        SkipCell(chess, g, wo, ho);
      }
      ho := ho + 1;
    }
    ColumnDone(chess, g, wo);
  }

  /** A cell whose column and row differ in parity is left grey, which is already its chessboard colour. */
  lemma SkipCell(chess: Image, g: nat, wo: nat, ho: nat)
    requires g > 0 && wo % 2 != ho % 2 && ChessUpToCell(chess, g, wo, ho)
    ensures ChessUpToCell(chess, g, wo, ho + 1)
  {
  }

  /** Once every row of cells up to height / g is done, the whole column of cells is. */
  lemma ColumnDone(chess: Image, g: nat, wo: nat)
    requires g > 0 && ChessUpToCell(chess, g, wo, Cell(chess.Height(), g) + 1)
    ensures ChessUpTo(chess, g, wo + 1)
  {
    CellBound(chess.Height(), g);
  }

  lemma WhiteConverts()
    ensures ConvertColor("white") == Success(WHITE)
  {
    ConvertColorNames();
  }

  /** One step of generateChessboard: fillRect(wo * g, ho * g, g, g, "white") on a cell of equal parity. */
  method PaintCell(painter: TcdPainter, g: nat, wo: nat, ho: nat)
    requires painter.Valid() && g > 0 && wo % 2 == ho % 2
    requires wo <= Cell(painter.img.Width(), g) && ho <= Cell(painter.img.Height(), g)
    requires painter.img.Width() + g < UINT32_RANGE && painter.img.Height() + g < UINT32_RANGE
    requires ChessUpToCell(painter.img, g, wo, ho)
    modifies painter.img.buf
    ensures ChessUpToCell(painter.img, g, wo, ho + 1)
  {
    CellOrigin(painter.img.Width(), g, wo);
    CellOrigin(painter.img.Height(), g, ho);
    var x: Uint32, y: Uint32, side: Uint32 := wo * g, ho * g, g;
    WhiteConverts();
    var s := painter.FillRect(x, y, side, side, "white");
    forall i: nat, j: nat
      ensures RectPixel(PointI(x, y), side, side, i, j) <==> Cell(i, g) == wo && Cell(j, g) == ho
    {
      CellIndex(i, g, wo);
      CellIndex(j, g, ho);
    }
  }

  /** A cell no further than n's starts at or before n. */
  lemma CellOrigin(n: nat, g: nat, k: nat)
    requires g > 0 && k <= Cell(n, g)
    ensures k * g <= n
  {
    MulMonotone(k, Cell(n, g), g);
    CellIndex(n, g, Cell(n, g));
  }

  // ---------------------------------------------------------------------------
  // Difference and mask

  /** The pixel of `a` at (i, j) when `a` covers it, otherwise transparent. */
  function Covered(a: array2<Pixel>, i: nat, j: nat): Pixel
    reads a
  {
    if i < a.Length0 && j < a.Length1 then a[i, j] else TRANSPARENT
  }

  /** The pixel at (i, j) after drawing `a` at (0, 0) in difference mode over `under`. */
  function BlendOver(a: array2<Pixel>, i: nat, j: nat, under: Pixel): Pixel
    reads a
  {
    if i < a.Length0 && j < a.Length1 then DifferenceBlend(under, a[i, j]) else under
  }

  /** The difference image at (i, j): A and then B drawn in difference mode over transparent. */
  function DiffAt(a: array2<Pixel>, b: array2<Pixel>, i: nat, j: nat): Pixel
    reads a, b
  {
    BlendOver(b, i, j, BlendOver(a, i, j, TRANSPARENT))
  }

  /** The mask colour: white when any colour channel of the difference is non-zero, black otherwise. */
  function ThresholdPixel(p: Pixel): Pixel
  {
    if p.red > 0 || p.green > 0 || p.blue > 0 then WHITE else BLACK
  }

  /** The mask pixel is black exactly when the difference has brightness 0, and white otherwise. */
  lemma ThresholdByBrightness(p: Pixel)
    ensures ThresholdPixel(p) == BLACK <==> Brightness(p) == 0
    ensures ThresholdPixel(p) == WHITE <==> Brightness(p) > 0
  {
    BrightnessZero(p);
  }

  /**
   * Each colour channel of the difference is |A - B| of the pixels the images show
   * there, an uncovered pixel counting as transparent: so |A - B| where both cover
   * it, the covering image's channel where only one does, and 0 where neither does.
   */
  lemma DiffChannels(a: array2<Pixel>, b: array2<Pixel>, i: nat, j: nat)
    ensures SameRGB(DiffAt(a, b, i, j), DifferenceBlend(Covered(a, i, j), Covered(b, i, j)))
  {
    var pa, pb := Covered(a, i, j), Covered(b, i, j);
    var first := BlendOver(a, i, j, TRANSPARENT);
    if i < a.Length0 && j < a.Length1 {
      DifferenceOverBlack(TRANSPARENT, pa);
    }
    assert first == pa;
    if i < b.Length0 && j < b.Length1 {
      assert DiffAt(a, b, i, j) == DifferenceBlend(pa, pb);
    } else {
      assert pb == TRANSPARENT;
      DifferenceUnderBlack(pa, pb);
    }
  }

  /** The mask is black at (i, j) exactly when the pixels A and B show there (transparent where uncovered) agree in colour. */
  lemma MaskBlackIffSameColor(a: array2<Pixel>, b: array2<Pixel>, i: nat, j: nat)
    ensures ThresholdPixel(DiffAt(a, b, i, j)) == BLACK <==> SameRGB(Covered(a, i, j), Covered(b, i, j))
  {
    DiffChannels(a, b, i, j);
  }

  /** Comparing an image with itself gives an all-black mask. */
  lemma IdenticalMaskBlack(a: array2<Pixel>, i: nat, j: nat)
    ensures ThresholdPixel(DiffAt(a, a, i, j)) == BLACK
  {
    MaskBlackIffSameColor(a, a, i, j);
  }

  /** Swapping A and B gives the same mask. */
  lemma MaskSymmetric(a: array2<Pixel>, b: array2<Pixel>, i: nat, j: nat)
    ensures ThresholdPixel(DiffAt(a, b, i, j)) == ThresholdPixel(DiffAt(b, a, i, j))
  {
    MaskBlackIffSameColor(a, b, i, j);
    MaskBlackIffSameColor(b, a, i, j);
  }

  /** For images of equal size the mask is all black exactly when the images are equal under Image::equals. */
  lemma MaskBlackIffEqual(a: Image, b: Image)
    requires a.Width() == b.Width() && a.Height() == b.Height()
    ensures (forall i, j :: 0 <= i < a.Width() && 0 <= j < a.Height() ==> ThresholdPixel(DiffAt(a.buf, b.buf, i, j)) == BLACK)
            <==> a.RGBEqual(b)
  {
    forall i, j | 0 <= i < a.Width() && 0 <= j < a.Height()
      ensures ThresholdPixel(DiffAt(a.buf, b.buf, i, j)) == BLACK <==> SameRGB(a.buf[i, j], b.buf[i, j])
    {
      MaskBlackIffSameColor(a.buf, b.buf, i, j);
    }
  }

  // ---------------------------------------------------------------------------
  // The joined picture

  /** The larger of the two widths. */
  function MaxWidth(a: array2<Pixel>, b: array2<Pixel>): nat
  {
    Max(a.Length0, b.Length0)
  }

  /** The larger of the two heights. */
  function MaxHeight(a: array2<Pixel>, b: array2<Pixel>): nat
  {
    Max(a.Length1, b.Length1)
  }

  /** The chessboard with A drawn at (0, 0). */
  function WithA(a: array2<Pixel>, g: nat, i: nat, j: nat): Pixel
    reads a
    requires g > 0
  {
    if i < a.Length0 && j < a.Length1 then a[i, j] else ChessColor(g, i, j)
  }

  /** Then B drawn at (w + 20, 0). */
  function WithB(a: array2<Pixel>, b: array2<Pixel>, g: nat, i: nat, j: nat): Pixel
    reads a, b
    requires g > 0
  {
    var right := MaxWidth(a, b) + DIFF_IMAGES_SPACING;
    if right <= i < right + b.Length0 && j < b.Length1 then b[i - right, j] else WithA(a, g, i, j)
  }

  /** Then the mask drawn at (0, h + 20). */
  function WithMask(a: array2<Pixel>, b: array2<Pixel>, g: nat, i: nat, j: nat): Pixel
    reads a, b
    requires g > 0
  {
    var bottom := MaxHeight(a, b) + DIFF_IMAGES_SPACING;
    if i < MaxWidth(a, b) && bottom <= j < bottom + MaxHeight(a, b) then ThresholdPixel(DiffAt(a, b, i, j - bottom))
    else WithB(a, b, g, i, j)
  }

  /**
   * The compared picture at (i, j), for A and B of the larger size w x h: on
   * the chessboard, A at (0, 0), B at (w + 20, 0), the mask at (0, h + 20) and
   * the difference at (w + 20, h + 20), each drawn over the ones before.
   */
  function Joined(a: array2<Pixel>, b: array2<Pixel>, i: nat, j: nat): Pixel
    reads a, b
  {
    WithDiff(a, b, GridSize(2 * MaxWidth(a, b) + DIFF_IMAGES_SPACING, 2 * MaxHeight(a, b) + DIFF_IMAGES_SPACING), i, j)
  }

  /** The last layer: the difference drawn at (w + 20, h + 20) over the chessboard with grid size g and the first three panels. */
  function WithDiff(a: array2<Pixel>, b: array2<Pixel>, g: nat, i: nat, j: nat): Pixel
    reads a, b
    requires g > 0
  {
    var right, bottom := MaxWidth(a, b) + DIFF_IMAGES_SPACING, MaxHeight(a, b) + DIFF_IMAGES_SPACING;
    if right <= i < right + MaxWidth(a, b) && bottom <= j < bottom + MaxHeight(a, b) then DiffAt(a, b, i - right, j - bottom)
    else WithMask(a, b, g, i, j)
  }

  /** Inside the bottom-left panel the layers so far show the mask. */
  lemma JoinedMaskPanel(a: array2<Pixel>, b: array2<Pixel>, g: nat, i: nat, j: nat)
    requires g > 0 && i < MaxWidth(a, b)
    requires MaxHeight(a, b) + DIFF_IMAGES_SPACING <= j < 2 * MaxHeight(a, b) + DIFF_IMAGES_SPACING
    ensures WithMask(a, b, g, i, j) == ThresholdPixel(DiffAt(a, b, i, j - MaxHeight(a, b) - DIFF_IMAGES_SPACING))
  {
  }

  /**
   * The picture compare paints, read from the mask image t and the difference
   * image d it drew: t at (0, h + 20) and d at (w + 20, h + 20) over A and B on
   * the chessboard.
   */
  function MaskDrawn(a: array2<Pixel>, b: array2<Pixel>, g: nat, t: array2<Pixel>, i: nat, j: nat): Pixel
    reads a, b, t
    requires g > 0
  {
    var bottom := MaxHeight(a, b) + DIFF_IMAGES_SPACING;
    if i < t.Length0 && bottom <= j < bottom + t.Length1 then t[i, j - bottom] else WithB(a, b, g, i, j)
  }

  function DiffDrawn(a: array2<Pixel>, b: array2<Pixel>, g: nat, t: array2<Pixel>, d: array2<Pixel>, i: nat, j: nat): Pixel
    reads a, b, t, d
    requires g > 0
  {
    var right, bottom := MaxWidth(a, b) + DIFF_IMAGES_SPACING, MaxHeight(a, b) + DIFF_IMAGES_SPACING;
    if right <= i < right + d.Length0 && bottom <= j < bottom + d.Length1 then d[i - right, j - bottom]
    else MaskDrawn(a, b, g, t, i, j)
  }

  /**
   * When d is the difference image of A and B and t its mask, the picture
   * painted from them is the compared picture.
   */
  lemma DrawnIsJoined(a: array2<Pixel>, b: array2<Pixel>, g: nat, t: array2<Pixel>, d: array2<Pixel>)
    requires g == GridSize(2 * MaxWidth(a, b) + DIFF_IMAGES_SPACING, 2 * MaxHeight(a, b) + DIFF_IMAGES_SPACING)
    requires t.Length0 == d.Length0 == MaxWidth(a, b) && t.Length1 == d.Length1 == MaxHeight(a, b)
    requires forall i, j :: 0 <= i < d.Length0 && 0 <= j < d.Length1 ==> d[i, j] == DiffAt(a, b, i, j)
    requires forall i, j :: 0 <= i < t.Length0 && 0 <= j < t.Length1 ==> t[i, j] == ThresholdPixel(d[i, j])
    ensures forall i: nat, j: nat :: DiffDrawn(a, b, g, t, d, i, j) == Joined(a, b, i, j)
  {
    forall i: nat, j: nat
      ensures DiffDrawn(a, b, g, t, d, i, j) == Joined(a, b, i, j)
    {
      var right, bottom := MaxWidth(a, b) + DIFF_IMAGES_SPACING, MaxHeight(a, b) + DIFF_IMAGES_SPACING;
      if right <= i < right + d.Length0 && bottom <= j < bottom + d.Length1 {
        DrawnDiffPixel(a, b, g, t, d, i, j);
      } else if i < t.Length0 && bottom <= j < bottom + t.Length1 {
        DrawnMaskPixel(a, b, g, t, d, i, j);
      } else {
        DrawnOtherPixel(a, b, g, t, d, i, j);
      }
    }
  }

  /** In the bottom-right panel the painted picture shows the difference image. */
  lemma DrawnDiffPixel(a: array2<Pixel>, b: array2<Pixel>, g: nat, t: array2<Pixel>, d: array2<Pixel>, i: nat, j: nat)
    requires g == GridSize(2 * MaxWidth(a, b) + DIFF_IMAGES_SPACING, 2 * MaxHeight(a, b) + DIFF_IMAGES_SPACING)
    requires d.Length0 == MaxWidth(a, b) && d.Length1 == MaxHeight(a, b)
    requires MaxWidth(a, b) + DIFF_IMAGES_SPACING <= i < 2 * MaxWidth(a, b) + DIFF_IMAGES_SPACING
    requires MaxHeight(a, b) + DIFF_IMAGES_SPACING <= j < 2 * MaxHeight(a, b) + DIFF_IMAGES_SPACING
    requires d[i - (MaxWidth(a, b) + DIFF_IMAGES_SPACING), j - (MaxHeight(a, b) + DIFF_IMAGES_SPACING)] ==
             DiffAt(a, b, i - (MaxWidth(a, b) + DIFF_IMAGES_SPACING), j - (MaxHeight(a, b) + DIFF_IMAGES_SPACING))
    ensures DiffDrawn(a, b, g, t, d, i, j) == Joined(a, b, i, j)
  {
    DiffDrawnPanel(a, b, g, t, d, i, j);
    JoinedDiffPanel(a, b, i, j);
  }

  /** In the bottom-right panel the painted picture reads the difference image. */
  lemma DiffDrawnPanel(a: array2<Pixel>, b: array2<Pixel>, g: nat, t: array2<Pixel>, d: array2<Pixel>, i: nat, j: nat)
    requires g > 0 && d.Length0 == MaxWidth(a, b) && d.Length1 == MaxHeight(a, b)
    requires MaxWidth(a, b) + DIFF_IMAGES_SPACING <= i < 2 * MaxWidth(a, b) + DIFF_IMAGES_SPACING
    requires MaxHeight(a, b) + DIFF_IMAGES_SPACING <= j < 2 * MaxHeight(a, b) + DIFF_IMAGES_SPACING
    ensures DiffDrawn(a, b, g, t, d, i, j) == d[i - (MaxWidth(a, b) + DIFF_IMAGES_SPACING), j - (MaxHeight(a, b) + DIFF_IMAGES_SPACING)]
  {
  }

  /** In the bottom-left panel the painted picture shows the mask. */
  lemma DrawnMaskPixel(a: array2<Pixel>, b: array2<Pixel>, g: nat, t: array2<Pixel>, d: array2<Pixel>, i: nat, j: nat)
    requires g == GridSize(2 * MaxWidth(a, b) + DIFF_IMAGES_SPACING, 2 * MaxHeight(a, b) + DIFF_IMAGES_SPACING)
    requires t.Length0 == d.Length0 == MaxWidth(a, b) && t.Length1 == d.Length1 == MaxHeight(a, b)
    requires i < MaxWidth(a, b) && MaxHeight(a, b) + DIFF_IMAGES_SPACING <= j < 2 * MaxHeight(a, b) + DIFF_IMAGES_SPACING
    requires t[i, j - (MaxHeight(a, b) + DIFF_IMAGES_SPACING)] == ThresholdPixel(d[i, j - (MaxHeight(a, b) + DIFF_IMAGES_SPACING)])
    requires d[i, j - (MaxHeight(a, b) + DIFF_IMAGES_SPACING)] == DiffAt(a, b, i, j - (MaxHeight(a, b) + DIFF_IMAGES_SPACING))
    ensures DiffDrawn(a, b, g, t, d, i, j) == Joined(a, b, i, j)
  {
    MaskDrawnPanel(a, b, g, t, d, i, j);
    JoinedBelowDiff(a, b, i, j);
    JoinedMaskPanel(a, b, g, i, j);
  }

  /** In the bottom-left panel the painted picture reads the mask image. */
  lemma MaskDrawnPanel(a: array2<Pixel>, b: array2<Pixel>, g: nat, t: array2<Pixel>, d: array2<Pixel>, i: nat, j: nat)
    requires g > 0 && t.Length0 == MaxWidth(a, b) && t.Length1 == MaxHeight(a, b)
    requires i < MaxWidth(a, b) && MaxHeight(a, b) + DIFF_IMAGES_SPACING <= j < 2 * MaxHeight(a, b) + DIFF_IMAGES_SPACING
    ensures DiffDrawn(a, b, g, t, d, i, j) == t[i, j - (MaxHeight(a, b) + DIFF_IMAGES_SPACING)]
  {
  }

  /** Outside the bottom-right panel the compared picture shows the first three layers. */
  lemma JoinedBelowDiff(a: array2<Pixel>, b: array2<Pixel>, i: nat, j: nat)
    requires !(MaxWidth(a, b) + DIFF_IMAGES_SPACING <= i < 2 * MaxWidth(a, b) + DIFF_IMAGES_SPACING &&
               MaxHeight(a, b) + DIFF_IMAGES_SPACING <= j < 2 * MaxHeight(a, b) + DIFF_IMAGES_SPACING)
    ensures Joined(a, b, i, j) ==
            WithMask(a, b, GridSize(2 * MaxWidth(a, b) + DIFF_IMAGES_SPACING, 2 * MaxHeight(a, b) + DIFF_IMAGES_SPACING), i, j)
  {
  }

  /** Outside the two bottom panels the painted picture is the chessboard with A and B. */
  lemma DrawnOtherPixel(a: array2<Pixel>, b: array2<Pixel>, g: nat, t: array2<Pixel>, d: array2<Pixel>, i: nat, j: nat)
    requires g == GridSize(2 * MaxWidth(a, b) + DIFF_IMAGES_SPACING, 2 * MaxHeight(a, b) + DIFF_IMAGES_SPACING)
    requires t.Length0 == d.Length0 == MaxWidth(a, b) && t.Length1 == d.Length1 == MaxHeight(a, b)
    requires !(MaxWidth(a, b) + DIFF_IMAGES_SPACING <= i < 2 * MaxWidth(a, b) + DIFF_IMAGES_SPACING &&
               MaxHeight(a, b) + DIFF_IMAGES_SPACING <= j < 2 * MaxHeight(a, b) + DIFF_IMAGES_SPACING)
    requires !(i < MaxWidth(a, b) && MaxHeight(a, b) + DIFF_IMAGES_SPACING <= j < 2 * MaxHeight(a, b) + DIFF_IMAGES_SPACING)
    ensures DiffDrawn(a, b, g, t, d, i, j) == Joined(a, b, i, j)
  {
  }

  /** Inside the bottom-right panel the picture is the difference image. */
  lemma JoinedDiffPanel(a: array2<Pixel>, b: array2<Pixel>, i: nat, j: nat)
    requires MaxWidth(a, b) + DIFF_IMAGES_SPACING <= i < 2 * MaxWidth(a, b) + DIFF_IMAGES_SPACING
    requires MaxHeight(a, b) + DIFF_IMAGES_SPACING <= j < 2 * MaxHeight(a, b) + DIFF_IMAGES_SPACING
    ensures Joined(a, b, i, j) == DiffAt(a, b, i - MaxWidth(a, b) - DIFF_IMAGES_SPACING, j - MaxHeight(a, b) - DIFF_IMAGES_SPACING)
  {
  }

  /** The difference image: w x h, transparent, then A and B drawn at (0, 0) in difference mode. */
  method MakeDiff(imgA: Image, imgB: Image) returns (diff: Image)
    requires imgA.Width() < UINT32_RANGE && imgA.Height() < UINT32_RANGE
    requires imgB.Width() < UINT32_RANGE && imgB.Height() < UINT32_RANGE
    ensures fresh(diff) && fresh(diff.buf)
    ensures diff.Width() == Max(imgA.Width(), imgB.Width()) && diff.Height() == Max(imgA.Height(), imgB.Height())
    ensures forall i, j :: 0 <= i < diff.Width() && 0 <= j < diff.Height() ==> diff.buf[i, j] == DiffAt(imgA.buf, imgB.buf, i, j)
  {
    diff := new Image.Sized(Max(imgA.Width(), imgB.Width()), Max(imgA.Height(), imgB.Height()));
    diff.FillTransparent();
    var painter := new TcdPainter(diff);
    painter.SetCompositionMode(Difference);
    DrawOver(painter, imgA);
    DrawOver(painter, imgB);
  }

  /** drawImage(0, 0, source) of a difference-mode painter: every pixel is the source blended over its old value. */
  method DrawOver(painter: TcdPainter, source: Image)
    requires painter.Valid() && painter.mode == Difference && source.buf != painter.img.buf
    requires source.Width() < UINT32_RANGE && source.Height() < UINT32_RANGE
    modifies painter.img.buf
    ensures forall i, j :: 0 <= i < painter.img.Width() && 0 <= j < painter.img.Height() ==>
      painter.img.buf[i, j] == BlendOver(source.buf, i, j, old(painter.img.buf[i, j]))
  {
    painter.DrawImage(0, 0, source);
  }

  /** The mask: w x h, transparent, then every pixel set "white" or "black" by the difference's colour channels. */
  method MakeThreshold(diff: Image) returns (threshold: Image)
    ensures fresh(threshold) && fresh(threshold.buf)
    ensures threshold.Width() == diff.Width() && threshold.Height() == diff.Height()
    ensures forall i, j :: 0 <= i < diff.Width() && 0 <= j < diff.Height() ==> threshold.buf[i, j] == ThresholdPixel(diff.buf[i, j])
  {
    var width, height := diff.Width(), diff.Height();
    threshold := new Image.Sized(width, height);
    threshold.FillTransparent();
    ConvertColorNames();
    var wo := 0;
    while wo < width
      invariant 0 <= wo <= width && threshold.Width() == width && threshold.Height() == height && fresh(threshold.buf)
      invariant forall i, j :: 0 <= i < width && 0 <= j < height ==>
        threshold.buf[i, j] == if i < wo then ThresholdPixel(diff.buf[i, j]) else TRANSPARENT
    {
      var ho := 0;
      while ho < height
        invariant 0 <= ho <= height && threshold.Width() == width && threshold.Height() == height && fresh(threshold.buf)
        invariant forall i, j :: 0 <= i < width && 0 <= j < height ==>
          threshold.buf[i, j] == if i < wo || (i == wo && j < ho) then ThresholdPixel(diff.buf[i, j]) else TRANSPARENT
      {
        var color := diff.buf[wo, ho];
        var s;
        if color.red > 0 || color.green > 0 || color.blue > 0 {
          s := threshold.SetPixelColor(wo, ho, "white");
        } else {
          s := threshold.SetPixelColor(wo, ho, "black");
        }
        ho := ho + 1;
      }
      wo := wo + 1;
    }
  }

  /**
   * compare(imgA, imgB): two empty images give a 2 x 1 black image; otherwise
   * the (2w + 20) x (2h + 20) picture of the four panels on a chessboard.
   */
  method Compare(imgA: Image, imgB: Image) returns (join: Image)
    requires 2 * Max(imgA.Width(), imgB.Width()) + DIFF_IMAGES_SPACING + CHESS_GRID_SIZE < UINT32_RANGE
    requires 2 * Max(imgA.Height(), imgB.Height()) + DIFF_IMAGES_SPACING + CHESS_GRID_SIZE < UINT32_RANGE
    ensures imgA.IsEmpty() && imgB.IsEmpty() ==>
      join.Width() == 2 && join.Height() == 1 && join.buf[0, 0] == BLACK && join.buf[1, 0] == BLACK
    ensures !(imgA.IsEmpty() && imgB.IsEmpty()) ==>
      join.Width() == 2 * Max(imgA.Width(), imgB.Width()) + DIFF_IMAGES_SPACING &&
      join.Height() == 2 * Max(imgA.Height(), imgB.Height()) + DIFF_IMAGES_SPACING &&
      forall i, j :: 0 <= i < join.Width() && 0 <= j < join.Height() ==> join.buf[i, j] == Joined(imgA.buf, imgB.buf, i, j)
  {
    if imgA.IsEmpty() && imgB.IsEmpty() {
      join := new Image.Sized(2, 1);
      ConvertColorNames();
      var s := join.SetPixelColor(0, 0, "black");
      s := join.SetPixelColor(1, 0, "black");
      return;
    }
    var diff := MakeDiff(imgA, imgB);
    var threshold := MakeThreshold(diff);
    join := Assemble(imgA, imgB, threshold, diff);
  }

  /** The layout step of compare: the chessboard, then A, B, the mask and the difference drawn in destination mode. */
  method Assemble(imgA: Image, imgB: Image, threshold: Image, diff: Image) returns (join: Image)
    requires 2 * MaxWidth(imgA.buf, imgB.buf) + DIFF_IMAGES_SPACING + CHESS_GRID_SIZE < UINT32_RANGE
    requires 2 * MaxHeight(imgA.buf, imgB.buf) + DIFF_IMAGES_SPACING + CHESS_GRID_SIZE < UINT32_RANGE
    requires diff.Width() == threshold.Width() == MaxWidth(imgA.buf, imgB.buf)
    requires diff.Height() == threshold.Height() == MaxHeight(imgA.buf, imgB.buf)
    requires forall i, j :: 0 <= i < diff.Width() && 0 <= j < diff.Height() ==> diff.buf[i, j] == DiffAt(imgA.buf, imgB.buf, i, j)
    requires forall i, j :: 0 <= i < diff.Width() && 0 <= j < diff.Height() ==> threshold.buf[i, j] == ThresholdPixel(diff.buf[i, j])
    ensures fresh(join) && fresh(join.buf)
    ensures join.Width() == 2 * MaxWidth(imgA.buf, imgB.buf) + DIFF_IMAGES_SPACING
    ensures join.Height() == 2 * MaxHeight(imgA.buf, imgB.buf) + DIFF_IMAGES_SPACING
    ensures forall i, j :: 0 <= i < join.Width() && 0 <= j < join.Height() ==> join.buf[i, j] == Joined(imgA.buf, imgB.buf, i, j)
  {
    var w, h := MaxWidth(imgA.buf, imgB.buf), MaxHeight(imgA.buf, imgB.buf);
    var gap: Uint32 := DIFF_IMAGES_SPACING;
    join := GenerateChessboard(2 * w + gap, 2 * h + gap);
    ghost var g := GridSize(2 * w + gap, 2 * h + gap);
    var painter := new TcdPainter(join);
    PlaceInputs(painter, imgA, imgB, g);
    PlaceMask(painter, imgA.buf, imgB.buf, g, threshold);
    PlaceDiff(painter, imgA.buf, imgB.buf, g, threshold, diff);
    DrawnIsJoined(imgA.buf, imgB.buf, g, threshold.buf, diff.buf);
  }

  /** The first two panels: A drawn at (0, 0) and B at (w + 20, 0) over the chessboard, each only when it is not empty. */
  method PlaceInputs(painter: TcdPainter, imgA: Image, imgB: Image, ghost g: nat)
    requires painter.Valid() && painter.mode == Destination && g > 0
    requires imgA.buf != painter.img.buf && imgB.buf != painter.img.buf
    requires 2 * MaxWidth(imgA.buf, imgB.buf) + DIFF_IMAGES_SPACING < UINT32_RANGE
    requires 2 * MaxHeight(imgA.buf, imgB.buf) + DIFF_IMAGES_SPACING < UINT32_RANGE
    requires forall i, j :: 0 <= i < painter.img.Width() && 0 <= j < painter.img.Height() ==> painter.img.buf[i, j] == ChessColor(g, i, j)
    modifies painter.img.buf
    ensures forall i, j :: 0 <= i < painter.img.Width() && 0 <= j < painter.img.Height() ==>
      painter.img.buf[i, j] == WithB(imgA.buf, imgB.buf, g, i, j)
  {
    if !imgA.IsEmpty() {
      Place(painter, 0, 0, imgA);
    }
    assert forall i, j :: 0 <= i < painter.img.Width() && 0 <= j < painter.img.Height() ==>
      painter.img.buf[i, j] == WithA(imgA.buf, g, i, j);
    var right: Uint32 := MaxWidth(imgA.buf, imgB.buf) + DIFF_IMAGES_SPACING;
    if !imgB.IsEmpty() {
      Place(painter, right, 0, imgB);
    }
  }

  /** The third panel: the mask drawn at (0, h + 20) over the chessboard, A and B. */
  method PlaceMask(painter: TcdPainter, a: array2<Pixel>, b: array2<Pixel>, ghost g: nat, threshold: Image)
    requires painter.Valid() && painter.mode == Destination && g > 0
    requires threshold.buf != painter.img.buf && a != painter.img.buf && b != painter.img.buf
    requires 2 * MaxWidth(a, b) + DIFF_IMAGES_SPACING < UINT32_RANGE && 2 * MaxHeight(a, b) + DIFF_IMAGES_SPACING < UINT32_RANGE
    requires threshold.Width() == MaxWidth(a, b) && threshold.Height() == MaxHeight(a, b)
    requires forall i, j :: 0 <= i < painter.img.Width() && 0 <= j < painter.img.Height() ==> painter.img.buf[i, j] == WithB(a, b, g, i, j)
    modifies painter.img.buf
    ensures forall i, j :: 0 <= i < painter.img.Width() && 0 <= j < painter.img.Height() ==>
      painter.img.buf[i, j] == MaskDrawn(a, b, g, threshold.buf, i, j)
  {
    var bottom: Uint32 := MaxHeight(a, b) + DIFF_IMAGES_SPACING;
    Place(painter, 0, bottom, threshold);
  }

  /** The fourth panel: the difference drawn at (w + 20, h + 20) over the rest. */
  method PlaceDiff(painter: TcdPainter, a: array2<Pixel>, b: array2<Pixel>, ghost g: nat, threshold: Image, diff: Image)
    requires painter.Valid() && painter.mode == Destination && g > 0
    requires diff.buf != painter.img.buf && threshold.buf != painter.img.buf && a != painter.img.buf && b != painter.img.buf
    requires 2 * MaxWidth(a, b) + DIFF_IMAGES_SPACING < UINT32_RANGE && 2 * MaxHeight(a, b) + DIFF_IMAGES_SPACING < UINT32_RANGE
    requires diff.Width() == MaxWidth(a, b) && diff.Height() == MaxHeight(a, b)
    requires forall i, j :: 0 <= i < painter.img.Width() && 0 <= j < painter.img.Height() ==>
      painter.img.buf[i, j] == MaskDrawn(a, b, g, threshold.buf, i, j)
    modifies painter.img.buf
    ensures forall i, j :: 0 <= i < painter.img.Width() && 0 <= j < painter.img.Height() ==>
      painter.img.buf[i, j] == DiffDrawn(a, b, g, threshold.buf, diff.buf, i, j)
  {
    var right: Uint32 := MaxWidth(a, b) + DIFF_IMAGES_SPACING;
    var bottom: Uint32 := MaxHeight(a, b) + DIFF_IMAGES_SPACING;
    Place(painter, right, bottom, diff);
  }

  /** drawImage(x, y, source) of a destination-mode painter: the covered pixels take the source's, the rest are unchanged. */
  method Place(painter: TcdPainter, x: Uint32, y: Uint32, source: Image)
    requires painter.Valid() && painter.mode == Destination && source.buf != painter.img.buf
    requires x + source.Width() < UINT32_RANGE && y + source.Height() < UINT32_RANGE
    modifies painter.img.buf
    ensures forall i, j :: 0 <= i < painter.img.Width() && 0 <= j < painter.img.Height() ==>
      painter.img.buf[i, j] == if x <= i < x + source.Width() && y <= j < y + source.Height()
                               then source.buf[i - x, j - y] else old(painter.img.buf[i, j])
  {
    painter.DrawImage(x, y, source);
  }

  /** compare(const Image*, const Image*): a null argument gives an empty image, otherwise compare of the two. */
  method ComparePointers(imgA: Image?, imgB: Image?) returns (join: Image)
    requires imgA != null && imgB != null ==>
      2 * Max(imgA.Width(), imgB.Width()) + DIFF_IMAGES_SPACING + CHESS_GRID_SIZE < UINT32_RANGE &&
      2 * Max(imgA.Height(), imgB.Height()) + DIFF_IMAGES_SPACING + CHESS_GRID_SIZE < UINT32_RANGE
    ensures imgA == null || imgB == null ==> join.IsEmpty()
    ensures imgA != null && imgB != null && imgA.IsEmpty() && imgB.IsEmpty() ==>
      join.Width() == 2 && join.Height() == 1 && join.buf[0, 0] == BLACK && join.buf[1, 0] == BLACK
    ensures imgA != null && imgB != null && !(imgA.IsEmpty() && imgB.IsEmpty()) ==>
      join.Width() == 2 * Max(imgA.Width(), imgB.Width()) + DIFF_IMAGES_SPACING &&
      join.Height() == 2 * Max(imgA.Height(), imgB.Height()) + DIFF_IMAGES_SPACING &&
      forall i, j :: 0 <= i < join.Width() && 0 <= j < join.Height() ==> join.buf[i, j] == Joined(imgA.buf, imgB.buf, i, j)
  {
    if imgA == null || imgB == null {
      join := new Image();
      return;
    }
    join := Compare(imgA, imgB);
  }

  /**
   * compare(imgA, path of B, path of the diff): B as loaded from its file is a
   * parameter and saving the picture is left out; the answer is imgA == B,
   * whatever the picture shows.
   */
  method CompareWithLoaded(imgA: Image, loadedB: Image) returns (same: bool)
    requires 2 * Max(imgA.Width(), loadedB.Width()) + DIFF_IMAGES_SPACING + CHESS_GRID_SIZE < UINT32_RANGE
    requires 2 * Max(imgA.Height(), loadedB.Height()) + DIFF_IMAGES_SPACING + CHESS_GRID_SIZE < UINT32_RANGE
    ensures same <==> imgA.RGBEqual(loadedB)
  {
    var picture := Compare(imgA, loadedB);
    same := imgA.Equals(loadedB);
  }
}
