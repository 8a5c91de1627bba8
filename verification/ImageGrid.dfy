/** The token grid of an image: how a source size is scaled and cut into merged patches. */
module ImageGrid {

  const SIDE := 28

  datatype Result<T> = Ok(value: T) | Err

  datatype Size = Size(height: int, width: int)

  datatype Grid = Grid(rows: int, columns: int)

  /** What the constructor accepts as `max_image_size`. */
  predicate ValidLimit(limit: int) {
    limit >= SIDE && limit % SIDE == 0
  }

  /** Rounding of the exact quotient, ties to the even neighbour. */
  function RoundHalfEven(n: nat, d: nat): nat
    requires d > 0
  {
    var q, r := n / d, n % d;
    if 2 * r < d || (2 * r == d && q % 2 == 0) then q else q + 1
  }

  function Larger(image: Size): int {
    if image.height < image.width then image.width else image.height
  }

  function Smaller(image: Size): int {
    if image.height < image.width then image.height else image.width
  }

  function Scaled(side: nat, larger: nat, limit: nat): nat {
    if larger > limit then RoundHalfEven(side * limit, larger) else side
  }

  /** Division rounds down, also for a side that was rounded to 0. */
  function Patches(side: int): int {
    (side - 1) / SIDE + 1
  }

  function ImageTokenGrid(image: Size, limit: nat): Result<Grid> {
    if image.height <= 0 || image.width <= 0 then Err
    else
      var larger := Larger(image);
      Ok(Grid(Patches(Scaled(image.height, larger, limit)), Patches(Scaled(image.width, larger, limit))))
  }

  function ImageSize(image: Size, limit: nat): Result<Size> {
    match ImageTokenGrid(image, limit)
    case Err => Err
    case Ok(g) => Ok(Size(g.rows * SIDE, g.columns * SIDE))
  }

  function ImageTokenCount(image: Size, limit: nat): Result<int> {
    match ImageTokenGrid(image, limit)
    case Err => Err
    case Ok(g) => Ok(g.rows * g.columns + (g.rows - 1) + 2)
  }

  function MergedPatchCount(size: Size): Result<int> {
    if size.height <= 0 || size.width <= 0 || size.height % SIDE != 0 || size.width % SIDE != 0 then Err
    else Ok((size.height / SIDE) * (size.width / SIDE))
  }

  /** The guard under which a side is lost: the image is scaled down and its smaller side
      would become at most half a pixel. */
  predicate Vanishes(image: Size, limit: nat) {
    Larger(image) > limit && 2 * (Smaller(image) * limit) <= Larger(image)
  }

  // ----- rounding -----

  /** The rounded quotient is nearest, and the even one of two nearest. */
  lemma RoundIsNearest(n: nat, d: nat)
    requires d > 0
    ensures var r := RoundHalfEven(n, d);
            && 2 * n - d <= 2 * (r * d) <= 2 * n + d
            && (2 * (r * d) == 2 * n - d || 2 * (r * d) == 2 * n + d ==> r % 2 == 0)
  {
  }

  lemma NearestIsUnique(n: nat, d: nat, r: nat)
    requires d > 0 && 2 * n - d <= 2 * (r * d) <= 2 * n + d
    requires 2 * (r * d) == 2 * n - d || 2 * (r * d) == 2 * n + d ==> r % 2 == 0
    ensures RoundHalfEven(n, d) == r
  {
    var t := RoundHalfEven(n, d);
    RoundIsNearest(n, d);
    if r < t {
      Apart(r, t, d);
    } else if t < r {
      Apart(t, r, d);
    }
  }

  lemma ProductsInOrder(a: nat, b: nat, d: nat)
    requires a <= b
    ensures a * d <= b * d
  {
  }

  lemma Apart(a: nat, b: nat, d: nat)
    requires a < b
    ensures a * d + d <= b * d
    ensures b > a + 1 ==> a * d + 2 * d <= b * d
  {
    ProductsInOrder(a + 1, b, d);
    if b > a + 1 {
      ProductsInOrder(a + 2, b, d);
    }
  }

  lemma RoundExact(d: nat, r: nat)
    requires d > 0
    ensures RoundHalfEven(d * r, d) == r
  {
  }

  lemma RoundAtMost(n: nat, d: nat, bound: nat)
    requires d > 0 && n <= bound * d
    ensures RoundHalfEven(n, d) <= bound
  {
  }

  lemma RoundsToZero(n: nat, d: nat)
    requires d > 0
    ensures RoundHalfEven(n, d) == 0 <==> 2 * n <= d
  {
  }

  /** The larger side becomes the limit; the other stays below it, and becomes 0 exactly
      when it would have been at most half a pixel. */
  lemma ScaledSide(side: nat, larger: nat, limit: nat)
    requires 0 < side <= larger && 0 < limit < larger
    ensures Scaled(larger, larger, limit) == limit
    ensures Scaled(side, larger, limit) <= limit
    ensures Scaled(side, larger, limit) == 0 <==> 2 * (side * limit) <= larger
  {
    RoundExact(larger, limit);
    assert side * limit <= limit * larger by {
      assert (larger - side) * limit >= 0;
    }
    RoundAtMost(side * limit, larger, limit);
    RoundsToZero(side * limit, larger);
  }

  lemma SidesFit(image: Size, limit: nat)
    requires image.height > 0 && image.width > 0 && ValidLimit(limit)
    ensures var h, w := Scaled(image.height, Larger(image), limit), Scaled(image.width, Larger(image), limit);
            && 0 <= h <= limit && 0 <= w <= limit
            && (h == 0 || w == 0 <==> Vanishes(image, limit))
            && (Larger(image) > limit ==> h == limit || w == limit)
  {
    var larger := Larger(image);
    if larger > limit {
      ScaledSide(image.height, larger, limit);
      ScaledSide(image.width, larger, limit);
      ScaledSide(Smaller(image), larger, limit);
      assert 2 * (larger * limit) > larger by {
        assert larger * (2 * limit - 1) > 0;
      }
    }
  }

  /** `Patches` is the fewest patches that cover the side. */
  lemma PatchesCover(side: nat)
    ensures (Patches(side) - 1) * SIDE < side <= Patches(side) * SIDE
    ensures Patches(Patches(side) * SIDE) == Patches(side)
    ensures forall limit: nat | side <= limit && ValidLimit(limit) :: Patches(side) * SIDE <= limit
  {
  }

  // ----- what the grid promises -----

  /** Every positive size has a grid, the fewest patches covering the scaled image, and its
      size in pixels is within the limit. */
  lemma GridCoversImage(image: Size, limit: nat)
    requires ValidLimit(limit)
    ensures ImageTokenGrid(image, limit).Ok? <==> image.height > 0 && image.width > 0
    ensures ImageTokenGrid(image, limit).Ok? ==>
              var g, size := ImageTokenGrid(image, limit).value, ImageSize(image, limit).value;
              var h, w := Scaled(image.height, Larger(image), limit), Scaled(image.width, Larger(image), limit);
              && size.height - SIDE < h <= size.height <= limit
              && size.width - SIDE < w <= size.width <= limit
              && (Vanishes(image, limit) <==> g.rows < 1 || g.columns < 1)
  {
    if image.height > 0 && image.width > 0 {
      SidesFit(image, limit);
      PatchesCover(Scaled(image.height, Larger(image), limit));
      PatchesCover(Scaled(image.width, Larger(image), limit));
    }
  }

  /** `scaled` is the side of an image multiplied by `limit` over `larger` and rounded to the
      nearest integer, the even one of two. */
  ghost predicate IsScaled(scaled: int, side: int, larger: int, limit: int) {
    var off := 2 * (scaled * larger) - 2 * (side * limit);
    -larger <= off <= larger && (off == larger || off == -larger ==> scaled % 2 == 0)
  }

  /** The grid keeps the shape of the image: an image within the limit is covered as it is, a
      larger one after both sides were scaled by one factor that brings the larger side to the
      limit. */
  lemma GridKeepsShape(image: Size, limit: nat) returns (height: int, width: int)
    requires ValidLimit(limit) && image.height > 0 && image.width > 0
    ensures var larger := if image.height < image.width then image.width else image.height;
            if larger <= limit then height == image.height && width == image.width
            else IsScaled(height, image.height, larger, limit) && IsScaled(width, image.width, larger, limit)
    ensures ImageTokenGrid(image, limit).Ok?
    ensures var g := ImageTokenGrid(image, limit).value;
            && (g.rows - 1) * 28 < height <= g.rows * 28
            && (g.columns - 1) * 28 < width <= g.columns * 28
  {
    var larger := Larger(image);
    height, width := Scaled(image.height, larger, limit), Scaled(image.width, larger, limit);
    GridCoversImage(image, limit);
    if larger > limit {
      RoundIsNearest(image.height * limit, larger);
      RoundIsNearest(image.width * limit, larger);
    }
  }

  /** A resized size is accepted exactly when it is a whole, positive number of patches each
      way, and then stands for their product. */
  lemma MergedPatchCountIff(size: Size, rows: int, columns: int)
    ensures rows >= 1 && columns >= 1 && size == Size(rows * 28, columns * 28) ==> MergedPatchCount(size) == Ok(rows * columns)
    ensures MergedPatchCount(size).Ok? ==>
              && size.height / 28 >= 1 && size.width / 28 >= 1
              && size == Size(size.height / 28 * 28, size.width / 28 * 28)
  {
  }

  /** Resizing a resized image changes nothing, except when a side was rounded to 0: then the
      resized image has no grid at all. */
  lemma ImageSizeIdempotentIff(image: Size, limit: nat)
    requires ValidLimit(limit) && image.height > 0 && image.width > 0
    ensures var size := ImageSize(image, limit).value;
            if Vanishes(image, limit) then ImageSize(size, limit) == Err else ImageSize(size, limit) == Ok(size)
  {
    GridCoversImage(image, limit);
    PatchesCover(Scaled(image.height, Larger(image), limit));
    PatchesCover(Scaled(image.width, Larger(image), limit));
  }

  /** The model's feature count for the resized image is the grid's area, exactly when no
      side was rounded to 0; otherwise the resized size is rejected. */
  lemma PatchesMatchGrid(image: Size, limit: nat)
    requires ValidLimit(limit) && image.height > 0 && image.width > 0
    ensures var g, size := ImageTokenGrid(image, limit).value, ImageSize(image, limit).value;
            MergedPatchCount(size) == if Vanishes(image, limit) then Err else Ok(g.rows * g.columns)
  {
    GridCoversImage(image, limit);
  }

  /** A side does get lost: a 1 by 3000 strip under the default limit of 1400. */
  lemma ThinStripVanishes()
    ensures ImageSize(Size(1, 3000), 1400) == Ok(Size(0, 1400))
    ensures ImageTokenGrid(Size(0, 1400), 1400) == Err
    ensures ImageTokenCount(Size(1, 3000), 1400) == Ok(1)
  {
  }
}
