/**
 * What the compositing step draws, without the pixels: each mask becomes a
 * `Paint` record in the frame translated to the mask centre and rotated by
 * its rotation. An emoji mask is one glyph; a mosaic mask is a grid of flat
 * blocks, each coloured from one sampled pixel of the clamped source region
 * and clipped to a circle; a blur mask resamples that source region.
 */
module Compositing {
  import opened Wrappers
  import opened Geometry
  import opened Masks

  /** An axis-aligned rectangle of the source image. */
  datatype Region = Region(x: real, y: real, w: real, h: real)

  /**
   * The source rectangle a mosaic or blur mask reads: the mask's square
   * `centre ± size/2`, with its left and top edges clamped to 0 and its width
   * and height cut at the image's right and bottom edges.
   */
  function SourceRegion(m: Mask, naturalWidth: real, naturalHeight: real): (r: Region)
    ensures 0.0 <= r.x && 0.0 <= r.y
    ensures r.x + r.w <= naturalWidth && r.y + r.h <= naturalHeight
    ensures r.w <= m.size && r.h <= m.size
    ensures m.x - m.size / 2.0 <= r.x && m.y - m.size / 2.0 <= r.y
    ensures 0.0 <= m.x - m.size / 2.0 && m.x + m.size / 2.0 <= naturalWidth ==>
      r.x == m.x - m.size / 2.0 && r.w == m.size
    ensures 0.0 <= m.y - m.size / 2.0 && m.y + m.size / 2.0 <= naturalHeight ==>
      r.y == m.y - m.size / 2.0 && r.h == m.size
    ensures r.x == 0.0 || r.x == m.x - m.size / 2.0
    ensures r.y == 0.0 || r.y == m.y - m.size / 2.0
    ensures r.w == m.size || r.x + r.w == naturalWidth
    ensures r.h == m.size || r.y + r.h == naturalHeight
  {
    var srcX := Max(0.0, m.x - m.size / 2.0);
    var srcY := Max(0.0, m.y - m.size / 2.0);
    Region(srcX, srcY, Min(m.size, naturalWidth - srcX), Min(m.size, naturalHeight - srcY))
  }

  /** The mosaic block edge: an eighth of the mask size, rounded down, and never below 8. */
  function BlockSize(size: real): (b: int)
    ensures 8 <= b
    ensures b == 8 || (b as real <= size / 8.0 < b as real + 1.0)
    ensures 64.0 <= size ==> b as real <= size / 8.0 < b as real + 1.0
  {
    var f := (size / 8.0).Floor;
    if 8 >= f then 8 else f
  }

  /** The loop positions `0, step, 2*step, …` from `start` that stay below `limit`. */
  function StepsFrom(start: int, limit: real, step: int): (r: seq<int>)
    requires 0 <= start && 0 < step
    ensures forall k :: 0 <= k < |r| ==> start <= r[k] && (r[k] as real) < limit
    decreases if (start as real) < limit then limit.Floor + 1 - start else 0
  {
    if (start as real) < limit then [start] + StepsFrom(start + step, limit, step) else []
  }

  /** The `k`-th loop position is `start + k * step`. */
  lemma {:induction false} StepsClosedForm(start: int, limit: real, step: int)
    requires 0 <= start && 0 < step
    ensures forall k :: 0 <= k < |StepsFrom(start, limit, step)| ==> StepsFrom(start, limit, step)[k] == start + k * step
    decreases if (start as real) < limit then limit.Floor + 1 - start else 0
  {
    var r := StepsFrom(start, limit, step);
    if (start as real) < limit {
      StepsClosedForm(start + step, limit, step);
      var rest := StepsFrom(start + step, limit, step);
      forall k | 0 < k < |r|
        ensures r[k] == start + k * step
      {
        MulPred(k, step);
        assert r[k] == rest[k - 1];
      }
    }
  }

  /** There are just enough loop positions: one more step from the start would pass the limit. */
  lemma {:induction false} StepsCount(start: int, limit: real, step: int)
    requires 0 <= start && 0 < step
    ensures limit <= (start + |StepsFrom(start, limit, step)| * step) as real
    decreases if (start as real) < limit then limit.Floor + 1 - start else 0
  {
    if (start as real) < limit {
      var n := |StepsFrom(start + step, limit, step)|;
      StepsCount(start + step, limit, step);
      MulPred(n + 1, step);
    }
  }

  lemma MulPred(k: int, step: int)
    ensures k * step == (k - 1) * step + step
  {
  }

  /**
   * One mosaic block: the loop position `(left, top)` of its corner, the
   * offset at which it is painted from the grid's origin, and the pixel
   * `(sampleX, sampleY)` of the clamped source region that gives it its
   * colour. Both are offsets from a corner: the sample from the region's,
   * the painted corner from the grid origin's (see `Paint`).
   */
  datatype Block = Block(left: int, top: int, sampleX: real, sampleY: real)

  /** The block at `(left, top)` samples `(min(left, srcW - 1), min(top, srcH - 1))`. */
  function BlockAt(left: int, top: int, srcW: real, srcH: real): Block {
    Block(left, top, Min(left as real, srcW - 1.0), Min(top as real, srcH - 1.0))
  }

  /** The blocks of one column `left`, one per row position in `rows`. */
  function Column(left: int, rows: seq<int>, srcW: real, srcH: real): (r: seq<Block>)
    ensures |r| == |rows|
    ensures forall k :: 0 <= k < |rows| ==> r[k] == BlockAt(left, rows[k], srcW, srcH)
  {
    if |rows| == 0 then [] else Column(left, rows[..|rows| - 1], srcW, srcH) + [BlockAt(left, rows[|rows| - 1], srcW, srcH)]
  }

  /** All blocks, column by column, as the outer loop over `bx` and the inner loop over `by` visit them. */
  function Grid(cols: seq<int>, rows: seq<int>, srcW: real, srcH: real): seq<Block>
  {
    if |cols| == 0 then [] else Grid(cols[..|cols| - 1], rows, srcW, srcH) + Column(cols[|cols| - 1], rows, srcW, srcH)
  }

  /**
   * The blocks a mosaic mask paints: none exactly when the clamped region is
   * empty, and otherwise a grid starting with the block at the region's corner.
   */
  function MosaicBlocks(m: Mask, naturalWidth: real, naturalHeight: real): (blocks: seq<Block>)
    ensures var r := SourceRegion(m, naturalWidth, naturalHeight);
      blocks == [] <==> r.w <= 0.0 || r.h <= 0.0
    ensures var r := SourceRegion(m, naturalWidth, naturalHeight);
      0.0 < r.w && 0.0 < r.h ==> BlockAt(0, 0, r.w, r.h) in blocks
  {
    var r := SourceRegion(m, naturalWidth, naturalHeight);
    var b := BlockSize(m.size);
    var xs, ys := StepsFrom(0, r.w, b), StepsFrom(0, r.h, b);
    GridLength(xs, ys, r.w, r.h);
    GridCorner(xs, ys, r.w, r.h);
    Grid(xs, ys, r.w, r.h)
  }

  /** A grid with a column and a row has the block of its first column and first row. */
  lemma GridCorner(cols: seq<int>, rows: seq<int>, srcW: real, srcH: real)
    ensures 0 < |cols| && 0 < |rows| ==> BlockAt(cols[0], rows[0], srcW, srcH) in Grid(cols, rows, srcW, srcH)
  {
    if 0 < |cols| && 0 < |rows| {
      GridHasBlock(cols, rows, srcW, srcH, 0, 0);
    }
  }

  /** The nested block loop of the mosaic mask. */
  method DrawMosaic(m: Mask, naturalWidth: real, naturalHeight: real) returns (blocks: seq<Block>)
    ensures blocks == MosaicBlocks(m, naturalWidth, naturalHeight)
  {
    var r := SourceRegion(m, naturalWidth, naturalHeight);
    blocks := DrawGrid(r.w, r.h, BlockSize(m.size));
  }

  /** The outer loop of the mosaic, over the block columns `bx` of a `srcW` by `srcH` source region. */
  method DrawGrid(srcW: real, srcH: real, blockSize: int) returns (blocks: seq<Block>)
    requires 0 < blockSize
    ensures blocks == Grid(StepsFrom(0, srcW, blockSize), StepsFrom(0, srcH, blockSize), srcW, srcH)
  {
    ghost var rows := StepsFrom(0, srcH, blockSize);
    ghost var doneX: seq<int> := [];
    blocks := [];
    var bx := 0;
    while (bx as real) < srcW
      invariant 0 <= bx
      invariant doneX + StepsFrom(bx, srcW, blockSize) == StepsFrom(0, srcW, blockSize)
      invariant blocks == Grid(doneX, rows, srcW, srcH)
      decreases srcW.Floor + 1 - bx
    {
      var column := DrawColumn(bx, srcW, srcH, blockSize);
      StepsSnoc(doneX, bx, srcW, blockSize);
      GridSnoc(doneX, bx, rows, srcW, srcH);
      blocks := blocks + column;
      doneX := doneX + [bx];
      bx := bx + blockSize;
    }
    assert doneX == StepsFrom(0, srcW, blockSize);
  }

  /** The inner loop of the mosaic, over the rows `by` of block column `bx`. */
  method DrawColumn(bx: int, srcW: real, srcH: real, blockSize: int) returns (column: seq<Block>)
    requires 0 < blockSize
    ensures column == Column(bx, StepsFrom(0, srcH, blockSize), srcW, srcH)
  {
    ghost var doneY: seq<int> := [];
    column := [];
    var y := 0;
    while (y as real) < srcH
      invariant 0 <= y
      invariant doneY + StepsFrom(y, srcH, blockSize) == StepsFrom(0, srcH, blockSize)
      invariant column == Column(bx, doneY, srcW, srcH)
      decreases srcH.Floor + 1 - y
    {
      StepsSnoc(doneY, y, srcH, blockSize);
      ColumnSnoc(bx, doneY, y, srcW, srcH);
      column := column + [BlockAt(bx, y, srcW, srcH)];
      doneY := doneY + [y];
      y := y + blockSize;
    }
    assert doneY == StepsFrom(0, srcH, blockSize);
  }

  lemma StepsSnoc(done: seq<int>, start: int, limit: real, step: int)
    requires 0 <= start && 0 < step && (start as real) < limit
    ensures done + StepsFrom(start, limit, step) == (done + [start]) + StepsFrom(start + step, limit, step)
  {
  }

  lemma ColumnSnoc(bx: int, rows: seq<int>, y: int, srcW: real, srcH: real)
    ensures Column(bx, rows + [y], srcW, srcH) == Column(bx, rows, srcW, srcH) + [BlockAt(bx, y, srcW, srcH)]
  {
    assert (rows + [y])[..|rows|] == rows;
  }

  lemma GridSnoc(cols: seq<int>, bx: int, rows: seq<int>, srcW: real, srcH: real)
    ensures Grid(cols + [bx], rows, srcW, srcH) == Grid(cols, rows, srcW, srcH) + Column(bx, rows, srcW, srcH)
  {
    assert (cols + [bx])[..|cols|] == cols;
  }

  lemma {:induction false} GridLength(cols: seq<int>, rows: seq<int>, srcW: real, srcH: real)
    ensures |Grid(cols, rows, srcW, srcH)| == |cols| * |rows|
  {
    if |cols| > 0 {
      GridLength(cols[..|cols| - 1], rows, srcW, srcH);
      assert (|cols| - 1) * |rows| + |rows| == |cols| * |rows|;
    }
  }

  /** Every block of a grid is built from one column position and one row position. */
  lemma {:induction false} GridMembers(cols: seq<int>, rows: seq<int>, srcW: real, srcH: real)
    ensures forall b :: b in Grid(cols, rows, srcW, srcH) ==>
      b.left in cols && b.top in rows && b == BlockAt(b.left, b.top, srcW, srcH)
  {
    if |cols| > 0 {
      GridMembers(cols[..|cols| - 1], rows, srcW, srcH);
      forall b | b in Grid(cols, rows, srcW, srcH)
        ensures b.left in cols && b.top in rows && b == BlockAt(b.left, b.top, srcW, srcH)
      {
        if b in Grid(cols[..|cols| - 1], rows, srcW, srcH) {
          assert b.left in cols[..|cols| - 1];
        } else {
          var c := Column(cols[|cols| - 1], rows, srcW, srcH);
          var k :| 0 <= k < |c| && c[k] == b;
          assert b.top == rows[k];
        }
      }
    }
  }

  /** Every pair of a column position and a row position has its block in the grid. */
  lemma {:induction false} GridHasBlock(cols: seq<int>, rows: seq<int>, srcW: real, srcH: real, i: int, j: int)
    requires 0 <= i < |cols| && 0 <= j < |rows|
    ensures BlockAt(cols[i], rows[j], srcW, srcH) in Grid(cols, rows, srcW, srcH)
  {
    var c := Column(cols[|cols| - 1], rows, srcW, srcH);
    if i == |cols| - 1 {
      assert c[j] == BlockAt(cols[i], rows[j], srcW, srcH);
    } else {
      GridHasBlock(cols[..|cols| - 1], rows, srcW, srcH, i, j);
    }
  }

  /** The positions from `start` cover `[start, limit)` in consecutive steps of `step`. */
  lemma {:induction false} StepsCover(start: int, limit: real, step: int, p: real)
    requires 0 <= start && 0 < step && start as real <= p < limit
    ensures exists k :: (0 <= k < |StepsFrom(start, limit, step)| &&
      StepsFrom(start, limit, step)[k] as real <= p < (StepsFrom(start, limit, step)[k] + step) as real)
    decreases limit.Floor + 1 - start
  {
    var r := StepsFrom(start, limit, step);
    if p < (start + step) as real {
      assert r[0] == start;
    } else {
      StepsCover(start + step, limit, step, p);
      var rest := StepsFrom(start + step, limit, step);
      var k :| 0 <= k < |rest| && rest[k] as real <= p < (rest[k] + step) as real;
      assert r[k + 1] == rest[k];
    }
  }

  predicate InRegion(r: Region, px: real, py: real) {
    0.0 <= px < r.w && 0.0 <= py < r.h
  }

  /** The point `(px, py)` of the source region lies in block `blk` of edge `b`. */
  predicate InBlock(blk: Block, b: int, px: real, py: real) {
    (blk.left as real) <= px < (blk.left + b) as real && (blk.top as real) <= py < (blk.top + b) as real
  }

  /**
   * The mosaic grid has one block per column and row position, every block
   * starts inside the clamped source region, and each block takes its colour
   * from a pixel at most one pixel before its own corner and never past the
   * region's last pixel; that pixel lies inside the region once the region is
   * at least one pixel wide and high.
   */
  lemma MosaicBlocksInRegion(m: Mask, naturalWidth: real, naturalHeight: real)
    ensures var r := SourceRegion(m, naturalWidth, naturalHeight);
      var b := BlockSize(m.size);
      var blocks := MosaicBlocks(m, naturalWidth, naturalHeight);
      && |blocks| == |StepsFrom(0, r.w, b)| * |StepsFrom(0, r.h, b)|
      && (forall blk :: blk in blocks ==>
           && 0 <= blk.left && (blk.left as real) < r.w && 0 <= blk.top && (blk.top as real) < r.h
           && (blk.left as real) - 1.0 < blk.sampleX <= blk.left as real && blk.sampleX <= r.w - 1.0
           && (blk.top as real) - 1.0 < blk.sampleY <= blk.top as real && blk.sampleY <= r.h - 1.0
           && (1.0 <= r.w ==> 0.0 <= blk.sampleX) && (1.0 <= r.h ==> 0.0 <= blk.sampleY))
  {
    var r := SourceRegion(m, naturalWidth, naturalHeight);
    GridInRegion(r.w, r.h, BlockSize(m.size));
  }

  /** `MosaicBlocksInRegion` for any `srcW` by `srcH` region and block edge `b`. */
  lemma GridInRegion(srcW: real, srcH: real, b: int)
    requires 0 < b
    ensures var blocks := Grid(StepsFrom(0, srcW, b), StepsFrom(0, srcH, b), srcW, srcH);
      && |blocks| == |StepsFrom(0, srcW, b)| * |StepsFrom(0, srcH, b)|
      && (forall blk :: blk in blocks ==>
           && 0 <= blk.left && (blk.left as real) < srcW && 0 <= blk.top && (blk.top as real) < srcH
           && (blk.left as real) - 1.0 < blk.sampleX <= blk.left as real && blk.sampleX <= srcW - 1.0
           && (blk.top as real) - 1.0 < blk.sampleY <= blk.top as real && blk.sampleY <= srcH - 1.0
           && (1.0 <= srcW ==> 0.0 <= blk.sampleX) && (1.0 <= srcH ==> 0.0 <= blk.sampleY))
  {
    var xs, ys := StepsFrom(0, srcW, b), StepsFrom(0, srcH, b);
    GridLength(xs, ys, srcW, srcH);
    GridMembers(xs, ys, srcW, srcH);
  }

  /** The mosaic grid tiles the whole clamped source region: every point of it lies in some block. */
  lemma MosaicCoversRegion(m: Mask, naturalWidth: real, naturalHeight: real, px: real, py: real)
    requires InRegion(SourceRegion(m, naturalWidth, naturalHeight), px, py)
    ensures exists blk :: blk in MosaicBlocks(m, naturalWidth, naturalHeight) && InBlock(blk, BlockSize(m.size), px, py)
  {
    var r := SourceRegion(m, naturalWidth, naturalHeight);
    var b := BlockSize(m.size);
    var xs, ys := StepsFrom(0, r.w, b), StepsFrom(0, r.h, b);
    StepsCover(0, r.w, b, px);
    StepsCover(0, r.h, b, py);
    var i :| 0 <= i < |xs| && xs[i] as real <= px < (xs[i] + b) as real;
    var j :| 0 <= j < |ys| && ys[j] as real <= py < (ys[j] + b) as real;
    GridHasBlock(xs, ys, r.w, r.h, i, j);
    assert InBlock(BlockAt(xs[i], ys[j], r.w, r.h), b, px, py);
  }

  /** A mask's region that lies wholly past the image's right edge yields no mosaic blocks. */
  lemma MosaicEmptyOffImage(m: Mask, naturalWidth: real, naturalHeight: real)
    requires naturalWidth <= m.x - m.size / 2.0
    ensures MosaicBlocks(m, naturalWidth, naturalHeight) == []
  {
    var r := SourceRegion(m, naturalWidth, naturalHeight);
    assert StepsFrom(0, r.w, BlockSize(m.size)) == [];
  }

  /**
   * What drawing one mask paints, in the frame translated to `(x, y)` and
   * rotated by `rotation`. A pixelation paints its block grid from `origin`,
   * and a blur draws its resampled copy of the source region with its corner
   * at `origin`, both in that frame.
   */
  datatype Paint =
    | Glyph(emoji: string, x: real, y: real, fontSize: real, rotation: real)
    | Pixelate(x: real, y: real, rotation: real, clipRadius: real, blockSize: int, origin: Point, region: Region,
               blocks: seq<Block>)
    | Blurred(x: real, y: real, rotation: real, clipRadius: real, origin: Point, region: Region, reduced: Region)

  /** The blur's intermediate copy: the source region shrunk to 10% in each direction. */
  function Reduced(r: Region): Region {
    Region(0.0, 0.0, r.w * 0.1, r.h * 0.1)
  }

  /**
   * The corner of the mask's square in the frame centred on the mask,
   * `(-size/2, -size/2)`: where `drawMask` has the mosaic grid and the blur
   * copy start, wherever the sampled region was clamped to.
   */
  function SquareCorner(m: Mask): Point {
    Point(-m.size / 2.0, -m.size / 2.0)
  }

  /** The mask's square is not clamped at the image's left or top edge. */
  predicate UnclampedTopLeft(m: Mask) {
    0.0 <= m.x - m.size / 2.0 && 0.0 <= m.y - m.size / 2.0
  }

  /**
   * The corner of the clamped source region in the frame centred on the
   * mask: where the mosaic grid and the blur copy must start to land on the
   * pixels they were read from. It is the square's corner whenever the square
   * is not clamped at the left or top edge.
   */
  function RegionCorner(m: Mask, naturalWidth: real, naturalHeight: real): (o: Point)
    ensures UnclampedTopLeft(m) ==> o == SquareCorner(m)
  {
    var r := SourceRegion(m, naturalWidth, naturalHeight);
    Point(r.x - m.x, r.y - m.y)
  }

  /** Where block `blk` is painted, in the frame centred on the mask, for a grid starting at `origin`. */
  function PaintedCorner(origin: Point, blk: Block): Point {
    Point(origin.x + blk.left as real, origin.y + blk.top as real)
  }

  /** Where the colour of block `blk` is read, in the frame centred on mask `m`, for source region `r`. */
  function SampledAt(m: Mask, r: Region, blk: Block): Point {
    Point(r.x + blk.sampleX - m.x, r.y + blk.sampleY - m.y)
  }

  /** The pixel that colours a block is under it: it starts at the block's corner or less than a pixel before. */
  predicate SamplesOwnBlock(origin: Point, m: Mask, r: Region, blk: Block) {
    var c := PaintedCorner(origin, blk);
    var p := SampledAt(m, r, blk);
    c.x - 1.0 < p.x <= c.x && c.y - 1.0 < p.y <= c.y
  }

  /** A copy of source region `r` drawn from `origin`, in the frame centred on `m`, covers `r` itself. */
  predicate CopiedInPlace(origin: Point, m: Mask, r: Region) {
    Region(m.x + origin.x, m.y + origin.y, r.w, r.h) == r
  }

  /** With the grid painted from the region's corner, every block is coloured from a pixel under it. */
  lemma MosaicSamplesOwnBlock(m: Mask, naturalWidth: real, naturalHeight: real)
    ensures forall blk :: blk in MosaicBlocks(m, naturalWidth, naturalHeight) ==>
      SamplesOwnBlock(RegionCorner(m, naturalWidth, naturalHeight), m, SourceRegion(m, naturalWidth, naturalHeight), blk)
  {
    MosaicBlocksInRegion(m, naturalWidth, naturalHeight);
  }

  /**
   * `drawMask`: the paint of one mask, by its type (emoji when it has none),
   * at the mask's centre and with its rotation (0 when it has none). The
   * mosaic grid and the blur copy start at the square's corner; when the
   * square is not clamped at the left or top, each block is coloured from a
   * pixel under it and the blur copy lands on the region it was read from.
   */
  function PaintOf(m: Mask, naturalWidth: real, naturalHeight: real): (p: Paint)
    ensures p.x == m.x && p.y == m.y && p.rotation == RotationOf(m)
    ensures p.Glyph? <==> KindOf(m) == Emoji
    ensures p.Pixelate? <==> KindOf(m) == Mosaic
    ensures p.Blurred? <==> KindOf(m) == Blur
    ensures p.Glyph? ==> p.emoji == m.emoji && p.fontSize == m.size
    ensures !p.Glyph? ==>
      && 2.0 * p.clipRadius == m.size && p.region == SourceRegion(m, naturalWidth, naturalHeight)
      && p.origin == SquareCorner(m)
    ensures p.Pixelate? ==> p.blockSize == BlockSize(m.size) && p.blocks == MosaicBlocks(m, naturalWidth, naturalHeight)
    ensures p.Pixelate? && UnclampedTopLeft(m) ==> forall blk :: blk in p.blocks ==> SamplesOwnBlock(p.origin, m, p.region, blk)
    ensures p.Blurred? ==> p.reduced == Reduced(p.region)
    ensures p.Blurred? && UnclampedTopLeft(m) ==> CopiedInPlace(p.origin, m, p.region)
  {
    MosaicSamplesOwnBlock(m, naturalWidth, naturalHeight);
    var r := SourceRegion(m, naturalWidth, naturalHeight);
    match KindOf(m)
    case Mosaic =>
      Pixelate(m.x, m.y, RotationOf(m), m.size / 2.0, BlockSize(m.size), SquareCorner(m), r,
               MosaicBlocks(m, naturalWidth, naturalHeight))
    case Blur =>
      Blurred(m.x, m.y, RotationOf(m), m.size / 2.0, SquareCorner(m), r, Reduced(r))
    case Emoji =>
      Glyph(m.emoji, m.x, m.y, m.size, RotationOf(m))
  }

  /**
   * As written, a mask clamped at the left edge is painted shifted away from
   * the pixels it reads. For a 100 px mask centred at (10, 50) on an image at
   * least 100 px wide and high, the source region starts at x = 0. A mosaic
   * paints its first block at -50 in the mask's frame but colours it from the
   * pixel at -10, 40 px to the right and outside the 12 px block; a blur
   * draws the region's copy from image x = -40 instead of 0.
   */
  lemma ClampShiftAsWritten(naturalWidth: real, naturalHeight: real)
    requires 100.0 <= naturalWidth && 100.0 <= naturalHeight
    ensures var m := Mask("m", 10.0, 50.0, 100.0, None, None, "e", Some(Mosaic), None, true, 0);
      var p := PaintOf(m, naturalWidth, naturalHeight);
      var blk := Block(0, 0, 0.0, 0.0);
      && p.region == Region(0.0, 0.0, 100.0, 100.0)
      && blk in p.blocks && p.blockSize == 12
      && PaintedCorner(p.origin, blk) == Point(-50.0, -50.0)
      && SampledAt(m, p.region, blk) == Point(-10.0, -50.0)
      && !SamplesOwnBlock(p.origin, m, p.region, blk)
    ensures var m := Mask("m", 10.0, 50.0, 100.0, None, None, "e", Some(Blur), None, true, 0);
      var p := PaintOf(m, naturalWidth, naturalHeight);
      && p.region == Region(0.0, 0.0, 100.0, 100.0)
      && m.x + p.origin.x == -40.0
      && !CopiedInPlace(p.origin, m, p.region)
  {
    var m := Mask("m", 10.0, 50.0, 100.0, None, None, "e", Some(Mosaic), None, true, 0);
    assert SourceRegion(m, naturalWidth, naturalHeight) == Region(0.0, 0.0, 100.0, 100.0);
    assert BlockAt(0, 0, 100.0, 100.0) == Block(0, 0, 0.0, 0.0);
    assert 100.0 / 8.0 == 12.5;
    var b := Mask("m", 10.0, 50.0, 100.0, None, None, "e", Some(Blur), None, true, 0);
    assert SourceRegion(b, naturalWidth, naturalHeight) == Region(0.0, 0.0, 100.0, 100.0);
  }

  /**
   * The intended paint: as `drawMask` paints it, except that the mosaic grid
   * and the blur copy start at the clamped region's corner. It agrees with
   * the source whenever the square is not clamped at the left or top, and
   * then every mosaic block is coloured from a pixel under it and every blur
   * copy lands on the region it was read from.
   */
  function PaintOfIntended(m: Mask, naturalWidth: real, naturalHeight: real): (p: Paint)
    ensures UnclampedTopLeft(m) ==> p == PaintOf(m, naturalWidth, naturalHeight)
    ensures p.Glyph? ==> p == PaintOf(m, naturalWidth, naturalHeight)
    ensures !p.Glyph? ==> p.(origin := SquareCorner(m)) == PaintOf(m, naturalWidth, naturalHeight)
    ensures p.Pixelate? ==> forall blk :: blk in p.blocks ==> SamplesOwnBlock(p.origin, m, p.region, blk)
    ensures p.Blurred? ==> CopiedInPlace(p.origin, m, p.region)
  {
    MosaicSamplesOwnBlock(m, naturalWidth, naturalHeight);
    var p := PaintOf(m, naturalWidth, naturalHeight);
    if p.Glyph? then p else p.(origin := RegionCorner(m, naturalWidth, naturalHeight))
  }

  /** The composite of a freshly processed image: every mask drawn in order over the source. */
  function CompositeOf(masks: seq<Mask>, naturalWidth: real, naturalHeight: real): (r: seq<Paint>)
    ensures |r| == |masks|
    ensures forall i :: 0 <= i < |masks| ==> r[i] == PaintOf(masks[i], naturalWidth, naturalHeight)
  {
    seq(|masks|, i requires 0 <= i < |masks| => PaintOf(masks[i], naturalWidth, naturalHeight))
  }

  /** `drawMask`, with the mosaic's nested loop. */
  method DrawMask(m: Mask, naturalWidth: real, naturalHeight: real) returns (p: Paint)
    ensures p == PaintOf(m, naturalWidth, naturalHeight)
  {
    var r := SourceRegion(m, naturalWidth, naturalHeight);
    match KindOf(m)
    case Mosaic =>
      var blocks := DrawMosaic(m, naturalWidth, naturalHeight);
      p := Pixelate(m.x, m.y, RotationOf(m), m.size / 2.0, BlockSize(m.size), SquareCorner(m), r, blocks);
    case Blur =>
      p := Blurred(m.x, m.y, RotationOf(m), m.size / 2.0, SquareCorner(m), r, Reduced(r));
    case Emoji =>
      p := Glyph(m.emoji, m.x, m.y, m.size, RotationOf(m));
  }

  /** The loop that draws every mask of a processed image, in order. */
  method DrawMasks(masks: seq<Mask>, naturalWidth: real, naturalHeight: real) returns (paints: seq<Paint>)
    ensures paints == CompositeOf(masks, naturalWidth, naturalHeight)
  {
    paints := [];
    for i := 0 to |masks|
      invariant |paints| == i
      invariant forall k :: 0 <= k < i ==> paints[k] == PaintOf(masks[k], naturalWidth, naturalHeight)
    {
      var p := DrawMask(masks[i], naturalWidth, naturalHeight);
      paints := paints + [p];
    }
  }

  /** What finishing an edit draws for one mask: its emoji at its centre, unrotated, whatever its type. */
  function GlyphOf(m: Mask): Paint {
    Glyph(m.emoji, m.x, m.y, m.size, 0.0)
  }

  /** The composite that finishing an edit produces. */
  function GlyphsOf(masks: seq<Mask>): (r: seq<Paint>)
    ensures |r| == |masks|
    ensures forall i :: 0 <= i < |masks| ==> r[i] == GlyphOf(masks[i])
  {
    seq(|masks|, i requires 0 <= i < |masks| => GlyphOf(masks[i]))
  }

  /** The redraw loop run when an edit is finished. */
  method RedrawAsGlyphs(masks: seq<Mask>) returns (paints: seq<Paint>)
    ensures paints == GlyphsOf(masks)
  {
    paints := [];
    for i := 0 to |masks|
      invariant |paints| == i
      invariant forall k :: 0 <= k < i ==> paints[k] == GlyphOf(masks[k])
    {
      paints := paints + [GlyphOf(masks[i])];
    }
  }

  /**
   * Finishing an edit without changing anything redraws the same picture
   * exactly when every mask is an emoji mask without rotation: a mosaic or
   * blur mask comes back as an emoji, and a rotated one comes back upright.
   */
  lemma FinishRedrawMatches(masks: seq<Mask>, naturalWidth: real, naturalHeight: real)
    ensures GlyphsOf(masks) == CompositeOf(masks, naturalWidth, naturalHeight) <==>
      forall i :: 0 <= i < |masks| ==> KindOf(masks[i]) == Emoji && RotationOf(masks[i]) == 0.0
  {
    if GlyphsOf(masks) == CompositeOf(masks, naturalWidth, naturalHeight) {
      forall i | 0 <= i < |masks|
        ensures KindOf(masks[i]) == Emoji && RotationOf(masks[i]) == 0.0
      {
        assert GlyphsOf(masks)[i] == CompositeOf(masks, naturalWidth, naturalHeight)[i];
      }
    }
  }
}
