/** The Python facade `PolygonSet` of the FTL label plugin. It reads an
    image tile by tile, hands binarised tiles to the compiled labelling
    engine, asks the engine to digest them, and writes the labelled image
    back tile by tile with the narrowest label type that holds the number
    of objects found.

    The engine itself (tile labelling, union-find, stitching, digest,
    extraction) is compiled code that is not part of this model: the class
    `RustEngine` below only records what the facade hands it and what it
    asks of it. The values the engine computes (the number of components,
    the label values of an extracted tile) are not modelled; the number of
    components enters as a parameter of `ReadFrom`. */
module FtlLabel {
  import opened Wrappers
  import opened Layout

  /* ---------------------------------------------------------------
     Connectivity and label width
     --------------------------------------------------------------- */

  /** The exceptions the facade raises: `__init__`'s ValueError for a
      connectivity outside 1..3, and the ZeroDivisionError of a progress
      line whose grid has no tile. */
  datatype FtlError = ValueError(connectivity: int) | ZeroDivisionError

  predicate ValidConnectivity(connectivity: int) {
    1 <= connectivity <= 3
  }

  /** The numpy label types `dtype` chooses among. */
  datatype LabelDtype = UInt8 | UInt16 | UInt32 | UInt64

  function Bits(d: LabelDtype): nat {
    match d
    case UInt8 => 8
    case UInt16 => 16
    case UInt32 => 32
    case UInt64 => 64
  }

  /** 2^Bits(d): the number of values the type can hold. */
  function Capacity(d: LabelDtype): nat {
    match d
    case UInt8 => 0x100
    case UInt16 => 0x1_0000
    case UInt32 => 0x1_0000_0000
    case UInt64 => 0x1_0000_0000_0000_0000
  }

  /** `dtype` accepts `d` for `n` objects: `n < 2 ** Bits(d)`, except that
      64 bits is the fallback for every larger count. */
  predicate Admits(d: LabelDtype, n: nat) {
    d == UInt64 || n < Capacity(d)
  }

  /** The width `dtype` returns for `n` objects: the narrowest type that
      admits `n`. */
  function DtypeFor(n: nat): (d: LabelDtype)
    ensures Admits(d, n)
    ensures forall e :: Admits(e, n) ==> Bits(d) <= Bits(e)
  {
    if n < 0x100 then UInt8
    else if n < 0x1_0000 then UInt16
    else if n < 0x1_0000_0000 then UInt32
    else UInt64
  }

  /** The boundary counts at which the width changes. */
  lemma DtypeBoundaries()
    ensures DtypeFor(0) == UInt8 && DtypeFor(255) == UInt8
    ensures DtypeFor(256) == UInt16 && DtypeFor(65535) == UInt16
    ensures DtypeFor(65536) == UInt32 && DtypeFor(0xFFFF_FFFF) == UInt32
    ensures DtypeFor(0x1_0000_0000) == UInt64
  {
  }

  /* ---------------------------------------------------------------
     Tile grid
     --------------------------------------------------------------- */

  function Min(a: int, b: int): int {
    if a <= b then a else b
  }

  /** The tile edge: 1024 pixels for an image of several planes, five
      times that for a single plane. */
  function TileSize(depth: nat): (ts: nat)
    ensures ts > 0
  {
    if depth > 1 then 1024 else 1024 * 5
  }

  /** `n // ts`, plus one when `n % ts != 0`: the number of tiles along
      an axis of length `n` (`num_cols` for Y, `num_rows` for X). */
  function GridCount(n: nat, ts: nat): nat
    requires ts > 0
  {
    n / ts + if n % ts != 0 then 1 else 0
  }

  /** Half-open box `[y0, y1) x [x0, x1)` in one plane. */
  datatype Box = Box(y0: nat, y1: nat, x0: nat, x1: nat)

  predicate InBox(b: Box, py: int, px: int) {
    b.y0 <= py < b.y1 && b.x0 <= px < b.x1
  }

  /** The box the nested loops over `y` and `x` visit in grid row `r`
      and grid column `c`: `y = r * ts`, `y_max = min(Y, y + ts)`, and the
      same along X. */
  function GridBox(height: nat, width: nat, ts: nat, r: nat, c: nat): Box {
    Box(r * ts, Min(height, r * ts + ts), c * ts, Min(width, c * ts + ts))
  }

  /** The boxes of one plane in the order the loops visit them: row `r`
      of the outer loop and column `c` of the inner loop is entry
      `r * num_rows + c`. */
  function PlaneBoxes(height: nat, width: nat, ts: nat): (bs: seq<Box>)
    requires ts > 0
  {
    var nc := GridCount(height, ts);
    var nr := GridCount(width, ts);
    seq(nc * nr, k requires 0 <= k < nc * nr =>
      GridIndexBounds(k, nc, nr);
      GridBox(height, width, ts, k / nr, k % nr))
  }

  /* ---------------------------------------------------------------
     Images and tiles
     --------------------------------------------------------------- */

  /** The dimensions of the image, as the reader's metadata gives them and
      as the writer takes them back from that metadata. */
  datatype ImageMeta = ImageMeta(Z: nat, Y: nat, X: nat)

  /** The image read: its metadata and the pixel value of channel 0 and
      time point 0 at each (z, y, x). */
  datatype Volume = Volume(meta: ImageMeta, at: (nat, nat, nat) -> int)

  /** A tile as handed to `add_tile`: its origin `(z, y, x)` and its
      voxels in (z, y, x) layout. */
  datatype Tile = Tile(origin: (nat, nat, nat), voxels: seq<seq<seq<int>>>)

  predicate IsBinary(t: Tile) {
    forall z, i, j | 0 <= z < |t.voxels| && 0 <= i < |t.voxels[z]| && 0 <= j < |t.voxels[z][i]| ::
      t.voxels[z][i][j] == 0 || t.voxels[z][i][j] == 1
  }

  /** A voxel of a tile: 1 where the image is non-zero, 0 elsewhere. */
  function Voxel(img: Volume, z: nat, y: nat, x: nat): int {
    if img.at(z, y, x) != 0 then 1 else 0
  }

  /** The length of the slice `[a:b]`: empty when `b <= a`. */
  function Extent(a: nat, b: nat): nat {
    if a <= b then b - a else 0
  }

  function TileRow(img: Volume, z: nat, y: nat, x0: nat, x1: nat): seq<int> {
    seq(Extent(x0, x1), j requires 0 <= j < Extent(x0, x1) => Voxel(img, z, y, x0 + j))
  }

  function TilePlane(img: Volume, z: nat, b: Box): seq<seq<int>> {
    seq(Extent(b.y0, b.y1), i requires 0 <= i < Extent(b.y0, b.y1) => TileRow(img, z, b.y0 + i, b.x0, b.x1))
  }

  /** The binarised block of channel 0 under box `b`, every plane of it,
      laid out as (z, y, x), with origin `(0, y, x)`. */
  function TileOf(img: Volume, b: Box): (t: Tile)
  {
    Tile((0, b.y0, b.x0), seq(img.meta.Z, z requires 0 <= z < img.meta.Z => TilePlane(img, z, b)))
  }

  /** The tiles of grid row `r` (the row whose top edge is `r * ts`),
      left to right. */
  function RowTiles(img: Volume, r: nat): (row: seq<Tile>) {
    var ts := TileSize(img.meta.Z);
    seq(GridCount(img.meta.X, ts), c requires 0 <= c < GridCount(img.meta.X, ts) =>
      TileOf(img, GridBox(img.meta.Y, img.meta.X, ts, r, c)))
  }

  /** Grid row `r`'s tiles, for every `r`. */
  function RowTilesOf(img: Volume): nat -> seq<Tile> {
    (r: nat) => RowTiles(img, r)
  }

  /** The tiles of the first `n` grid rows, row after row. */
  function Rows(img: Volume, n: nat): (tiles: seq<Tile>) {
    Concat(RowTilesOf(img), n)
  }

  /** The tiles `read_from` hands to the engine, in order. */
  function Ingested(img: Volume): (tiles: seq<Tile>)
  {
    Rows(img, GridCount(img.meta.Y, TileSize(img.meta.Z)))
  }

  /** numpy's `squeeze` of the (h, w, Z) block the reader returns, followed
      by `tile[newaxis]` for a 2-D result or `transpose(2, 0, 1)` for a 3-D
      one: the shape that reaches `add_tile`, or None where numpy raises. */
  function SqueezedShape(h: nat, w: nat, depth: nat): Option<seq<nat>> {
    var kept := Squeeze([h, w, depth]);
    if |kept| == 2 then Some([1] + kept)
    else if |kept| == 3 then Some([kept[2], kept[0], kept[1]])
    else None
  }

  /** numpy's `squeeze`: the axes whose length is not 1. */
  function Squeeze(shape: seq<nat>): (kept: seq<nat>)
    ensures forall i :: 0 <= i < |kept| ==> kept[i] != 1
  {
    if shape == [] then []
    else (if shape[0] != 1 then [shape[0]] else []) + Squeeze(shape[1..])
  }

  /** The reshape in `read_from` yields the (Z, h, w) layout the engine
      expects exactly when the tile is at least two pixels high and two
      pixels wide: an edge tile one pixel high or wide is either refused by
      numpy or handed over with its axes mixed up. */
  lemma SqueezeKeepsLayout(h: nat, w: nat, depth: nat)
    requires h >= 1 && w >= 1 && depth >= 1
    ensures SqueezedShape(h, w, depth) == Some([depth, h, w]) <==> h > 1 && w > 1
  {
    var kept := Squeeze([h, w, depth]);
    SqueezeTriple(h, w, depth);
    if h > 1 && w > 1 {
      if depth == 1 {
        assert kept == [h, w];
        assert [1] + kept == [1, h, w];
      } else {
        assert kept == [h, w, depth];
      }
    } else if |kept| == 2 {
      var shape := [1] + kept;
      assert shape[1] == kept[0] && shape[2] == kept[1];
    }
  }

  /** `squeeze` of a three-axis shape keeps each axis that is not 1. */
  lemma SqueezeTriple(a: nat, b: nat, c: nat)
    ensures Squeeze([a, b, c]) ==
      (if a != 1 then [a] else []) + ((if b != 1 then [b] else []) + (if c != 1 then [c] else []))
  {
    assert [a, b, c][1..] == [b, c] && [b, c][1..] == [c] && [c][1..] == [];
    assert Squeeze([c]) == (if c != 1 then [c] else []) + Squeeze([]);
    assert Squeeze([b, c]) == (if b != 1 then [b] else []) + Squeeze([c]);
  }

  /** The requirement `read_from` silently makes of the image: no edge
      tile is one pixel high or one pixel wide. */
  predicate ThickEdges(meta: ImageMeta) {
    meta.Y % TileSize(meta.Z) != 1 && meta.X % TileSize(meta.Z) != 1
  }

  /* ---------------------------------------------------------------
     Grid arithmetic
     --------------------------------------------------------------- */

  /** `GridCount(n, ts)` is the ceiling of `n / ts`: the first multiple of
      `ts` that reaches `n`. */
  lemma GridCountIsCeiling(n: nat, ts: nat)
    requires ts > 0
    ensures GridCount(n, ts) * ts >= n
    ensures GridCount(n, ts) > 0 ==> (GridCount(n, ts) - 1) * ts < n
    ensures GridCount(n, ts) == 0 <==> n == 0
  {
    var q, m := n / ts, n % ts;
    assert n == q * ts + m;
  }

  /** A product of naturals is zero exactly when a factor is. */
  lemma ProductZero(a: nat, b: nat)
    ensures a * b == 0 <==> a == 0 || b == 0
  {
    if a > 0 && b > 0 {
      MulPositive(a, b);
    }
  }

  lemma MulPositive(a: nat, b: nat)
    requires a > 0 && b > 0
    ensures a * b >= b
  {
    MulSucc(a - 1, b);
  }

  /** The grid of a plane has no tile exactly when one of its extents
      is empty. */
  lemma NoTiles(height: nat, width: nat, ts: nat)
    requires ts > 0
    ensures GridCount(height, ts) * GridCount(width, ts) == 0 <==> height == 0 || width == 0
  {
    GridCountIsCeiling(height, ts);
    GridCountIsCeiling(width, ts);
    ProductZero(GridCount(height, ts), GridCount(width, ts));
  }

  /** Row `r` of the grid starts inside the image exactly when `r` is
      below the grid count. */
  lemma RowStartsInside(n: nat, ts: nat, r: nat)
    requires ts > 0
    ensures r * ts < n <==> r < GridCount(n, ts)
  {
    var k := GridCount(n, ts);
    GridCountIsCeiling(n, ts);
    if r < k {
      MulMonotone(r, k - 1, ts);
    } else {
      MulMonotone(k, r, ts);
    }
  }

  /** Every box of the grid is non-empty, lies inside the image and is at
      most `ts` high and wide. */
  lemma PlaneBoxesShape(height: nat, width: nat, ts: nat, k: int)
    requires ts > 0 && 0 <= k < |PlaneBoxes(height, width, ts)|
    ensures |PlaneBoxes(height, width, ts)| == GridCount(height, ts) * GridCount(width, ts)
    ensures var b := PlaneBoxes(height, width, ts)[k];
      && b.y0 < b.y1 <= height && b.x0 < b.x1 <= width
      && b.y1 - b.y0 <= ts && b.x1 - b.x0 <= ts
  {
    var nc, nr := GridCount(height, ts), GridCount(width, ts);
    GridIndexBounds(k, nc, nr);
    RowStartsInside(height, ts, k / nr);
    RowStartsInside(width, ts, k % nr);
  }

  /** The grid cell holding pixel (py, px): row `py // ts`, column `px // ts`. */
  function CellIndex(width: nat, ts: nat, py: nat, px: nat): nat
    requires ts > 0
  {
    DivMod(py, ts);
    DivMod(px, ts);
    MulMonotone(0, py / ts, GridCount(width, ts));
    (py / ts) * GridCount(width, ts) + px / ts
  }

  /** A pixel of the image lies in the box of grid row `r`, column `c`
      exactly when `r` and `c` are its row and column. */
  lemma InGridBox(height: nat, width: nat, ts: nat, r: nat, c: nat, py: nat, px: nat)
    requires ts > 0 && py < height && px < width
    ensures InBox(GridBox(height, width, ts, r, c), py, px) <==> r == py / ts && c == px / ts
  {
    DivUnique(py, ts, r);
    DivUnique(px, ts, c);
  }

  /** Every pixel of the plane lies in exactly one box: the one of its
      grid cell. So the boxes cover `[0, Y) x [0, X)` and are pairwise
      disjoint. */
  lemma PlaneBoxesPartition(height: nat, width: nat, ts: nat, py: nat, px: nat)
    requires ts > 0 && py < height && px < width
    ensures CellIndex(width, ts, py, px) < |PlaneBoxes(height, width, ts)|
    ensures forall k :: 0 <= k < |PlaneBoxes(height, width, ts)| ==>
      (InBox(PlaneBoxes(height, width, ts)[k], py, px) <==> k == CellIndex(width, ts, py, px))
  {
    var bs := PlaneBoxes(height, width, ts);
    var nc, nr := GridCount(height, ts), GridCount(width, ts);
    DivMod(py, ts);
    DivMod(px, ts);
    var r, c := py / ts, px / ts;
    assert r < nc by {
      DivUnique(py, ts, r);
      RowStartsInside(height, ts, r);
    }
    assert c < nr by {
      DivUnique(px, ts, c);
      RowStartsInside(width, ts, c);
    }
    assert CellIndex(width, ts, py, px) == r * nr + c;
    assert r * nr + c < |bs| by {
      GridIndexInRange(r, c, nc, nr);
    }
    forall k | 0 <= k < |bs|
      ensures InBox(bs[k], py, px) <==> k == CellIndex(width, ts, py, px)
    {
      PartitionAt(height, width, ts, py, px, k);
    }
  }

  /** The partition property for one box. */
  lemma PartitionAt(height: nat, width: nat, ts: nat, py: nat, px: nat, k: nat)
    requires ts > 0 && py < height && px < width
    requires k < |PlaneBoxes(height, width, ts)|
    ensures InBox(PlaneBoxes(height, width, ts)[k], py, px) <==> k == CellIndex(width, ts, py, px)
  {
    var bs := PlaneBoxes(height, width, ts);
    var nc, nr := GridCount(height, ts), GridCount(width, ts);
    DivMod(py, ts);
    DivMod(px, ts);
    var r, c := py / ts, px / ts;
    assert c < nr by {
      DivUnique(px, ts, c);
      RowStartsInside(width, ts, c);
    }
    assert |bs| == nc * nr;
    GridIndexBounds(k, nc, nr);
    var i, j := k / nr, k % nr;
    assert InBox(bs[k], py, px) <==> i == r && j == c by {
      assert bs[k] == GridBox(height, width, ts, i, j);
      InGridBox(height, width, ts, i, j, py, px);
    }
    assert k == r * nr + c <==> i == r && j == c by {
      GridIndexUnique(k, nr, r, c);
    }
    assert CellIndex(width, ts, py, px) == r * nr + c;
  }

  lemma PlaneBoxesCover(height: nat, width: nat, ts: nat, py: nat, px: nat)
    requires ts > 0 && py < height && px < width
    ensures exists k :: 0 <= k < |PlaneBoxes(height, width, ts)| && InBox(PlaneBoxes(height, width, ts)[k], py, px)
  {
    PlaneBoxesPartition(height, width, ts, py, px);
    var k := CellIndex(width, ts, py, px);
    assert InBox(PlaneBoxes(height, width, ts)[k], py, px);
  }

  lemma PlaneBoxesDisjoint(height: nat, width: nat, ts: nat, i: nat, j: nat, py: int, px: int)
    requires ts > 0 && i < j < |PlaneBoxes(height, width, ts)|
    ensures !(InBox(PlaneBoxes(height, width, ts)[i], py, px) && InBox(PlaneBoxes(height, width, ts)[j], py, px))
  {
    var bs := PlaneBoxes(height, width, ts);
    if InBox(bs[i], py, px) {
      PlaneBoxesShape(height, width, ts, i);
      PlaneBoxesPartition(height, width, ts, py, px);
    }
  }

  /** Indices in row-major order compare as (row, column) pairs. */
  lemma GridIndexOrder(i: nat, j: nat, n: nat)
    requires i < j && n > 0
    ensures i / n < j / n || (i / n == j / n && i % n < j % n)
  {
    DivMod(i, n);
    DivMod(j, n);
    if i / n > j / n {
      MulMonotone(j / n + 1, i / n, n);
    }
  }

  lemma MulStrict(a: nat, b: nat, c: nat)
    requires a < b && c > 0
    ensures a * c < b * c
  {
    MulMonotone(a + 1, b, c);
  }

  /** The loops visit the boxes row by row, left to right. */
  lemma PlaneBoxesRowMajor(height: nat, width: nat, ts: nat, i: nat, j: nat)
    requires ts > 0 && i < j < |PlaneBoxes(height, width, ts)|
    ensures var bs := PlaneBoxes(height, width, ts);
      bs[i].y0 < bs[j].y0 || (bs[i].y0 == bs[j].y0 && bs[i].x0 < bs[j].x0)
  {
    var bs := PlaneBoxes(height, width, ts);
    var nc, nr := GridCount(height, ts), GridCount(width, ts);
    GridIndexBounds(i, nc, nr);
    GridIndexBounds(j, nc, nr);
    assert bs[i] == GridBox(height, width, ts, i / nr, i % nr);
    assert bs[j] == GridBox(height, width, ts, j / nr, j % nr);
    GridIndexOrder(i, j, nr);
    if i / nr < j / nr {
      MulStrict(i / nr, j / nr, ts);
    } else {
      MulStrict(i % nr, j % nr, ts);
    }
  }

  /** The height of grid row `r`: `ts`, or what is left of the image
      below the last full row. */
  lemma RowHeight(n: nat, ts: nat, r: nat)
    requires ts > 0 && r * ts < n
    ensures Min(n, r * ts + ts) - r * ts == if r * ts + ts <= n then ts else n % ts
  {
    if r * ts + ts > n {
      DivUnique(n, ts, r);
    }
  }

  /** A row that starts inside the image is at least two pixels high
      unless the image leaves a remainder of exactly one pixel. */
  lemma RowThick(n: nat, ts: nat, r: nat)
    requires ts >= 2 && r * ts < n && n % ts != 1
    ensures Min(n, r * ts + ts) - r * ts >= 2
  {
    RowHeight(n, ts, r);
    var m := r * ts;
    if m + ts > n {
      DivUnique(n, ts, r);
    }
  }

  /** With a remainder of one pixel, the last row starts inside the image
      and is one pixel high. */
  lemma LastRowThin(n: nat, ts: nat)
    requires ts > 0 && n % ts == 1
    ensures (n / ts) * ts < n && (n / ts) < GridCount(n, ts)
    ensures Min(n, (n / ts) * ts + ts) - (n / ts) * ts == 1
  {
    DivMod(n, ts);
    DivUnique(n, ts, n / ts);
    RowStartsInside(n, ts, n / ts);
  }

  /** The edge condition `read_from` needs holds exactly when every box is
      at least two pixels high and wide (for a non-empty image). */
  lemma ThickEdgesMeaning(meta: ImageMeta)
    requires meta.Y > 0 && meta.X > 0
    ensures var bs := PlaneBoxes(meta.Y, meta.X, TileSize(meta.Z));
      ThickEdges(meta) <==>
        forall k :: 0 <= k < |bs| ==> bs[k].y1 - bs[k].y0 >= 2 && bs[k].x1 - bs[k].x0 >= 2
  {
    var bs := PlaneBoxes(meta.Y, meta.X, TileSize(meta.Z));
    if ThickEdges(meta) {
      forall k | 0 <= k < |bs|
        ensures bs[k].y1 - bs[k].y0 >= 2 && bs[k].x1 - bs[k].x0 >= 2
      {
        ThickBox(meta, k);
      }
    } else {
      var k := ThinBox(meta);
    }
  }

  /** Under `ThickEdges`, box `k` is at least two pixels high and wide. */
  lemma ThickBox(meta: ImageMeta, k: nat)
    requires ThickEdges(meta) && k < |PlaneBoxes(meta.Y, meta.X, TileSize(meta.Z))|
    ensures var b := PlaneBoxes(meta.Y, meta.X, TileSize(meta.Z))[k];
      b.y1 - b.y0 >= 2 && b.x1 - b.x0 >= 2
  {
    var ts := TileSize(meta.Z);
    var nc, nr := GridCount(meta.Y, ts), GridCount(meta.X, ts);
    GridIndexBounds(k, nc, nr);
    var r, c := k / nr, k % nr;
    assert PlaneBoxes(meta.Y, meta.X, ts)[k] == GridBox(meta.Y, meta.X, ts, r, c);
    RowStartsInside(meta.Y, ts, r);
    RowStartsInside(meta.X, ts, c);
    RowThick(meta.Y, ts, r);
    RowThick(meta.X, ts, c);
  }

  /** Without `ThickEdges`, the last grid row or column is one pixel
      thin. */
  lemma ThinBox(meta: ImageMeta) returns (k: nat)
    requires meta.Y > 0 && meta.X > 0 && !ThickEdges(meta)
    ensures var bs := PlaneBoxes(meta.Y, meta.X, TileSize(meta.Z));
      k < |bs| && (bs[k].y1 - bs[k].y0 == 1 || bs[k].x1 - bs[k].x0 == 1)
  {
    var ts := TileSize(meta.Z);
    RowStartsInside(meta.X, ts, 0);
    RowStartsInside(meta.Y, ts, 0);
    DivMod(meta.Y, ts);
    DivMod(meta.X, ts);
    var r, c := 0, 0;
    if meta.Y % ts == 1 {
      r := meta.Y / ts;
      LastRowThin(meta.Y, ts);
    } else {
      c := meta.X / ts;
      LastRowThin(meta.X, ts);
    }
    PlaneBoxAt(meta.Y, meta.X, ts, r, c);
    k := r * GridCount(meta.X, ts) + c;
  }

  /** Entry `r * num_rows + c` of the plane's boxes is the box of grid row
      `r`, column `c`. */
  lemma PlaneBoxAt(height: nat, width: nat, ts: nat, r: nat, c: nat)
    requires ts > 0 && r < GridCount(height, ts) && c < GridCount(width, ts)
    ensures r * GridCount(width, ts) + c < |PlaneBoxes(height, width, ts)|
    ensures PlaneBoxes(height, width, ts)[r * GridCount(width, ts) + c] == GridBox(height, width, ts, r, c)
  {
    var nr := GridCount(width, ts);
    GridIndexInRange(r, c, GridCount(height, ts), nr);
    GridIndex(r, c, nr);
  }

  /** A tile built from a box has origin `(0, y, x)`, one (y, x) plane
      per image plane, exactly the box's height and width, holds only 0
      and 1, and a voxel is 1 exactly when its image pixel is non-zero. */
  lemma TileOfMeaning(img: Volume, b: Box)
    requires b.y0 <= b.y1 && b.x0 <= b.x1
    ensures var t := TileOf(img, b);
      && t.origin == (0, b.y0, b.x0)
      && IsBinary(t)
      && |t.voxels| == img.meta.Z
      && (forall z :: 0 <= z < |t.voxels| ==> |t.voxels[z]| == b.y1 - b.y0)
      && (forall z, i :: 0 <= z < |t.voxels| && 0 <= i < |t.voxels[z]| ==>
            |t.voxels[z][i]| == b.x1 - b.x0)
      && (forall z, i, j :: 0 <= z < |t.voxels| && 0 <= i < |t.voxels[z]| && 0 <= j < |t.voxels[z][i]| ==>
            (t.voxels[z][i][j] == 1 <==> img.at(z, b.y0 + i, b.x0 + j) != 0))
  {
    var t := TileOf(img, b);
    forall z, i | 0 <= z < |t.voxels| && 0 <= i < |t.voxels[z]|
      ensures |t.voxels[z][i]| == b.x1 - b.x0
    {
      assert t.voxels[z] == TilePlane(img, z, b);
      assert t.voxels[z][i] == TileRow(img, z, b.y0 + i, b.x0, b.x1);
    }
    forall z, i, j | 0 <= z < |t.voxels| && 0 <= i < |t.voxels[z]| && 0 <= j < |t.voxels[z][i]|
      ensures t.voxels[z][i][j] == Voxel(img, z, b.y0 + i, b.x0 + j)
    {
      assert t.voxels[z] == TilePlane(img, z, b);
      assert t.voxels[z][i] == TileRow(img, z, b.y0 + i, b.x0, b.x1);
    }
  }

  /** What `read_from` hands to `add_tile`: one tile per box, in the
      boxes' order, built from that box. */
  lemma IngestedTiles(img: Volume, k: nat)
    requires k < |Ingested(img)|
    ensures var bs := PlaneBoxes(img.meta.Y, img.meta.X, TileSize(img.meta.Z));
      && |Ingested(img)| == |bs|
      && bs[k].y0 < bs[k].y1 && bs[k].x0 < bs[k].x1
      && Ingested(img)[k] == TileOf(img, bs[k])
  {
    var ts := TileSize(img.meta.Z);
    var nc := GridCount(img.meta.Y, ts);
    var nr := GridCount(img.meta.X, ts);
    RowTilesUniform(img, nc);
    ConcatClosed(RowTilesOf(img), nc, nr, k);
    var r, c := k / nr, k % nr;
    assert RowTilesOf(img)(r)[c] == TileOf(img, GridBox(img.meta.Y, img.meta.X, ts, r, c));
    PlaneBoxesShape(img.meta.Y, img.meta.X, ts, k);
    assert PlaneBoxes(img.meta.Y, img.meta.X, ts)[k] == GridBox(img.meta.Y, img.meta.X, ts, r, c);
  }

  /** Every grid row holds `num_rows` tiles. */
  lemma RowTilesUniform(img: Volume, n: nat)
    ensures Uniform(RowTilesOf(img), n, GridCount(img.meta.X, TileSize(img.meta.Z)))
  {
  }

  /** One more pass of the outer loop appends grid row `n`. */
  lemma RowsNext(img: Volume, n: nat)
    ensures Rows(img, n + 1) == Rows(img, n) + RowTiles(img, n)
  {
    assert RowTilesOf(img)(n) == RowTiles(img, n);
  }

  lemma RowsLength(img: Volume, n: nat)
    ensures |Rows(img, n)| == n * GridCount(img.meta.X, TileSize(img.meta.Z))
  {
    RowTilesUniform(img, n);
    ConcatLength(RowTilesOf(img), n, GridCount(img.meta.X, TileSize(img.meta.Z)));
  }

  /** The tile of grid row `r`, column `c` is the one `read_from` hands
      over at position `r * num_rows + c`, and under `ThickEdges` numpy
      hands it over in (z, y, x) layout. */
  lemma IngestStep(img: Volume, r: nat, c: nat)
    requires img.meta.Z >= 1 && ThickEdges(img.meta)
    requires var ts := TileSize(img.meta.Z);
      r < GridCount(img.meta.Y, ts) && c < GridCount(img.meta.X, ts)
    ensures var ts := TileSize(img.meta.Z);
      var k := r * GridCount(img.meta.X, ts) + c;
      var b := GridBox(img.meta.Y, img.meta.X, ts, r, c);
      && 0 <= k < |Ingested(img)|
      && b.y0 < b.y1 && b.x0 < b.x1
      && Ingested(img)[k] == TileOf(img, b)
      && SqueezedShape(b.y1 - b.y0, b.x1 - b.x0, img.meta.Z) == Some([img.meta.Z, b.y1 - b.y0, b.x1 - b.x0])
  {
    var meta := img.meta;
    var ts := TileSize(meta.Z);
    var nc, nr := GridCount(meta.Y, ts), GridCount(meta.X, ts);
    RowTilesUniform(img, nc);
    ConcatUniformAt(RowTilesOf(img), nc, nr, r, c);
    assert RowTilesOf(img)(r)[c] == TileOf(img, GridBox(meta.Y, meta.X, ts, r, c));
    GridBoxThick(meta, r, c);
  }

  /** Under `ThickEdges`, the box of grid row `r`, column `c` is at least
      two pixels high and wide, so numpy hands its tile over in (z, y, x)
      layout. */
  lemma GridBoxThick(meta: ImageMeta, r: nat, c: nat)
    requires meta.Z >= 1 && ThickEdges(meta)
    requires var ts := TileSize(meta.Z);
      r < GridCount(meta.Y, ts) && c < GridCount(meta.X, ts)
    ensures var b := GridBox(meta.Y, meta.X, TileSize(meta.Z), r, c);
      && b.y0 + 2 <= b.y1 && b.x0 + 2 <= b.x1
      && SqueezedShape(b.y1 - b.y0, b.x1 - b.x0, meta.Z) == Some([meta.Z, b.y1 - b.y0, b.x1 - b.x0])
  {
    var ts := TileSize(meta.Z);
    RowStartsInside(meta.Y, ts, r);
    RowStartsInside(meta.X, ts, c);
    RowThick(meta.Y, ts, r);
    RowThick(meta.X, ts, c);
    var b := GridBox(meta.Y, meta.X, ts, r, c);
    SqueezeKeepsLayout(b.y1 - b.y0, b.x1 - b.x0, meta.Z);
  }

  /** One pass of the inner loop of `read_from`: the box cut at top edge
      `y` and left edge `x` is entry `c` of the row, a 0/1 tile that numpy
      reshapes in (z, y, x) layout. */
  lemma ReadStep(img: Volume, r: nat, c: nat, y: nat, yMax: nat, x: nat, xMax: nat, tile: Tile)
    requires img.meta.Z >= 1 && ThickEdges(img.meta)
    requires var ts := TileSize(img.meta.Z);
      && y == r * ts < img.meta.Y && x == c * ts < img.meta.X
      && yMax == Min(img.meta.Y, y + ts) && xMax == Min(img.meta.X, x + ts)
    requires tile == TileOf(img, Box(y, yMax, x, xMax))
    ensures c < |RowTiles(img, r)| && RowTiles(img, r)[c] == tile && IsBinary(tile)
    ensures SqueezedShape(yMax - y, xMax - x, img.meta.Z) == Some([img.meta.Z, yMax - y, xMax - x])
  {
    var ts := TileSize(img.meta.Z);
    RowStartsInside(img.meta.Y, ts, r);
    RowStartsInside(img.meta.X, ts, c);
    var b := Box(y, yMax, x, xMax);
    assert GridBox(img.meta.Y, img.meta.X, ts, r, c) == b;
    GridBoxThick(img.meta, r, c);
    TileOfBinary(img, b);
  }

  lemma IngestedLength(img: Volume)
    ensures var ts := TileSize(img.meta.Z);
      |Ingested(img)| == GridCount(img.meta.Y, ts) * GridCount(img.meta.X, ts)
  {
    RowsLength(img, GridCount(img.meta.Y, TileSize(img.meta.Z)));
  }

  lemma AppendNext<T>(s: seq<T>, t: seq<T>, n: nat)
    requires n < |t|
    ensures s + t[..n + 1] == (s + t[..n]) + [t[n]]
  {
    assert t[..n + 1] == t[..n] + [t[n]];
  }

  lemma TileOfBinary(img: Volume, b: Box)
    requires b.y0 <= b.y1 && b.x0 <= b.x1
    ensures IsBinary(TileOf(img, b))
  {
    TileOfMeaning(img, b);
  }

  /* ---------------------------------------------------------------
     Extraction boxes of write_to
     --------------------------------------------------------------- */

  /** The bounds handed to `extract_tile`: half-open ranges along z, y and
      x, in that order. */
  datatype Bounds = Bounds(z0: nat, z1: nat, y0: nat, y1: nat, x0: nat, x1: nat)

  predicate InBounds(b: Bounds, pz: int, py: int, px: int) {
    b.z0 <= pz < b.z1 && b.y0 <= py < b.y1 && b.x0 <= px < b.x1
  }

  /** The bounds of box `b` in plane `z`. */
  function BoundsOf(z: nat, b: Box): Bounds {
    Bounds(z, z + 1, b.y0, b.y1, b.x0, b.x1)
  }

  /** The bounds of grid row `r` of plane `z`, left to right. */
  function RowBounds(meta: ImageMeta, z: nat, r: nat): seq<Bounds> {
    var ts := TileSize(meta.Z);
    seq(GridCount(meta.X, ts), c requires 0 <= c < GridCount(meta.X, ts) =>
      BoundsOf(z, GridBox(meta.Y, meta.X, ts, r, c)))
  }

  /** Grid row `r`'s bounds in plane `z`, for every `r`. */
  function RowBoundsOf(meta: ImageMeta, z: nat): nat -> seq<Bounds> {
    (r: nat) => RowBounds(meta, z, r)
  }

  /** The bounds of the first `n` grid rows of plane `z`. */
  function PlaneBounds(meta: ImageMeta, z: nat, n: nat): seq<Bounds> {
    Concat(RowBoundsOf(meta, z), n)
  }

  /** Plane `z`'s bounds, its whole grid, for every `z`. */
  function PlaneBoundsOf(meta: ImageMeta): nat -> seq<Bounds> {
    (z: nat) => PlaneBounds(meta, z, GridCount(meta.Y, TileSize(meta.Z)))
  }

  /** The bounds of the first `m` planes, each plane's whole grid. */
  function PlanesBounds(meta: ImageMeta, m: nat): seq<Bounds> {
    Concat(PlaneBoundsOf(meta), m)
  }

  /** The bounds `write_to` asks for, in order: for each plane `z`, the
      boxes of that plane in row-major order. */
  function ExtractionBounds(meta: ImageMeta): seq<Bounds> {
    PlanesBounds(meta, meta.Z)
  }

  /** One more pass of the middle loop appends grid row `n` of plane `z`. */
  lemma PlaneBoundsNext(meta: ImageMeta, z: nat, n: nat)
    ensures PlaneBounds(meta, z, n + 1) == PlaneBounds(meta, z, n) + RowBounds(meta, z, n)
  {
    assert RowBoundsOf(meta, z)(n) == RowBounds(meta, z, n);
  }

  /** One more pass of the outer loop appends plane `m`. */
  lemma PlanesBoundsNext(meta: ImageMeta, m: nat)
    ensures PlanesBounds(meta, m + 1) ==
      PlanesBounds(meta, m) + PlaneBounds(meta, m, GridCount(meta.Y, TileSize(meta.Z)))
  {
    assert PlaneBoundsOf(meta)(m) == PlaneBounds(meta, m, GridCount(meta.Y, TileSize(meta.Z)));
  }

  lemma PlaneBoundsLength(meta: ImageMeta, z: nat, n: nat)
    ensures |PlaneBounds(meta, z, n)| == n * GridCount(meta.X, TileSize(meta.Z))
  {
    var nr := GridCount(meta.X, TileSize(meta.Z));
    assert Uniform(RowBoundsOf(meta, z), n, nr);
    ConcatLength(RowBoundsOf(meta, z), n, nr);
  }

  /** Every plane asks for `num_cols * num_rows` bounds. */
  lemma PlanesUniform(meta: ImageMeta, m: nat)
    ensures var ts := TileSize(meta.Z);
      Uniform(PlaneBoundsOf(meta), m, GridCount(meta.Y, ts) * GridCount(meta.X, ts))
  {
    var nc := GridCount(meta.Y, TileSize(meta.Z));
    forall z: nat | z < m
      ensures |PlaneBoundsOf(meta)(z)| == nc * GridCount(meta.X, TileSize(meta.Z))
    {
      PlaneBoundsLength(meta, z, nc);
    }
  }

  lemma PlanesBoundsLength(meta: ImageMeta, m: nat)
    ensures var ts := TileSize(meta.Z);
      |PlanesBounds(meta, m)| == m * (GridCount(meta.Y, ts) * GridCount(meta.X, ts))
  {
    var ts := TileSize(meta.Z);
    PlanesUniform(meta, m);
    ConcatLength(PlaneBoundsOf(meta), m, GridCount(meta.Y, ts) * GridCount(meta.X, ts));
  }

  /** Entry `z * (num_cols * num_rows) + r * num_rows + c` is plane `z`,
      grid row `r`, column `c`. */
  lemma ExtractionBoundAt(meta: ImageMeta, z: nat, r: nat, c: nat)
    requires var ts := TileSize(meta.Z);
      z < meta.Z && r < GridCount(meta.Y, ts) && c < GridCount(meta.X, ts)
    ensures var ts := TileSize(meta.Z);
      var nr := GridCount(meta.X, ts);
      var p := GridCount(meta.Y, ts) * nr;
      var k := z * p + (r * nr + c);
      && 0 <= k < |ExtractionBounds(meta)|
      && var b := GridBox(meta.Y, meta.X, ts, r, c);
      ExtractionBounds(meta)[k] == Bounds(z, z + 1, b.y0, b.y1, b.x0, b.x1)
  {
    var ts := TileSize(meta.Z);
    var nc := GridCount(meta.Y, ts);
    var nr := GridCount(meta.X, ts);
    GridIndexInRange(r, c, nc, nr);
    PlanesUniform(meta, meta.Z);
    ConcatUniformAt(PlaneBoundsOf(meta), meta.Z, nc * nr, z, r * nr + c);
    assert Uniform(RowBoundsOf(meta, z), nc, nr);
    ConcatUniformAt(RowBoundsOf(meta, z), nc, nr, r, c);
  }

  /** Closed form of the extraction order: entry `k` is plane
      `k / (num_cols * num_rows)`, box `k % (num_cols * num_rows)`. */
  lemma ExtractionBoundsClosed(meta: ImageMeta, k: nat)
    requires k < |ExtractionBounds(meta)|
    ensures var bs := PlaneBoxes(meta.Y, meta.X, TileSize(meta.Z));
      && |ExtractionBounds(meta)| == meta.Z * |bs|
      && |bs| > 0 && 0 <= k / |bs| && 0 <= k % |bs| < |bs|
      && ExtractionBounds(meta)[k] == BoundsOf(k / |bs|, bs[k % |bs|])
  {
    var ts := TileSize(meta.Z);
    var nc := GridCount(meta.Y, ts);
    var nr := GridCount(meta.X, ts);
    var p := nc * nr;
    PlanesBoundsLength(meta, meta.Z);
    GridIndexBounds(k, meta.Z, p);
    DivMod(k, p);
    var z, j := k / p, k % p;
    GridIndexBounds(j, nc, nr);
    DivMod(j, nr);
    var r, c := j / nr, j % nr;
    ExtractionBoundAt(meta, z, r, c);
    assert PlaneBoxes(meta.Y, meta.X, ts)[j] == GridBox(meta.Y, meta.X, ts, r, c);
  }

  /** Every bound is one plane deep, non-empty, inside the image and at
      most one tile high and wide; there are Z * num_cols * num_rows. */
  lemma ExtractionBoundsShape(meta: ImageMeta, k: nat)
    requires k < |ExtractionBounds(meta)|
    ensures var ts := TileSize(meta.Z);
      |ExtractionBounds(meta)| == meta.Z * (GridCount(meta.Y, ts) * GridCount(meta.X, ts))
    ensures var b := ExtractionBounds(meta)[k];
      && b.z1 == b.z0 + 1 && b.z0 < meta.Z
      && b.y0 < b.y1 <= meta.Y && b.x0 < b.x1 <= meta.X
      && b.y1 - b.y0 <= TileSize(meta.Z) && b.x1 - b.x0 <= TileSize(meta.Z)
  {
    var ts := TileSize(meta.Z);
    var bs := PlaneBoxes(meta.Y, meta.X, ts);
    ExtractionBoundsClosed(meta, k);
    GridIndexBounds(k, meta.Z, |bs|);
    PlaneBoxesShape(meta.Y, meta.X, ts, k % |bs|);
  }

  /** The voxel (pz, py, px) lies in bound `k` exactly when `k` is its
      plane's offset plus its grid cell. */
  lemma ExtractionPartitionAt(meta: ImageMeta, pz: nat, py: nat, px: nat, k: nat)
    requires pz < meta.Z && py < meta.Y && px < meta.X
    requires k < |ExtractionBounds(meta)|
    ensures var ts := TileSize(meta.Z);
      var n := |PlaneBoxes(meta.Y, meta.X, ts)|;
      InBounds(ExtractionBounds(meta)[k], pz, py, px) <==>
        k == pz * n + CellIndex(meta.X, ts, py, px)
  {
    var ts := TileSize(meta.Z);
    var bs := PlaneBoxes(meta.Y, meta.X, ts);
    var n := |bs|;
    ExtractionBoundsClosed(meta, k);
    GridIndexBounds(k, meta.Z, n);
    PartitionAt(meta.Y, meta.X, ts, py, px, k % n);
    PlaneBoxesPartition(meta.Y, meta.X, ts, py, px);
    GridIndexUnique(k, n, pz, CellIndex(meta.X, ts, py, px));
  }

  /** `write_to` asks for every voxel of the image exactly once: each
      voxel lies in exactly one of the bounds. */
  lemma ExtractionBoundsPartition(meta: ImageMeta, pz: nat, py: nat, px: nat)
    requires pz < meta.Z && py < meta.Y && px < meta.X
    ensures var ts := TileSize(meta.Z);
      var k := pz * |PlaneBoxes(meta.Y, meta.X, ts)| + CellIndex(meta.X, ts, py, px);
      && k < |ExtractionBounds(meta)|
      && forall j :: 0 <= j < |ExtractionBounds(meta)| ==>
           (InBounds(ExtractionBounds(meta)[j], pz, py, px) <==> j == k)
  {
    var ts := TileSize(meta.Z);
    var n := |PlaneBoxes(meta.Y, meta.X, ts)|;
    PlanesBoundsLength(meta, meta.Z);
    PlaneBoxesPartition(meta.Y, meta.X, ts, py, px);
    GridIndexInRange(pz, CellIndex(meta.X, ts, py, px), meta.Z, n);
    forall j | 0 <= j < |ExtractionBounds(meta)|
      ensures InBounds(ExtractionBounds(meta)[j], pz, py, px) <==>
        j == pz * n + CellIndex(meta.X, ts, py, px)
    {
      ExtractionPartitionAt(meta, pz, py, px, j);
    }
  }

  /* ---------------------------------------------------------------
     The engine and the facade
     --------------------------------------------------------------- */

  /** The compiled `PolygonSet` as the facade sees it: it is given
      binary tiles, digested, asked for its length and asked for tiles of
      labels. This class records those calls; it does not label. */
  class RustEngine {
    const connectivity: int
    /** The tiles passed to `add_tile`, in order. */
    var tiles: seq<Tile>
    /** How many times `digest` was called. */
    var digestCalls: nat
    /** What `len` reports: the number of components digest found. */
    var count: nat
    /** The bounds passed to `extract_tile`, in order. */
    var requests: seq<Bounds>

    constructor (connectivity: int)
      requires ValidConnectivity(connectivity)
      ensures this.connectivity == connectivity
      ensures tiles == [] && digestCalls == 0 && count == 0 && requests == []
    {
      this.connectivity := connectivity;
      tiles, digestCalls, count, requests := [], 0, 0, [];
    }

    method AddTile(tile: Tile)
      requires IsBinary(tile)
      modifies this
      ensures tiles == old(tiles) + [tile]
      ensures digestCalls == old(digestCalls) && count == old(count) && requests == old(requests)
    {
      tiles := tiles + [tile];
    }

    /** `found` is the number of components the compiled digest arrives at. */
    method Digest(found: nat)
      modifies this
      ensures digestCalls == old(digestCalls) + 1 && count == found
      ensures tiles == old(tiles) && requests == old(requests)
    {
      digestCalls := digestCalls + 1;
      count := found;
    }

    function Len(): nat
      reads this
    {
      count
    }

    /** The label values of the extracted tile are not modelled. */
    method ExtractTile(b: Bounds)
      requires digestCalls > 0
      modifies this
      ensures requests == old(requests) + [b]
      ensures tiles == old(tiles) && digestCalls == old(digestCalls) && count == old(count)
    {
      requests := requests + [b];
    }
  }

  class PolygonSet {
    /** The engine object the facade wraps. */
    const engine: RustEngine
    const connectivity: int
    var metadata: Option<ImageMeta>
    var numPolygons: nat

    /** The facade's invariant: the engine was built with the same
        connectivity, `num_polygons` is what the engine last reported,
        and metadata is only present once read_from has digested. */
    ghost predicate Valid()
      reads this, engine
    {
      && ValidConnectivity(connectivity)
      && engine.connectivity == connectivity
      && numPolygons == engine.count
      && (metadata.Some? ==> engine.digestCalls > 0)
    }

    constructor (connectivity: int)
      requires ValidConnectivity(connectivity)
      ensures Valid() && fresh(engine)
      ensures this.connectivity == connectivity && metadata == None && numPolygons == 0
      ensures engine.tiles == [] && engine.digestCalls == 0 && engine.requests == []
    {
      engine := new RustEngine(connectivity);
      this.connectivity := connectivity;
      metadata := None;
      numPolygons := 0;
    }

    /** `PolygonSet(connectivity)`: raises ValueError unless the
        connectivity is 1, 2 or 3; otherwise an empty set of polygons. */
    static method New(connectivity: int) returns (r: Result<PolygonSet, FtlError>)
      ensures r.Err? <==> !ValidConnectivity(connectivity)
      ensures r.Err? ==> r.error == ValueError(connectivity)
      ensures r.Ok? ==> && fresh(r.value) && fresh(r.value.engine) && r.value.Valid()
                        && r.value.connectivity == connectivity
                        && r.value.metadata == None && r.value.Len() == 0
                        && r.value.engine.tiles == [] && r.value.engine.digestCalls == 0
                        && r.value.engine.requests == []
    {
      if !(1 <= connectivity <= 3) {
        return Err(ValueError(connectivity));
      }
      var p := new PolygonSet(connectivity);
      return Ok(p);
    }

    /** `len(polygon_set)` */
    function Len(): nat
      reads this
    {
      numPolygons
    }

    /** `dtype()` */
    function Dtype(): LabelDtype
      reads this
    {
      DtypeFor(numPolygons)
    }

    /** One pass of the outer loop of `read_from`: the tiles of grid row
        `r`, whose top edge is `y`, left to right, each counted on from
        `tileCount0`. */
    method ReadRow(img: Volume, ghost r: nat, y: nat, tileCount0: nat) returns (tileCount: nat)
      requires img.meta.Z >= 1 && ThickEdges(img.meta)
      requires y == r * TileSize(img.meta.Z) < img.meta.Y
      modifies engine
      ensures tileCount == tileCount0 + GridCount(img.meta.X, TileSize(img.meta.Z))
      ensures engine.tiles == old(engine.tiles) + RowTiles(img, r)
      ensures engine.digestCalls == old(engine.digestCalls)
      ensures engine.requests == old(engine.requests) && engine.count == old(engine.count)
    {
      var meta := img.meta;
      var ts := TileSize(meta.Z);
      ghost var row := RowTiles(img, r);
      ghost var tiles0 := engine.tiles;
      ghost var calls0, requests0, count0 := engine.digestCalls, engine.requests, engine.count;
      var yMax := Min(meta.Y, y + ts);
      tileCount := tileCount0;
      var x := 0;
      ghost var c := 0;
      while x < meta.X
        invariant c <= |row| && x == c * ts
        invariant tileCount == tileCount0 + c
        invariant engine.tiles == tiles0 + row[..c]
        invariant engine.digestCalls == calls0 && engine.requests == requests0 && engine.count == count0
        decreases meta.X - x
      {
        var xMax := Min(meta.X, x + ts);
        // ReadStep: numpy's squeeze and reshape hand this 0/1 tile over in
        // (z, y, x) layout, and it is entry c of the row
        var tile := TileOf(img, Box(y, yMax, x, xMax));
        ReadStep(img, r, c, y, yMax, x, xMax, tile);
        engine.AddTile(tile);
        AppendNext(tiles0, row, c);
        MulSucc(c, ts);
        tileCount := tileCount + 1;
        x := x + ts;
        c := c + 1;
      }
      RowStartsInside(meta.X, ts, c);
      assert row[..c] == row;
    }

    /** The outer loop of `read_from`: every tile of the grid, row by
        row, handed to the engine, and the final `tile_count`. The progress
        line after each row divides by `num_cols * num_rows`, so a non-empty
        Y with an empty X raises ZeroDivisionError after the first row,
        which holds no tile. */
    method ReadTiles(img: Volume) returns (res: Result<nat, FtlError>)
      requires img.meta.Z >= 1 && ThickEdges(img.meta)
      modifies engine
      ensures res.Err? <==> img.meta.Y > 0 && img.meta.X == 0
      ensures res.Err? ==> res.error == ZeroDivisionError
      ensures engine.tiles == old(engine.tiles) + Ingested(img)
      ensures engine.digestCalls == old(engine.digestCalls)
      ensures engine.requests == old(engine.requests) && engine.count == old(engine.count)
      ensures var ts := TileSize(img.meta.Z);
        res.Ok? ==> res.value == GridCount(img.meta.Y, ts) * GridCount(img.meta.X, ts)
    {
      var meta := img.meta;
      var ts := TileSize(meta.Z);
      var numCols, numRows := GridCount(meta.Y, ts), GridCount(meta.X, ts);
      ghost var tiles0 := engine.tiles;
      ghost var calls0, requests0, count0 := engine.digestCalls, engine.requests, engine.count;
      var tileCount := 0;
      var y := 0;
      ghost var r := 0;
      while y < meta.Y
        invariant r <= numCols && y == r * ts
        invariant tileCount == |Rows(img, r)|
        invariant r > 0 ==> numCols * numRows != 0
        invariant engine.tiles == tiles0 + Rows(img, r)
        invariant engine.digestCalls == calls0 && engine.requests == requests0 && engine.count == count0
        decreases meta.Y - y
      {
        RowStartsInside(meta.Y, ts, r);
        tileCount := ReadRow(img, r, y, tileCount);
        RowsNext(img, r);
        AppendAssoc(tiles0, Rows(img, r), RowTiles(img, r));
        MulSucc(r, ts);
        y := y + ts;
        r := r + 1;
        if numCols * numRows == 0 {
          NoTiles(meta.Y, meta.X, ts);
          RowsLength(img, r);
          IngestedLength(img);
          return Err(ZeroDivisionError);
        }
      }
      RowStartsInside(meta.Y, ts, r);
      IngestedLength(img);
      NoTiles(meta.Y, meta.X, ts);
      return Ok(tileCount);
    }

    /** `read_from`: records the metadata, hands every binarised tile of
        the grid to the engine, then digests exactly once and takes the
        number of polygons from the engine. Returns the final `tile_count`,
        or the ZeroDivisionError of the progress line, raised before the
        digest. */
    method ReadFrom(img: Volume, found: nat) returns (res: Result<nat, FtlError>)
      requires Valid()
      requires img.meta.Z >= 1 && ThickEdges(img.meta)
      modifies this, engine
      ensures metadata == Some(img.meta)
      ensures engine.tiles == old(engine.tiles) + Ingested(img)
      ensures engine.requests == old(engine.requests)
      ensures res.Err? <==> img.meta.Y > 0 && img.meta.X == 0
      ensures res.Err? ==> && res.error == ZeroDivisionError
                           && engine.tiles == old(engine.tiles)
                           && engine.digestCalls == old(engine.digestCalls)
                           && Len() == old(Len())
      ensures res.Ok? ==> && Valid()
                          && engine.digestCalls == old(engine.digestCalls) + 1
                          && Len() == found
      ensures var ts := TileSize(img.meta.Z);
        res.Ok? ==> res.value == GridCount(img.meta.Y, ts) * GridCount(img.meta.X, ts)
    {
      metadata := Some(img.meta);
      res := ReadTiles(img);
      if res.Err? {
        IngestedLength(img);
        return;
      }
      engine.Digest(found);
      numPolygons := engine.Len();
    }

    /** The innermost loop of `write_to`: asks the engine for the tiles of
        grid row `r` of plane `z`, whose top edge is `y`, left to right. */
    method WriteRow(meta: ImageMeta, z: nat, ghost r: nat, y: nat, tileCount0: nat) returns (tileCount: nat)
      requires engine.digestCalls > 0
      requires y == r * TileSize(meta.Z) < meta.Y
      modifies engine
      ensures tileCount == tileCount0 + GridCount(meta.X, TileSize(meta.Z))
      ensures engine.requests == old(engine.requests) + RowBounds(meta, z, r)
      ensures engine.tiles == old(engine.tiles) && engine.digestCalls == old(engine.digestCalls)
      ensures engine.count == old(engine.count)
    {
      var ts := TileSize(meta.Z);
      ghost var row := RowBounds(meta, z, r);
      ghost var requests0 := engine.requests;
      ghost var tiles0, calls0, count0 := engine.tiles, engine.digestCalls, engine.count;
      var yMax := Min(meta.Y, y + ts);
      tileCount := tileCount0;
      var x := 0;
      ghost var c := 0;
      while x < meta.X
        invariant c <= |row| && x == c * ts
        invariant tileCount == tileCount0 + c
        invariant engine.requests == requests0 + row[..c]
        invariant engine.tiles == tiles0 && engine.digestCalls == calls0 && engine.count == count0
        decreases meta.X - x
      {
        var xMax := Min(meta.X, x + ts);
        RowStartsInside(meta.X, ts, c);
        var bounds := Bounds(z, z + 1, y, yMax, x, xMax);
        assert bounds == row[c];
        engine.ExtractTile(bounds);
        AppendNext(requests0, row, c);
        MulSucc(c, ts);
        tileCount := tileCount + 1;
        x := x + ts;
        c := c + 1;
      }
      RowStartsInside(meta.X, ts, c);
      assert row[..c] == row;
    }

    /** The middle loop of `write_to`: the rows of plane `z`, top to bottom. */
    method WritePlane(meta: ImageMeta, z: nat, tileCount0: nat) returns (tileCount: nat)
      requires engine.digestCalls > 0
      modifies engine
      ensures var ts := TileSize(meta.Z);
        tileCount == tileCount0 + GridCount(meta.Y, ts) * GridCount(meta.X, ts)
      ensures engine.requests == old(engine.requests) + PlaneBounds(meta, z, GridCount(meta.Y, TileSize(meta.Z)))
      ensures engine.tiles == old(engine.tiles) && engine.digestCalls == old(engine.digestCalls)
      ensures engine.count == old(engine.count)
    {
      var ts := TileSize(meta.Z);
      ghost var numCols, numRows := GridCount(meta.Y, ts), GridCount(meta.X, ts);
      ghost var requests0 := engine.requests;
      ghost var tiles0, calls0, count0 := engine.tiles, engine.digestCalls, engine.count;
      tileCount := tileCount0;
      var y := 0;
      ghost var r := 0;
      while y < meta.Y
        invariant r <= numCols && y == r * ts
        invariant tileCount == tileCount0 + r * numRows
        invariant engine.requests == requests0 + PlaneBounds(meta, z, r)
        invariant engine.tiles == tiles0 && engine.digestCalls == calls0 && engine.count == count0
        decreases meta.Y - y
      {
        RowStartsInside(meta.Y, ts, r);
        tileCount := WriteRow(meta, z, r, y, tileCount);
        PlaneBoundsNext(meta, z, r);
        AppendAssoc(requests0, PlaneBounds(meta, z, r), RowBounds(meta, z, r));
        MulSucc(r, numRows);
        MulSucc(r, ts);
        y := y + ts;
        r := r + 1;
      }
      RowStartsInside(meta.Y, ts, r);
    }

    /** `write_to`: sets the writer's dtype to `dtype()` and asks the engine
        for one tile of labels per plane and grid box, plane by plane, each
        in row-major order. Returns the writer dtype and the final
        `tile_count`; the progress line after each plane divides by
        `num_cols * num_rows * Z`, so when a plane has no tile the first
        plane ends in ZeroDivisionError. */
    method WriteTo() returns (writerDtype: LabelDtype, res: Result<nat, FtlError>)
      requires Valid() && metadata.Some?
      modifies engine
      ensures Valid()
      ensures writerDtype == Dtype()
      ensures engine.requests == old(engine.requests) + ExtractionBounds(metadata.value)
      ensures engine.tiles == old(engine.tiles) && engine.digestCalls == old(engine.digestCalls)
      ensures var meta := metadata.value;
        res.Err? <==> meta.Z > 0 && (meta.Y == 0 || meta.X == 0)
      ensures res.Err? ==> res.error == ZeroDivisionError
      ensures var meta := metadata.value; var ts := TileSize(meta.Z);
        res.Ok? ==> res.value == meta.Z * (GridCount(meta.Y, ts) * GridCount(meta.X, ts))
    {
      var meta := metadata.value;
      writerDtype := Dtype();
      var ts := TileSize(meta.Z);
      var numCols, numRows := GridCount(meta.Y, ts), GridCount(meta.X, ts);
      ghost var perPlane := numCols * numRows;
      ghost var requests0 := engine.requests;
      ghost var tiles0, calls0, count0 := engine.tiles, engine.digestCalls, engine.count;
      var tileCount := 0;
      var z := 0;
      while z < meta.Z
        invariant z <= meta.Z
        invariant tileCount == z * perPlane
        invariant z > 0 ==> perPlane != 0
        invariant engine.requests == requests0 + PlanesBounds(meta, z)
        invariant engine.tiles == tiles0 && engine.digestCalls == calls0 && engine.count == count0
        decreases meta.Z - z
      {
        tileCount := WritePlane(meta, z, tileCount);
        PlanesBoundsNext(meta, z);
        AppendAssoc(requests0, PlanesBounds(meta, z), PlaneBounds(meta, z, GridCount(meta.Y, ts)));
        MulSucc(z, perPlane);
        z := z + 1;
        if numCols * numRows * meta.Z == 0 {
          ProductZero(perPlane, meta.Z);
          NoTiles(meta.Y, meta.X, ts);
          PlanesBoundsLength(meta, z);
          PlanesBoundsLength(meta, meta.Z);
          return writerDtype, Err(ZeroDivisionError);
        }
      }
      NoTiles(meta.Y, meta.X, ts);
      return writerDtype, Ok(tileCount);
    }
  }
}
