/**
 The band compositor: decoded bands are copied row by row into one canvas.

 A canvas is described by the updates it has accepted; the class is the pixel vector itself, and its
 invariant says that every byte comes from the latest accepted band that covers it.
 */
module Compositing {
  import opened Bytes

  const MAX_FRAME_DIMENSION := 16384
  const MAX_FRAME_PIXELS := 32 * 1024 * 1024
  const MAX_TILES := 16

  /** `rgba_len`: the byte length of a frame, unless its dimensions are refused. */
  function RgbaLen(width: nat, height: nat): Option<nat> {
    if width == 0 || height == 0 || width > MAX_FRAME_DIMENSION || height > MAX_FRAME_DIMENSION then None
    else if width * height > MAX_FRAME_PIXELS then None
    else Some(width * height * 4)
  }

  datatype Tile = Tile(index: nat, width: nat, height: nat, pixels: seq<byte>)

  /** A canvas of negotiated size and the updates it has accepted, oldest first. */
  datatype Canvas = Canvas(width: nat, height: nat, tiles: nat, applied: seq<Tile>)

  datatype UpdateError = InvalidTile | GeometryChanged | InvalidDimensions

  predicate WellFormed(t: Tile) {
    RgbaLen(t.width, t.height) == Some(|t.pixels|)
  }

  /** A frame of allowed size with four bytes to the pixel. */
  predicate Sized(t: Tile) {
    && 1 <= t.width <= 16384 && 1 <= t.height <= 16384 && t.width * t.height <= 33554432
    && |t.pixels| == t.width * t.height * 4
  }

  /** A band fits if it has an index on the canvas, an allowed size, and the height of the first one ever accepted. */
  predicate Fits(c: Canvas, t: Tile) {
    t.index < c.tiles && Sized(t) && (c.applied != [] ==> t.height == c.applied[0].height)
  }

  /** The band height, fixed by the first accepted update. */
  function Slot(c: Canvas): Option<nat> {
    if c.applied == [] then None else Some(c.applied[0].height)
  }

  function Refusal(c: Canvas, t: Tile): Option<UpdateError> {
    if t.index >= c.tiles || !WellFormed(t) then Some(InvalidTile)
    else if Slot(c).Some? && Slot(c).value != t.height then Some(GeometryChanged)
    else None
  }

  /** Exactly the bands that fit are accepted, however wide; a wrong index or size is reported before the height. */
  lemma AcceptsExactlyFitting(c: Canvas, t: Tile)
    ensures Refusal(c, t) == if Fits(c, t) then None
                             else if t.index < c.tiles && Sized(t) then Some(GeometryChanged) else Some(InvalidTile)
  {
  }

  function Updated(c: Canvas, t: Tile): Canvas {
    c.(applied := c.applied + [t])
  }

  predicate CanvasOk(c: Canvas) {
    && RgbaLen(c.width, c.height).Some? && 1 <= c.tiles <= MAX_TILES
    && forall t <- c.applied :: t.index < c.tiles && WellFormed(t) && t.height == c.applied[0].height
  }

  /** The canvas row at which a band starts. */
  function Top(t: Tile): nat {
    t.index * t.height
  }

  /** Band `t` holds a pixel for column `x` of row `y`. */
  predicate Covers(t: Tile, x: nat, y: nat) {
    t.index * t.height <= y < t.index * t.height + t.height && x < t.width
  }

  /** Where band `t` keeps byte `c` of canvas pixel (`x`, `y`). */
  function SourceIndex(t: Tile, x: nat, y: nat, c: nat): nat
    requires Covers(t, x, y)
  {
    (y - t.index * t.height) * t.width * 4 + (4 * x + c)
  }

  lemma SourceInBounds(t: Tile, x: nat, y: nat, c: nat)
    requires WellFormed(t) && Covers(t, x, y) && c < 4
    ensures SourceIndex(t, x, y, c) < |t.pixels|
  {
    RowFits(y - t.index * t.height, t.width, t.height, x);
  }

  /** Column `x` of row `row` lies inside a frame of `height` rows of `width`. */
  lemma RowFits(row: nat, width: nat, height: nat, x: nat)
    requires row < height && x < width
    ensures row * width * 4 + 4 * x + 4 <= width * height * 4
  {
    assert (row + 1) * width <= height * width;
  }

  /** Byte `c` of pixel (`x`, `y`): from the latest update that covers it, or zero. */
  function ByteAt(applied: seq<Tile>, x: nat, y: nat, c: nat): byte
    requires c < 4 && forall t <- applied :: WellFormed(t)
  {
    if applied == [] then 0
    else
      var t := applied[|applied| - 1];
      if Covers(t, x, y) then SourceInBounds(t, x, y, c); t.pixels[SourceIndex(t, x, y, c)]
      else ByteAt(applied[..|applied| - 1], x, y, c)
  }

  /** Band `i` has been drawn: it was updated, and it starts inside the canvas. */
  predicate Drawn(c: Canvas, i: nat) {
    exists k :: 0 <= k < |c.applied| && c.applied[k].index == i && i * c.applied[k].height < c.height
  }

  predicate AllDrawn(c: Canvas) {
    forall i :: 0 <= i < c.tiles ==> Drawn(c, i)
  }

  // ----- flat indices

  function Quotient(k: nat, w: nat): nat
    requires w > 0
  {
    k / w
  }

  function FlatRow(width: nat, k: nat): nat
    requires width > 0
  {
    Quotient(k, 4 * width)
  }

  function FlatCol(width: nat, k: nat): nat
    requires width > 0
  {
    k % (4 * width) / 4
  }

  lemma FlatParts(width: nat, k: nat)
    requires width > 0
    ensures k == FlatRow(width, k) * (4 * width) + 4 * FlatCol(width, k) + k % 4
    ensures FlatCol(width, k) < width
  {
    var r := k % (4 * width);
    assert k == (4 * width) * (k / (4 * width)) + r;
    assert r == 4 * (r / 4) + r % 4;
    ModFour(k / (4 * width), width, r);
  }

  lemma ModFour(q: nat, width: nat, r: nat)
    ensures (4 * width * q + r) % 4 == r % 4
  {
    assert 4 * width * q + r == 4 * (width * q) + r;
    Mod4Add(width * q, r);
  }

  lemma Mod4Add(a: nat, r: nat)
    ensures (4 * a + r) % 4 == r % 4
  {
  }

  /** A number is in block `row` of size `w` exactly when its quotient is `row`. */
  lemma Block(k: nat, q: nat, r: nat, w: nat, row: nat, len: nat)
    requires k == q * w + r && r < w && len <= w
    ensures row * w <= k < row * w + len <==> q == row && r < len
  {
    if q < row {
      MulLe(q + 1, row, w);
    } else if q > row {
      MulLe(row + 1, q, w);
    }
  }

  /** The bytes of the first `cols` columns of row `row` are one contiguous range. */
  lemma RowRange(width: nat, k: nat, row: nat, cols: nat)
    requires 0 < width && cols <= width
    ensures row * width * 4 <= k < row * width * 4 + cols * 4 <==> FlatRow(width, k) == row && FlatCol(width, k) < cols
  {
    hide FlatRow, FlatCol;
    FlatParts(width, k);
    MulSwap(row, width);
    Block(k, FlatRow(width, k), 4 * FlatCol(width, k) + k % 4, 4 * width, row, 4 * cols);
  }

  lemma MulSwap(row: nat, width: nat)
    ensures row * width * 4 == row * (4 * width)
  {
  }

  lemma MulLe(a: nat, b: nat, w: nat)
    requires a <= b
    ensures a * w <= b * w
  {
  }

  lemma FlatIndex(width: nat, x: nat, y: nat, c: nat)
    requires x < width && c < 4
    ensures var k := (y * width + x) * 4 + c; FlatRow(width, k) == y && FlatCol(width, k) == x && k % 4 == c
  {
    hide FlatRow, FlatCol;
    var k := (y * width + x) * 4 + c;
    assert k == y * width * 4 + (4 * x + c);
    RowRange(width, k, y, x + 1);
    FlatParts(width, k);
    MulSwap(y, width);
  }

  // ----- the compositor

  class Compositor {
    const width: nat
    const height: nat
    const tiles: nat
    const pixels: array<byte>
    var slotHeight: Option<nat>
    var seen: seq<bool>
    ghost var applied: seq<Tile>

    ghost function Model(): Canvas
      reads this
    {
      Canvas(width, height, tiles, applied)
    }

    /** The pixels are those of the model, and `seen` says which bands have been drawn. */
    ghost predicate Valid()
      reads this, pixels
    {
      && CanvasOk(Model()) && pixels.Length == width * height * 4
      && slotHeight == Slot(Model())
      && SeenOk(seen, Model())
      && Shows(pixels[..], Model())
    }

    constructor (width: nat, height: nat, tiles: nat)
      requires RgbaLen(width, height).Some? && 1 <= tiles <= MAX_TILES
      ensures Valid() && fresh(pixels) && Model() == Canvas(width, height, tiles, [])
    {
      this.width, this.height, this.tiles := width, height, tiles;
      pixels := new byte[width * height * 4](_ => 0);
      slotHeight := None;
      seen := seq(tiles, _ => false);
      applied := [];
    }

    static method New(width: nat, height: nat, tiles: nat) returns (r: Result<Compositor, UpdateError>)
      ensures r.Success? <==>
                && 1 <= tiles <= 16 && 1 <= width <= 16384 && 1 <= height <= 16384 && width * height <= 33554432
      ensures r.Success? ==>
                r.value.Valid() && fresh(r.value) && fresh(r.value.pixels)
                && r.value.Model() == Canvas(width, height, tiles, [])
    {
      if tiles == 0 || tiles > MAX_TILES || RgbaLen(width, height).None? {
        return Failure(InvalidDimensions);
      }
      var c := new Compositor(width, height, tiles);
      return Success(c);
    }

    /** Copies a decoded band; refused bands change nothing, and `true` means that every band has been drawn. */
    method Update(t: Tile) returns (r: Result<bool, UpdateError>)
      requires Valid()
      modifies this, pixels
      ensures Valid()
      ensures !Fits(old(Model()), t) ==>
                && r == Failure(if t.index < tiles && Sized(t) then GeometryChanged else InvalidTile)
                && applied == old(applied)
                && slotHeight == old(slotHeight) && seen == old(seen) && pixels[..] == old(pixels[..])
      ensures Fits(old(Model()), t) ==> applied == old(applied) + [t] && r == Success(AllDrawn(Model()))
    {
      AcceptsExactlyFitting(Model(), t);
      if t.index >= tiles || !(RgbaLen(t.width, t.height) == Some(|t.pixels|)) {
        return Failure(InvalidTile);
      }
      if slotHeight.Some? && slotHeight.value != t.height {
        return Failure(GeometryChanged);
      }
      var complete := Draw(t);
      return Success(complete);
    }

    method Draw(t: Tile) returns (complete: bool)
      requires Valid() && Refusal(Model(), t).None?
      modifies this, pixels
      ensures Valid() && Model() == Updated(old(Model()), t) && complete == AllDrawn(Model())
    {
      ghost var before := Model();
      UpdatedOk(before, t);
      SeenAfter(seen, before, t);
      hide CanvasOk, Drawn, WellFormed, Slot, Refusal, Shows, SeenOk, AllDrawn, Top;
      slotHeight := Some(t.height);
      applied := applied + [t];
      var y := Top(t);
      if y >= height {
        ShowsBelow(pixels[..], before, t);
        return false;
      }
      DrawRows(t, y, before);
      seen := seen[t.index := true];
      SeenAll(seen, Model());
      return forall i :: 0 <= i < |seen| ==> seen[i];
    }

    /** The rows of a band that starts inside the canvas, clipped at its right and lower edges. */
    method DrawRows(t: Tile, y: nat, ghost before: Canvas)
      requires CanvasOk(before) && WellFormed(t) && 0 < width == before.width && height == before.height
      requires pixels.Length == width * height * 4 && Shows(pixels[..], before)
      requires y == Top(t) && y < height
      modifies pixels
      ensures Shows(pixels[..], Updated(before, t))
    {
      hide CanvasOk, WellFormed, Shows, RowByte, FlatRow, FlatCol, Top;
      CopyRows(t, y, Min(t.height, height - y), Min(t.width, width));
      ShowsCopied(old(pixels[..]), pixels[..], before, t);
    }

    /** Copies one row of a band into the canvas row `y`. */
    method CopyRow(t: Tile, row: nat, y: nat, cols: nat)
      requires pixels.Length == width * height * 4 && WellFormed(t)
      requires row < t.height && y < height && 0 < width && cols <= width && cols <= t.width
      modifies pixels
      ensures forall k :: 0 <= k < pixels.Length ==>
                pixels[k] == if FlatRow(width, k) == y && FlatCol(width, k) < cols
                             then RowByte(t, row, FlatCol(width, k), k % 4) else old(pixels[k])
    {
      hide FlatRow, FlatCol, WellFormed, Quotient;
      var src := row * t.width * 4;
      var dst := y * width * 4;
      SliceFits(t, row);
      if cols > 0 {
        RowFits(row, t.width, t.height, cols - 1);
        RowFits(y, width, height, cols - 1);
      } else {
        MulLe(y, height, width);
        MulLe(row, t.height, t.width);
      }
      forall k | 0 <= k < cols * 4 {
        pixels[dst + k] := t.pixels[src + k];
      }
      RowCopied(old(pixels[..]), pixels[..], width, t, row, y, cols);
    }

    method CopyRows(t: Tile, y: nat, rows: nat, cols: nat)
      requires pixels.Length == width * height * 4 && WellFormed(t)
      requires rows <= t.height && y + rows <= height && 0 < width && cols <= width && cols <= t.width
      modifies pixels
      ensures forall k :: 0 <= k < pixels.Length ==>
                pixels[k] == if y <= FlatRow(width, k) < y + rows && FlatCol(width, k) < cols
                             then RowByte(t, FlatRow(width, k) - y, FlatCol(width, k), k % 4) else old(pixels[k])
    {
      hide FlatRow, FlatCol, WellFormed, RowByte;
      for row := 0 to rows
        invariant forall k :: 0 <= k < pixels.Length ==>
                    pixels[k] == if y <= FlatRow(width, k) < y + row && FlatCol(width, k) < cols
                                 then RowByte(t, FlatRow(width, k) - y, FlatCol(width, k), k % 4) else old(pixels[k])
      {
        CopyRow(t, row, y + row, cols);
      }
    }
  }

  /** A contiguous copy into the canvas is a copy of columns into one row. */
  lemma RowCopied(prior: seq<byte>, pixels: seq<byte>, width: nat, t: Tile, row: nat, y: nat, cols: nat)
    requires |prior| == |pixels| && 0 < width && cols <= width && cols <= t.width && WellFormed(t) && row < t.height
    requires var src, dst := row * t.width * 4, y * width * 4;
             && src + cols * 4 <= |t.pixels|
             && forall k :: 0 <= k < |pixels| ==>
                  pixels[k] == if dst <= k < dst + cols * 4 then t.pixels[src + (k - dst)] else prior[k]
    ensures forall k :: 0 <= k < |pixels| ==>
              pixels[k] == if FlatRow(width, k) == y && FlatCol(width, k) < cols
                           then RowByte(t, row, FlatCol(width, k), k % 4) else prior[k]
  {
    hide FlatRow, FlatCol, WellFormed, RowByte;
    var src, dst := row * t.width * 4, y * width * 4;
    forall k | 0 <= k < |pixels|
      ensures pixels[k] == if FlatRow(width, k) == y && FlatCol(width, k) < cols
                           then RowByte(t, row, FlatCol(width, k), k % 4) else prior[k]
    {
      RowRange(width, k, y, cols);
      if FlatRow(width, k) == y && FlatCol(width, k) < cols {
        FlatParts(width, k);
        MulSwap(y, width);
        RowByteIs(t, row, FlatCol(width, k), k % 4);
      }
    }
  }

  /** Byte `c` of column `x` in row `row` of a band; zero outside it. */
  function RowByte(t: Tile, row: nat, x: nat, c: nat): byte {
    var i := row * t.width * 4 + (4 * x + c);
    if i < |t.pixels| then t.pixels[i] else 0
  }

  lemma RowByteIs(t: Tile, row: nat, x: nat, c: nat)
    requires WellFormed(t) && row < t.height && x < t.width && c < 4
    ensures var i := row * t.width * 4 + (4 * x + c); i < |t.pixels| && RowByte(t, row, x, c) == t.pixels[i]
  {
    RowFits(row, t.width, t.height, x);
  }

  lemma SliceFits(t: Tile, row: nat)
    requires WellFormed(t) && row < t.height
    ensures |t.pixels| == t.width * t.height * 4
  {
  }

  lemma Reorder(width: nat, height: nat)
    ensures height * (4 * width) == width * height * 4
  {
  }

  lemma RowsInside(width: nat, height: nat, k: nat)
    requires 0 < width && k < width * height * 4
    ensures FlatRow(width, k) < height
  {
    hide FlatRow, FlatCol;
    FlatParts(width, k);
    var q := FlatRow(width, k);
    Reorder(width, height);
    if q >= height {
      MulLe(height, q, 4 * width);
    }
  }

  /** Inside the canvas, the copied rectangle is exactly what the new band covers. */
  lemma CopiedIsCovered(c: Canvas, t: Tile, x: nat, y: nat, b: nat)
    requires CanvasOk(c) && WellFormed(t) && x < c.width && y < c.height && b < 4
    ensures var top := t.index * t.height;
            ByteAt(c.applied + [t], x, y, b)
            == if top <= y < top + Min(t.height, c.height - top) && x < Min(t.width, c.width)
               then RowByte(t, y - top, x, b) else ByteAt(c.applied, x, y, b)
  {
    hide RowByte, WellFormed;
    assert (c.applied + [t])[..|c.applied|] == c.applied;
    if Covers(t, x, y) {
      RowByteIs(t, y - t.index * t.height, x, b);
    }
  }

  /** Every byte of the frame is the byte of the model. */
  ghost predicate Shows(pixels: seq<byte>, c: Canvas)
  {
    && CanvasWellFormed(c)
    && forall k :: 0 <= k < |pixels| ==> pixels[k] == ByteAt(c.applied, FlatCol(c.width, k), FlatRow(c.width, k), k % 4)
  }

  lemma UpdatedOk(c: Canvas, t: Tile)
    requires CanvasOk(c) && Refusal(c, t).None?
    ensures CanvasOk(Updated(c, t)) && Slot(Updated(c, t)) == Some(t.height)
    ensures c.width > 0 && WellFormed(t) && t.height > 0 && (forall u <- c.applied :: WellFormed(u))
  {
  }

  /** An update draws its own band, if that starts inside the canvas, and no other. */
  lemma DrawnAfter(c: Canvas, t: Tile)
    requires CanvasOk(c) && Refusal(c, t).None?
    ensures forall i :: 0 <= i < c.tiles ==>
              (Drawn(Updated(c, t), i) <==> Drawn(c, i) || (i == t.index && t.index * t.height < c.height))
  {
    var d := Updated(c, t);
    assert d.applied[|c.applied|] == t;
    forall i | 0 <= i < c.tiles && Drawn(c, i) ensures Drawn(d, i) {
      var k :| 0 <= k < |c.applied| && c.applied[k].index == i && i * c.applied[k].height < c.height;
      assert d.applied[k] == c.applied[k];
    }
  }

  lemma NotDrawn(c: Canvas, t: Tile)
    requires CanvasOk(Updated(c, t)) && Slot(Updated(c, t)) == Some(t.height) && t.index * t.height >= c.height
    ensures t.index < c.tiles && !Drawn(Updated(c, t), t.index)
  {
    var d := Updated(c, t);
    assert d.applied[|c.applied|] == t;
    forall k | 0 <= k < |d.applied| ensures d.applied[k].height == t.height {
      assert d.applied[k] in d.applied;
    }
  }

  /** `seen` says which bands have been drawn. */
  predicate SeenOk(seen: seq<bool>, c: Canvas) {
    |seen| == c.tiles && forall i :: 0 <= i < c.tiles ==> (seen[i] <==> Drawn(c, i))
  }

  lemma SeenAfter(seen: seq<bool>, c: Canvas, t: Tile)
    requires CanvasOk(c) && Refusal(c, t).None? && SeenOk(seen, c)
    ensures t.index < |seen|
    ensures if Top(t) >= c.height then SeenOk(seen, Updated(c, t)) && !AllDrawn(Updated(c, t))
            else SeenOk(seen[t.index := true], Updated(c, t))
  {
    DrawnAfter(c, t);
    UpdatedOk(c, t);
    hide Drawn, WellFormed;
    if t.index * t.height >= c.height {
      NotDrawn(c, t);
    }
  }

  lemma SeenAll(seen: seq<bool>, c: Canvas)
    requires SeenOk(seen, c)
    ensures (forall i :: 0 <= i < |seen| ==> seen[i]) <==> AllDrawn(c)
  {
    hide Drawn;
  }

  lemma ShowsBelow(pixels: seq<byte>, c: Canvas, t: Tile)
    requires CanvasOk(c) && WellFormed(t) && Shows(pixels, c)
    requires |pixels| == c.width * c.height * 4 && Top(t) >= c.height
    ensures CanvasWellFormed(Updated(c, t)) && Shows(pixels, Updated(c, t))
  {
    forall k | 0 <= k < |pixels|
      ensures pixels[k] == ByteAt(c.applied + [t], FlatCol(c.width, k), FlatRow(c.width, k), k % 4)
    {
      FlatParts(c.width, k);
      RowsInside(c.width, c.height, k);
      CopiedIsCovered(c, t, FlatCol(c.width, k), FlatRow(c.width, k), k % 4);
    }
  }

  predicate CanvasWellFormed(c: Canvas) {
    c.width > 0 && forall t <- c.applied :: WellFormed(t)
  }

  lemma ShowsCopied(prior: seq<byte>, pixels: seq<byte>, c: Canvas, t: Tile)
    requires CanvasOk(c) && WellFormed(t) && Shows(prior, c)
    requires |prior| == |pixels| == c.width * c.height * 4 && Top(t) < c.height
    requires var top := Top(t);
             forall k :: 0 <= k < |pixels| ==>
               pixels[k] == if top <= FlatRow(c.width, k) < top + Min(t.height, c.height - top)
                                 && FlatCol(c.width, k) < Min(t.width, c.width)
                            then RowByte(t, FlatRow(c.width, k) - top, FlatCol(c.width, k), k % 4) else prior[k]
    ensures CanvasWellFormed(Updated(c, t)) && Shows(pixels, Updated(c, t))
  {
    hide FlatRow, FlatCol, RowByte, WellFormed;
    forall k | 0 <= k < |pixels|
      ensures pixels[k] == ByteAt(c.applied + [t], FlatCol(c.width, k), FlatRow(c.width, k), k % 4)
    {
      FlatParts(c.width, k);
      RowsInside(c.width, c.height, k);
      CopiedIsCovered(c, t, FlatCol(c.width, k), FlatRow(c.width, k), k % 4);
    }
  }

  // ----- what a canvas shows

  /** Band `t` lies at rows `index * height` on, from the left edge: (`x`, `y`) is one of its pixels. */
  predicate Inside(t: Tile, x: nat, y: nat) {
    x < t.width && t.index * t.height <= y && y - t.index * t.height < t.height
  }

  /** Byte `b` of pixel (`x`, `y`) as the band spells it: row by row, four bytes to the pixel. */
  predicate Spells(t: Tile, x: nat, y: nat, b: nat, value: byte)
    requires Inside(t, x, y)
  {
    var i := ((y - t.index * t.height) * t.width + x) * 4 + b; i < |t.pixels| && value == t.pixels[i]
  }

  lemma {:induction false} LatestShows(applied: seq<Tile>, i: nat, x: nat, y: nat, b: nat)
    requires (forall t <- applied :: WellFormed(t)) && b < 4 && i < |applied| && Inside(applied[i], x, y)
    requires forall j :: i < j < |applied| ==> !Inside(applied[j], x, y)
    ensures Spells(applied[i], x, y, b, ByteAt(applied, x, y, b))
    decreases |applied|
  {
    hide WellFormed;
    var n := |applied| - 1;
    if i == n {
      SourceInBounds(applied[i], x, y, b);
    } else {
      assert !Inside(applied[n], x, y);
      LatestShows(applied[..n], i, x, y, b);
    }
  }

  lemma {:induction false} NoneShows(applied: seq<Tile>, x: nat, y: nat, b: nat)
    requires (forall t <- applied :: WellFormed(t)) && b < 4
    requires forall j :: 0 <= j < |applied| ==> !Inside(applied[j], x, y)
    ensures ByteAt(applied, x, y, b) == 0
    decreases |applied|
  {
    hide WellFormed;
    if applied != [] {
      var n := |applied| - 1;
      assert !Inside(applied[n], x, y);
      NoneShows(applied[..n], x, y, b);
    }
  }

  /** No band behind `i` lies over the pixel. */
  predicate LatestOver(applied: seq<Tile>, i: nat, x: nat, y: nat) {
    i < |applied| && Inside(applied[i], x, y) && forall j :: i < j < |applied| ==> !Inside(applied[j], x, y)
  }

  /** The value of a pixel's byte is that of the latest band over it, or zero without one. */
  predicate IsShown(applied: seq<Tile>, x: nat, y: nat, b: nat, value: byte) {
    && (forall i :: 0 <= i < |applied| && LatestOver(applied, i, x, y) ==> Spells(applied[i], x, y, b, value))
    && ((forall i :: 0 <= i < |applied| ==> !Inside(applied[i], x, y)) ==> value == 0)
  }

  lemma AppliedShow(applied: seq<Tile>, x: nat, y: nat, b: nat)
    requires (forall t <- applied :: WellFormed(t)) && b < 4
    ensures IsShown(applied, x, y, b, ByteAt(applied, x, y, b))
  {
    hide ByteAt, Inside, WellFormed, Spells;
    forall i | 0 <= i < |applied| && LatestOver(applied, i, x, y)
      ensures Spells(applied[i], x, y, b, ByteAt(applied, x, y, b))
    {
      LatestShows(applied, i, x, y, b);
    }
    if forall i :: 0 <= i < |applied| ==> !Inside(applied[i], x, y) {
      NoneShows(applied, x, y, b);
    }
  }

  /** The pixel at (`x`, `y`) of a valid compositor is that of the latest accepted band over it, or zero without one. */
  lemma PixelsShown(c: Compositor, x: nat, y: nat, b: nat)
    requires c.Valid() && x < c.width && y < c.height && b < 4
    ensures var k := (y * c.width + x) * 4 + b;
            k < c.pixels.Length && IsShown(c.applied, x, y, b, c.pixels[k])
  {
    hide IsShown;
    ByteShown(c, x, y, b);
    AppliedShow(c.applied, x, y, b);
  }

  lemma ByteShown(c: Compositor, x: nat, y: nat, b: nat)
    requires c.Valid() && x < c.width && y < c.height && b < 4
    ensures var k := (y * c.width + x) * 4 + b;
            k < c.pixels.Length && c.pixels[k] == ByteAt(c.applied, x, y, b)
  {
    var k := (y * c.width + x) * 4 + b;
    RowFits(y, c.width, c.height, x);
    assert k == y * c.width * 4 + (4 * x + b);
    FlatIndex(c.width, x, y, b);
    assert c.pixels[..][k] == ByteAt(c.applied, FlatCol(c.width, k), FlatRow(c.width, k), k % 4);
  }

  predicate Touched(c: Canvas, i: nat) {
    exists k :: 0 <= k < |c.applied| && c.applied[k].index == i
  }

  lemma DrawnIsTouched(c: Canvas, slot: nat, i: nat)
    requires CanvasOk(c) && c.applied != [] && slot == c.applied[0].height
    ensures Drawn(c, i) <==> Touched(c, i) && i * slot < c.height
  {
    assert forall k :: 0 <= k < |c.applied| ==> c.applied[k] in c.applied;
  }

  /** All bands are drawn exactly when all were updated and the last one starts inside the canvas. */
  lemma CanComplete(c: Canvas, slot: nat)
    requires CanvasOk(c) && c.applied != [] && slot == c.applied[0].height
    ensures AllDrawn(c) <==> (c.tiles - 1) * slot < c.height && forall i :: 0 <= i < c.tiles ==> Touched(c, i)
  {
    hide Drawn, Touched;
    DrawnIsTouched(c, slot, c.tiles - 1);
    forall i | 0 <= i < c.tiles
      ensures Drawn(c, i) ==> Touched(c, i)
      ensures Touched(c, i) && (c.tiles - 1) * slot < c.height ==> Drawn(c, i)
    {
      DrawnIsTouched(c, slot, i);
      MulLe(i, c.tiles - 1, slot);
    }
  }

  predicate Covered(c: Canvas, x: nat, y: nat) {
    exists k :: 0 <= k < |c.applied| && Covers(c.applied[k], x, y)
  }

  predicate CoversAll(c: Canvas) {
    forall x, y :: 0 <= x < c.width && 0 <= y < c.height ==> Covered(c, x, y)
  }

  /** Some update of band `i` was as wide as the canvas. */
  predicate Wide(c: Canvas, i: nat) {
    exists k :: 0 <= k < |c.applied| && c.applied[k].index == i && c.applied[k].width >= c.width
  }

  /**
   Once all bands are drawn, the whole canvas is covered exactly when the bands are high enough together and each of
   them was once as wide as the canvas.
   */
  lemma CoverageIff(c: Canvas, slot: nat)
    requires CanvasOk(c) && AllDrawn(c) && c.applied != [] && slot == c.applied[0].height
    ensures CoversAll(c) <==> c.tiles * slot >= c.height && forall i :: 0 <= i < c.tiles ==> Wide(c, i)
  {
    hide CanvasOk, Covered, Wide, Drawn;
    WidthPositive(c);
    if c.tiles * slot >= c.height && forall i :: 0 <= i < c.tiles ==> Wide(c, i) {
      forall x, y | 0 <= x < c.width && 0 <= y < c.height ensures Covered(c, x, y) {
        BandCovers(c, slot, x, y);
      }
    } else if c.tiles * slot < c.height {
      NothingBelow(c, slot);
      assert !Covered(c, 0, c.tiles * slot);
    } else {
      var i :| 0 <= i < c.tiles && !Wide(c, i);
      NothingBeside(c, slot, i);
      assert !Covered(c, c.width - 1, i * slot);
    }
  }

  lemma WidthPositive(c: Canvas)
    requires CanvasOk(c)
    ensures c.width > 0
  {
  }

  /** The band of a row is the only one that holds it. */
  lemma OnlyBand(t: Tile, x: nat, y: nat, i: nat)
    requires Covers(t, x, y) && i * t.height <= y < i * t.height + t.height
    ensures t.index == i
  {
    if t.index < i {
      MulLe(t.index + 1, i, t.height);
    } else if i < t.index {
      MulLe(i + 1, t.index, t.height);
    }
  }

  lemma RowOfBand(y: nat, slot: nat, tiles: nat) returns (i: nat)
    requires slot > 0 && y < tiles * slot
    ensures i < tiles && i * slot <= y < i * slot + slot
  {
    i := y / slot;
    if i >= tiles {
      MulLe(tiles, i, slot);
    }
  }

  lemma CoversThere(t: Tile, x: nat, y: nat, i: nat, slot: nat)
    requires t.index == i && t.height == slot && i * slot <= y < i * slot + slot && x < t.width
    ensures Covers(t, x, y)
  {
  }

  lemma SlotPositive(c: Canvas, slot: nat)
    requires CanvasOk(c) && c.applied != [] && slot == c.applied[0].height
    ensures slot > 0 && forall k :: 0 <= k < |c.applied| ==> c.applied[k].height == slot
  {
    assert WellFormed(c.applied[0]);
    forall k | 0 <= k < |c.applied| ensures c.applied[k].height == slot {
      assert c.applied[k] in c.applied;
    }
  }

  lemma BandCovers(c: Canvas, slot: nat, x: nat, y: nat)
    requires CanvasOk(c) && c.applied != [] && slot == c.applied[0].height && c.tiles * slot >= c.height
    requires (forall i :: 0 <= i < c.tiles ==> Wide(c, i)) && x < c.width && y < c.height
    ensures Covered(c, x, y)
  {
    hide CanvasOk, WellFormed, Covers;
    SlotPositive(c, slot);
    var i := RowOfBand(y, slot, c.tiles);
    assert Wide(c, i);
    var k :| 0 <= k < |c.applied| && c.applied[k].index == i && c.applied[k].width >= c.width;
    CoversThere(c.applied[k], x, y, i, slot);
  }

  lemma NothingBelow(c: Canvas, slot: nat)
    requires CanvasOk(c) && c.applied != [] && slot == c.applied[0].height
    ensures !Covered(c, 0, c.tiles * slot)
  {
    forall k | 0 <= k < |c.applied| ensures !Covers(c.applied[k], 0, c.tiles * slot) {
      assert c.applied[k] in c.applied;
      MulLe(c.applied[k].index + 1, c.tiles, slot);
    }
  }

  lemma NothingBeside(c: Canvas, slot: nat, i: nat)
    requires CanvasOk(c) && c.applied != [] && slot == c.applied[0].height && Drawn(c, i) && !Wide(c, i)
    ensures i * slot < c.height && c.width > 0 && !Covered(c, c.width - 1, i * slot)
  {
    DrawnIsTouched(c, slot, i);
    hide Drawn;
    assert slot > 0 by { assert WellFormed(c.applied[0]); }
    forall k | 0 <= k < |c.applied| ensures !Covers(c.applied[k], c.width - 1, i * slot) {
      assert c.applied[k] in c.applied;
      if Covers(c.applied[k], c.width - 1, i * slot) {
        OnlyBand(c.applied[k], c.width - 1, i * slot, i);
      }
    }
  }

  /** A band that is too narrow, and one that is too low: all bands are drawn, and a pixel never was. */
  lemma DrawnIsNotCovered()
    ensures var c := Canvas(2, 1, 1, []); var t := Tile(0, 1, 1, [7, 7, 7, 7]); var d := Updated(c, t);
            && CanvasOk(c) && Refusal(c, t) == None && AllDrawn(d) && !Covered(d, 1, 0)
    ensures var c := Canvas(1, 2, 1, []); var t := Tile(0, 1, 1, [7, 7, 7, 7]); var d := Updated(c, t);
            && CanvasOk(c) && Refusal(c, t) == None && AllDrawn(d) && !Covered(d, 0, 1)
  {
    var t := Tile(0, 1, 1, [7, 7, 7, 7]);
    OneBandDrawn(2, 1, t);
    OneBandDrawn(1, 2, t);
  }

  lemma OneBandDrawn(width: nat, height: nat, t: Tile)
    requires t.index == 0 && height > 0
    ensures AllDrawn(Updated(Canvas(width, height, 1, []), t))
  {
    var d := Updated(Canvas(width, height, 1, []), t);
    assert d.applied[0] == t;
    assert Drawn(d, 0);
  }
}
