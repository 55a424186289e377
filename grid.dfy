/**
 * Composing up to twenty thumbnails into one grid image: the tile count cap,
 * the row-major placement on a 5 x 4 layout of 200 x 120 tiles, and the loop
 * that draws each opened image into the canvas. Decoding, resampling and
 * encoding are outcomes: `open` gives the decoded image of a path or an
 * error, and a drawn pixel names the thumbnail and the offset it comes from.
 */
module Grid {
  import opened Wrappers

  const GridCols: nat := 5
  const GridRows: nat := 4
  const ThumbWidth: nat := 200
  const ThumbHeight: nat := 120
  const MaxImages: nat := 20
  const CanvasWidth: nat := GridCols * ThumbWidth
  const CanvasHeight: nat := GridRows * ThumbHeight

  /** image.Rect: the points x0 <= x < x1, y0 <= y < y1. */
  datatype Rect = Rect(x0: int, y0: int, x1: int, y1: int)

  predicate Contains(r: Rect, x: int, y: int) {
    r.x0 <= x < r.x1 && r.y0 <= y < r.y1
  }

  predicate InCanvas(x: int, y: int) {
    0 <= x < CanvasWidth && 0 <= y < CanvasHeight
  }

  /** How many of n paths are placed: all of them, up to twenty. */
  function TileCount(n: nat): (k: nat)
    ensures k <= MaxImages && k <= n
    ensures k < n ==> k == MaxImages
  {
    if n > MaxImages then MaxImages else n
  }

  /** Image i goes to column i % 5 and row i / 5. */
  function TileRect(i: nat): Rect {
    var col := i % GridCols;
    var row := i / GridCols;
    Rect(col * ThumbWidth, row * ThumbHeight, (col + 1) * ThumbWidth, (row + 1) * ThumbHeight)
  }

  /** The tile a canvas point belongs to, counted row-major. */
  function TileAt(x: nat, y: nat): nat {
    x / ThumbWidth + GridCols * (y / ThumbHeight)
  }

  /** Every placed tile is a full 200 x 120 rectangle inside the 1000 x 480 canvas. */
  lemma TileInCanvas(i: nat)
    requires i < MaxImages
    ensures var r := TileRect(i);
      && 0 <= r.x0 && r.x1 <= CanvasWidth && 0 <= r.y0 && r.y1 <= CanvasHeight
      && r.x1 - r.x0 == ThumbWidth && r.y1 - r.y0 == ThumbHeight
  {
  }

  /** Division by one of the layout constants, as a pair of bounds. */
  lemma DivIs(x: nat, d: nat, q: nat)
    requires d == GridCols || d == ThumbWidth || d == ThumbHeight
    ensures x / d == q <==> d * q <= x < d * q + d
  {
    if d == GridCols {
      assert x / 5 == q <==> 5 * q <= x < 5 * q + 5;
    } else if d == ThumbWidth {
      assert x / 200 == q <==> 200 * q <= x < 200 * q + 200;
    } else {
      assert x / 120 == q <==> 120 * q <= x < 120 * q + 120;
    }
  }

  /** A canvas point lies in tile i exactly when tile i is the one it belongs to. */
  lemma TileContains(i: nat, x: nat, y: nat)
    requires i < MaxImages && InCanvas(x, y)
    ensures Contains(TileRect(i), x, y) <==> TileAt(x, y) == i
  {
    var col, row := i % GridCols, i / GridCols;
    DivIs(x, ThumbWidth, col);
    DivIs(y, ThumbHeight, row);
    var cx, ry := x / ThumbWidth, y / ThumbHeight;
    DivIs(x, ThumbWidth, cx);
    assert cx < GridCols;
    if TileAt(x, y) == i {
      assert cx + GridCols * ry == col + GridCols * row;
      DivIs(i, GridCols, ry);
      assert i / GridCols == ry;
    }
  }

  /** Distinct tiles never share a point. */
  lemma TilesDisjoint(i: nat, j: nat, x: nat, y: nat)
    requires i < MaxImages && j < MaxImages && i != j
    ensures !(Contains(TileRect(i), x, y) && Contains(TileRect(j), x, y))
  {
    if Contains(TileRect(i), x, y) && Contains(TileRect(j), x, y) {
      TileInCanvas(i);
      TileContains(i, x, y);
      TileContains(j, x, y);
    }
  }

  /** A pixel of the canvas: the zero pixel, or pixel (dx, dy) of the 200 x 120 thumbnail of an image. */
  datatype Pixel<Img> = Blank | Px(source: Img, dx: int, dy: int)

  /** The first of `paths` that does not open, if any. */
  function FirstOpenFailure<Img>(paths: seq<string>, open: string -> Result<Img, string>): (r: Option<nat>)
    ensures r.Some? ==> r.value < |paths| && open(paths[r.value]).Failure?
    ensures r.Some? ==> forall k :: 0 <= k < r.value ==> open(paths[k]).Success?
    ensures r.None? <==> forall k :: 0 <= k < |paths| ==> open(paths[k]).Success?
  {
    if paths == [] then None
    else if open(paths[0]).Failure? then Some(0)
    else match FirstOpenFailure(paths[1..], open)
      case None => None
      case Some(k) => Some(k + 1)
  }

  /** The pixel at a canvas point once the first `drawn` tiles are drawn. */
  function Drawn<Img>(paths: seq<string>, open: string -> Result<Img, string>, drawn: nat, x: nat, y: nat): Pixel<Img>
    requires drawn <= |paths|
  {
    var t := TileAt(x, y);
    if t < drawn && open(paths[t]).Success?
    then Px(open(paths[t]).value, x % ThumbWidth, y % ThumbHeight)
    else Blank
  }

  function OpenError(path: string, err: string): string {
    "failed to open image " + path + ": " + err
  }

  function SaveError(err: string): string {
    "failed to save grid image: " + err
  }

  /**
   * CreateGrid: opens the first min(n, 20) paths in order and draws each
   * into its tile; the first path that does not open ends it with an error
   * naming that path and nothing is saved. Otherwise the canvas is saved,
   * and the only error left is the save's own.
   */
  method CreateGrid<Img>(imagePaths: seq<string>, open: string -> Result<Img, string>, saveErr: Option<string>)
    returns (err: Option<string>, dst: array2<Pixel<Img>>)
    ensures dst.Length0 == CanvasWidth && dst.Length1 == CanvasHeight
    ensures var n := TileCount(|imagePaths|);
      match FirstOpenFailure(imagePaths[..n], open)
      case Some(k) => err == Some(OpenError(imagePaths[k], open(imagePaths[k]).error))
      case None =>
        && err == (if saveErr.Some? then Some(SaveError(saveErr.value)) else None)
        && forall x: nat, y: nat :: InCanvas(x, y) ==> dst[x, y] == Drawn(imagePaths, open, n, x, y)
  {
    var numImages := |imagePaths|;
    if numImages > 20 {
      numImages := 20;
    }
    dst := new Pixel<Img>[CanvasWidth, CanvasHeight]((x, y) => Blank);
    var i := 0;
    while i < numImages
      invariant 0 <= i <= numImages == TileCount(|imagePaths|)
      invariant dst.Length0 == CanvasWidth && dst.Length1 == CanvasHeight
      invariant forall k :: 0 <= k < i ==> open(imagePaths[k]).Success?
      invariant forall x: nat, y: nat :: InCanvas(x, y) ==> dst[x, y] == Drawn(imagePaths, open, i, x, y)
    {
      var img := open(imagePaths[i]);
      if img.Failure? {
        assert FirstOpenFailure(imagePaths[..numImages], open) == Some(i) by {
          FirstFailureAt(imagePaths[..numImages], open, i);
        }
        return Some(OpenError(imagePaths[i], img.error)), dst;
      }
      var rect := TileRect(i);
      forall x: nat, y: nat | x < dst.Length0 && y < dst.Length1 && Contains(rect, x, y) {
        dst[x, y] := Px(img.value, x - rect.x0, y - rect.y0);
      }
      forall x: nat, y: nat | InCanvas(x, y)
        ensures dst[x, y] == Drawn(imagePaths, open, i + 1, x, y)
      {
        TileContains(i, x, y);
        if Contains(rect, x, y) {
          DivIs(x, ThumbWidth, i % GridCols);
          DivIs(y, ThumbHeight, i / GridCols);
        }
      }
      i := i + 1;
    }
    assert FirstOpenFailure(imagePaths[..numImages], open).None?;
    if saveErr.Some? {
      return Some(SaveError(saveErr.value)), dst;
    }
    err := None;
  }

  /** The first path that does not open is the one the loop stops at. */
  lemma {:induction false} FirstFailureAt<Img>(paths: seq<string>, open: string -> Result<Img, string>, i: nat)
    requires i < |paths| && open(paths[i]).Failure?
    requires forall k :: 0 <= k < i ==> open(paths[k]).Success?
    ensures FirstOpenFailure(paths, open) == Some(i)
  {
    if i > 0 {
      var rest := paths[1..];
      assert open(paths[0]).Success?;
      assert forall k :: 0 <= k < i - 1 ==> rest[k] == paths[k + 1];
      assert rest[i - 1] == paths[i];
      FirstFailureAt(rest, open, i - 1);
    }
  }

  /** With no paths the saved canvas is blank. */
  lemma EmptyGridIsBlank<Img>(open: string -> Result<Img, string>, x: nat, y: nat)
    ensures Drawn([], open, TileCount(0), x, y) == Blank
  {
  }
}
