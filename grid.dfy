/**
 * The animation grid and the grid compositor: one row of decoded frames per
 * loudness bucket, loaded once from `vids/{i}.mp4`, and output frame `i`
 * taken from row `frame_sequence[i]` at position `i % 32`.
 */
module Grid {
  import opened Wrappers
  import Decimal

  /** The fixed animation loop period. */
  const Period: nat := 32

  /** The legacy bot's grid: three rows read from `vids/`. */
  const LegacyRows: nat := 3
  const LegacyFolder: string := "vids"

  /** `f"{folder}/{i}.mp4"`. */
  function VideoPath(folder: string, i: nat): string {
    folder + "/" + Decimal.Digits(i) + ".mp4"
  }

  /** The frames a video file yields, or None when the file does not exist. */
  function RowFrames<F>(read: string -> Option<seq<F>>, folder: string, i: nat): seq<F> {
    match read(VideoPath(folder, i))
    case None => []
    case Some(frames) => frames
  }

  /**
   * Grid loading: `rows` empty rows, then for each row whose video exists,
   * its frames appended one by one; a missing video leaves its row empty
   * and loading goes on with the next row.
   */
  method LoadGrid<F>(rows: int, folder: string, read: string -> Option<seq<F>>) returns (grid: seq<seq<F>>)
    ensures |grid| == if rows < 0 then 0 else rows
    ensures forall i :: 0 <= i < |grid| ==> grid[i] == RowFrames(read, folder, i)
  {
    // `range(rows)` is empty for a negative count.
    var n: nat := if rows < 0 then 0 else rows;
    grid := seq(n, _ => []);
    var i := 0;
    while i < n
      invariant 0 <= i <= n && |grid| == n
      invariant forall k :: 0 <= k < i ==> grid[k] == RowFrames(read, folder, k)
      invariant forall k :: i <= k < n ==> grid[k] == []
    {
      var video := read(VideoPath(folder, i));
      if video.None? {
        i := i + 1;
        continue;
      }
      var frames := video.value;
      var j := 0;
      while j < |frames|
        invariant 0 <= j <= |frames| && |grid| == n
        invariant grid[i] == frames[..j]
        invariant forall k :: 0 <= k < i ==> grid[k] == RowFrames(read, folder, k)
        invariant forall k :: i < k < n ==> grid[k] == []
      {
        grid := grid[i := grid[i] + [frames[j]]];
        j := j + 1;
      }
      assert frames[..j] == frames;
      i := i + 1;
    }
  }

  /** The legacy bot's constructor: the grid is loaded from `vids/0.mp4`, `vids/1.mp4` and `vids/2.mp4`. */
  method LegacyGrid<F>(read: string -> Option<seq<F>>) returns (grid: seq<seq<F>>)
    ensures |grid| == LegacyRows
    ensures forall i :: 0 <= i < LegacyRows ==> grid[i] == RowFrames(read, LegacyFolder, i)
  {
    grid := LoadGrid(LegacyRows, LegacyFolder, read);
  }

  /** Row `i` of the legacy grid is read from `vids/{i}.mp4`. */
  lemma LegacyPaths(i: nat)
    requires i < LegacyRows
    ensures VideoPath(LegacyFolder, i) == "vids/" + [Decimal.DigitChar(i)] + ".mp4"
  {
  }

  /** Python's `xs[b]` on a list of length `len`: a negative index counts from the end. */
  function PyIndex(len: nat, b: int): (r: Option<nat>)
    ensures r.Some? ==> r.value < len
  {
    if 0 <= b < len then Some(b)
    else if -(len as int) <= b < 0 then Some(len + b)
    else None
  }

  /** `grid[b][i % 32]`, or None where Python raises IndexError. */
  function Select<F>(grid: seq<seq<F>>, b: int, i: nat): (r: Option<F>)
    ensures r.Some? ==> PyIndex(|grid|, b).Some? && i % Period < |grid[PyIndex(|grid|, b).value]|
                        && r.value == grid[PyIndex(|grid|, b).value][i % Period]
  {
    match PyIndex(|grid|, b)
    case None => None
    case Some(row) => if i % Period < |grid[row]| then Some(grid[row][i % Period]) else None
  }

  /**
   * The frame loop of `create_grid_video`: frames are written in order
   * until one cannot be selected. `written` is what reached the video
   * writer, and `failedAt` the position of the IndexError, if any.
   */
  method CreateGridVideo<F>(frameSequence: seq<int>, grid: seq<seq<F>>) returns (written: seq<F>, failedAt: Option<nat>)
    ensures |written| <= |frameSequence|
    ensures forall i :: 0 <= i < |written| ==> Select(grid, frameSequence[i], i) == Some(written[i])
    ensures failedAt.None? ==> |written| == |frameSequence|
    ensures failedAt.Some? ==> failedAt.value == |written| < |frameSequence|
                               && Select(grid, frameSequence[failedAt.value], failedAt.value).None?
  {
    written := [];
    var i := 0;
    while i < |frameSequence|
      invariant 0 <= i <= |frameSequence| && |written| == i
      invariant forall k :: 0 <= k < i ==> Select(grid, frameSequence[k], k) == Some(written[k])
    {
      var frame := Select(grid, frameSequence[i], i);
      if frame.None? {
        return written, Some(i);
      }
      written := written + [frame.value];
      i := i + 1;
    }
    failedAt := None;
  }

  /**
   * Selection succeeds for a whole sequence exactly when every bucket used
   * names a row (counting from the end when negative) that holds more than
   * `i % 32` frames.
   */
  lemma SelectDefined<F>(grid: seq<seq<F>>, frameSequence: seq<int>)
    ensures (forall i :: 0 <= i < |frameSequence| ==> Select(grid, frameSequence[i], i).Some?)
            <==> (forall i :: 0 <= i < |frameSequence| ==>
                    PyIndex(|grid|, frameSequence[i]).Some? && i % Period < |grid[PyIndex(|grid|, frameSequence[i]).value]|)
  {
  }

  /** Labels 0..2 and three rows of at least 32 frames: every frame can be selected. */
  lemma FullGridRenders<F>(grid: seq<seq<F>>, labels: seq<int>, i: nat)
    requires |grid| == LegacyRows && forall r :: 0 <= r < |grid| ==> |grid[r]| >= Period
    requires forall k :: 0 <= k < |labels| ==> 0 <= labels[k] <= 2
    requires i < |labels|
    ensures Select(grid, labels[i], i) == Some(grid[labels[i]][i % Period])
  {
  }

  /** A row whose video was missing can never be selected. */
  lemma MissingRowFails<F>(grid: seq<seq<F>>, b: nat, i: nat)
    requires b < |grid| && grid[b] == []
    ensures Select(grid, b, i).None?
  {
  }
}
