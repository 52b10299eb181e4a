/**
 The wraparound buffer of the preprocessor: image rows go into three row groups, and the downsampler
 sees, through five row groups of pointers, each row group with the one above and the one below.
 */
module ContextRows {

  function Clamp(j: int, n: nat): (r: nat)
    requires n > 0
    ensures r < n
  {
    if j < 0 then 0 else if j >= n then n - 1 else j
  }

  /** The rows that a downsampler is to see for the row group that begins at image row start: one row
      group above, the row group itself and one below, with the edges of the image repeated. */
  function WindowAt<Row>(image: seq<Row>, v: nat, start: int): (w: seq<Row>)
    requires image != []
    ensures |w| == 3 * v && forall i :: 0 <= i < 3 * v ==> w[i] == image[Clamp(start - v + i, |image|)]
  {
    seq(3 * v, i requires 0 <= i < 3 * v => image[Clamp(start - v + i, |image|)])
  }

  /** The row of the buffer that pointer x of the five row groups leads to. */
  function TrueRow(v: nat, x: int): (t: int) {
    if x < v then 2 * v + x else if x < 4 * v then x - v else x - 4 * v
  }

  /** The image row that row t of the buffer holds; the first row is for image row lap, and the rows
      from next on have not been filled again. */
  function HeldRow(v: nat, lap: int, next: nat, t: int): (j: int) {
    if t < next then lap + t else lap + t - 3 * v
  }

  /** The buffer holds what it should; the rows above the image are there once it has begun. */
  ghost predicate HoldsRows<Row>(rows: seq<Row>, image: seq<Row>, v: nat, lap: int, next: nat, begun: bool)
    requires |rows| == 3 * v && |image| > 0
  {
    forall t :: 0 <= t < 3 * v && HeldRow(v, lap, next, t) + v >= 0 && (HeldRow(v, lap, next, t) >= 0 || begun) ==>
      rows[t] == image[Clamp(HeldRow(v, lap, next, t), |image|)]
  }

  /** Rows of the image, n of them, come after those that are there. */
  lemma NewRows<Row>(was: seq<Row>, now: seq<Row>, image: seq<Row>, v: nat, lap: nat, next: nat, n: nat, begun: bool)
    requires |was| == |now| == 3 * v && |image| > 0 && HoldsRows(was, image, v, lap, next, begun)
    requires next + n <= 3 * v && lap + next + n <= |image|
    requires forall t :: 0 <= t < 3 * v ==> now[t] == if next <= t < next + n then image[lap + t] else was[t]
    ensures HoldsRows(now, image, v, lap, next + n, begun)
  {
  }

  /** The first rows of the image, and copies of the very first above it. */
  lemma FirstRows<Row>(was: seq<Row>, now: seq<Row>, image: seq<Row>, v: nat, n: nat)
    requires |was| == |now| == 3 * v && 0 < n <= 2 * v && n <= |image| && HoldsRows(was, image, v, 0, n, false)
    requires forall t :: 0 <= t < 3 * v ==> now[t] == if t >= 2 * v then was[0] else was[t]
    ensures HoldsRows(now, image, v, 0, n, true)
  {
    forall t | 2 * v <= t < 3 * v
      ensures now[t] == image[Clamp(HeldRow(v, 0, n, t), |image|)]
    {
      assert HeldRow(v, 0, n, 0) == 0;
    }
  }

  // Always true. Mentioning it opens Seen.
  ghost predicate OpenSeen(x: nat) {
    true
  }

  class ContextBuffer<Row> {
    const v: nat                   // max_v_samp_factor
    const imageHeight: nat
    const rows: array<Row>         // three row groups
    const pointers: array<nat>     // five row groups; pointer 0 of the code is pointer v here
    ghost const image: seq<Row>
    var rowsToGo: nat
    var nextBufRow: nat
    var thisRowGroup: nat
    var nextBufStop: nat
    ghost var lap: int             // the image row that belongs in the first row of the buffer
    ghost var start: int           // the image row where the next row group begins
    ghost var windows: seq<seq<Row>>  // what the downsampler has seen

    constructor (v: nat, blank: Row, ghost image: seq<Row>, height: nat)
      requires v > 0 && height == |image| > 0
      ensures Valid() && this.v == v && this.image == image && rowsToGo == height && windows == [] && fresh(rows)
      ensures fresh(pointers)
    {
      this.v, this.imageHeight, this.image := v, height, image;
      rows := new Row[3 * v](_ => blank);
      var p := new nat[5 * v](_ => 0);
      // the middle, and the wraparound above and below
      var i := 0;
      while i < 3 * v
        invariant 0 <= i <= 3 * v && forall x :: v <= x < v + i ==> p[x] == TrueRow(v, x)
      {
        p[v + i] := i;
        i := i + 1;
      }
      i := 0;
      while i < v
        invariant 0 <= i <= v
        invariant forall x :: 0 <= x < 5 * v && (x < i || v <= x < 4 * v || 4 * v <= x < 4 * v + i) ==>
                    p[x] == TrueRow(v, x)
      {
        p[i] := 2 * v + i;
        p[4 * v + i] := i;
        i := i + 1;
      }
      pointers := p;
      rowsToGo, nextBufRow, thisRowGroup, nextBufStop := height, 0, 0, 2 * v;
      lap, start, windows := 0, 0, [];
    }

    ghost predicate Pointers()
      reads this, pointers
    {
      && rows.Length == 3 * v && pointers.Length == 5 * v && v > 0 && imageHeight == |image| > 0
      && forall x :: 0 <= x < 5 * v ==> pointers[x] == TrueRow(v, x)
    }

    ghost predicate Holds()
      requires rows.Length == 3 * v && |image| > 0
      reads this, rows
    {
      HoldsRows(rows[..], image, v, lap, nextBufRow, rowsToGo < imageHeight)
    }

    /** Rows of the image, and copies of the last one at its bottom. */
    ghost predicate Counters()
      reads this
    {
      && rowsToGo <= imageHeight && nextBufRow <= nextBufStop
      && (|| (nextBufStop == 2 * v && thisRowGroup == 0)
          || (nextBufStop == 3 * v && thisRowGroup == v)
          || (nextBufStop == v && thisRowGroup == 2 * v))
      && start + 2 * v == lap + nextBufStop && start >= 0 && lap >= 0
      && nextBufStop <= nextBufRow + (if start > 0 then v else 2 * v)
      && (if rowsToGo > 0 then lap + nextBufRow == imageHeight - rowsToGo else lap + nextBufRow >= imageHeight)
      && (lap + nextBufRow > 0 ==> rowsToGo < imageHeight)
    }

    ghost predicate Seen()
      requires |image| > 0
      reads this
    {
      forall x: nat :: OpenSeen(x) ==>
        start == |windows| * v && forall k :: 0 <= k < |windows| ==> windows[k] == WindowAt(image, v, k * v)
    }

    ghost predicate Valid()
      reads this, rows, pointers
    {
      && Pointers() && Counters() && nextBufRow < nextBufStop && Holds() && Seen()
    }

    /** color_convert. */
    method CopyRows(input: seq<Row>, from: nat, numRows: nat)
      requires Pointers() && nextBufRow + numRows <= 3 * v && from + numRows <= |input|
      modifies rows
      ensures forall t :: 0 <= t < 3 * v ==>
                rows[t] == if nextBufRow <= t < nextBufRow + numRows then input[from + t - nextBufRow] else old(rows[t])
    {
      var i := 0;
      while i < numRows
        invariant i <= numRows
        invariant forall t :: 0 <= t < 3 * v ==>
                    rows[t] == if nextBufRow <= t < nextBufRow + i then input[from + t - nextBufRow] else old(rows[t])
      {
        rows[pointers[v + nextBufRow + i]] := input[from + i];
        i := i + 1;
      }
    }

    /** New rows, and the rows above the image. */
    method StoreRows(input: seq<Row>, from: nat, numRows: nat)
      requires Pointers() && Counters() && Holds() && 0 < numRows <= nextBufStop - nextBufRow && numRows <= rowsToGo
      requires from + numRows <= |input|
      requires forall x :: from <= x < from + numRows ==> input[x] == image[imageHeight - rowsToGo + x - from]
      modifies rows
      ensures HoldsRows(rows[..], image, v, lap, nextBufRow + numRows, true)
    {
      ghost var was := rows[..];
      CopyRows(input, from, numRows);
      ghost var copied := rows[..];
      NewRows(was, copied, image, v, lap, nextBufRow, numRows, rowsToGo < imageHeight);
      if rowsToGo == imageHeight {
        PadTop();
        FirstRows(copied, rows[..], image, v, numRows);
      }
    }

    method Convert(input: seq<Row>, from: nat, numRows: nat)
      requires Pointers() && Counters() && Holds() && 0 < numRows <= nextBufStop - nextBufRow && numRows <= rowsToGo
      requires from + numRows <= |input|
      requires forall x :: from <= x < from + numRows ==> input[x] == image[imageHeight - rowsToGo + x - from]
      modifies rows, `nextBufRow, `rowsToGo
      ensures Pointers() && Counters() && Holds() && nextBufRow == old(nextBufRow) + numRows
      ensures rowsToGo == old(rowsToGo) - numRows
    {
      StoreRows(input, from, numRows);
      nextBufRow := nextBufRow + numRows;
      rowsToGo := rowsToGo - numRows;
    }

    /** As many rows as there are, or as fit. */
    method TakeRows(input: seq<Row>, inCtr: nat, inRowsAvail: nat) returns (next: nat)
      requires Valid() && inCtr < inRowsAvail <= |input| && inRowsAvail - inCtr <= rowsToGo
      requires forall i :: inCtr <= i < inRowsAvail ==> input[i] == image[imageHeight - rowsToGo + i - inCtr]
      modifies rows, `nextBufRow, `rowsToGo
      ensures Pointers() && Counters() && Holds() && Seen() && inCtr < next <= inRowsAvail
      ensures rowsToGo == old(rowsToGo) - (next - inCtr) && nextBufRow <= nextBufStop
    {
      var numRows := nextBufStop - nextBufRow;
      if inRowsAvail - inCtr < numRows {
        numRows := inRowsAvail - inCtr;
      }
      Convert(input, inCtr, numRows);
      next := inCtr + numRows;
    }

    method PadTop()
      requires Pointers()
      modifies rows
      ensures forall t :: 0 <= t < 3 * v ==> rows[t] == if t >= 2 * v then old(rows[0]) else old(rows[t])
    {
      var row := 1;
      while row <= v
        invariant 1 <= row <= v + 1
        invariant forall t :: 0 <= t < 3 * v ==> rows[t] == if t > 3 * v - row then old(rows[0]) else old(rows[t])
      {
        rows[pointers[v - row]] := rows[pointers[v]];
        row := row + 1;
      }
    }

    /** expand_bottom_edge: the last row, again and again. */
    method ExpandBottomEdge()
      requires Pointers() && nextBufRow < nextBufStop <= 3 * v
      modifies rows
      ensures var last := old(rows[TrueRow(v, v + nextBufRow - 1)]);
              forall t :: 0 <= t < 3 * v ==> rows[t] == if nextBufRow <= t < nextBufStop then last else old(rows[t])
    {
      ghost var last := rows[pointers[v + nextBufRow - 1]];
      var row := nextBufRow;
      while row < nextBufStop
        invariant nextBufRow <= row <= nextBufStop && rows[pointers[v + nextBufRow - 1]] == last
        invariant forall t :: 0 <= t < 3 * v ==> rows[t] == if nextBufRow <= t < row then last else old(rows[t])
      {
        rows[pointers[v + row]] := rows[pointers[v + nextBufRow - 1]];
        row := row + 1;
      }
    }

    /** At the bottom of the image the last row fills the buffer. */
    method PadBottom()
      requires Pointers() && Counters() && Holds() && rowsToGo == 0 && nextBufRow < nextBufStop
      modifies rows, `nextBufRow
      ensures Pointers() && Counters() && Holds() && nextBufRow == nextBufStop
    {
      ghost var last := if nextBufRow == 0 then 3 * v - 1 else nextBufRow - 1;
      assert HeldRow(v, lap, nextBufRow, last) == lap + nextBufRow - 1;
      ExpandBottomEdge();
      nextBufRow := nextBufStop;
    }

    /** Row i that the downsampler sees. */
    lemma SeenRow(i: int)
      requires Pointers() && Counters() && Holds() && nextBufRow == nextBufStop && 0 <= i < 3 * v
      ensures 0 <= TrueRow(v, thisRowGroup + i) < 3 * v
      ensures rows[TrueRow(v, thisRowGroup + i)] == image[Clamp(start - v + i, |image|)]
    {
      assert HeldRow(v, lap, nextBufRow, TrueRow(v, thisRowGroup + i)) == start - v + i;
    }

    lemma NextGroup(k: nat)
      ensures (k + 1) * v == k * v + v
    {
    }

    /** What the downsampler sees: a row group with the one above and the one below. */
    method Look() returns (window: seq<Row>)
      requires Pointers() && Counters()
      ensures |window| == 3 * v && forall i :: 0 <= i < 3 * v ==> window[i] == rows[TrueRow(v, thisRowGroup + i)]
    {
      window := [];
      var i := 0;
      while i < 3 * v
        invariant i == |window| <= 3 * v && forall x :: 0 <= x < i ==> window[x] == rows[TrueRow(v, thisRowGroup + x)]
      {
        window := window + [rows[pointers[thisRowGroup + i]]];
        i := i + 1;
      }
    }

    /** That is what it is to see. */
    method LookAt() returns (window: seq<Row>)
      requires Pointers() && Counters() && Holds() && nextBufRow == nextBufStop
      ensures window == WindowAt(image, v, start)
    {
      window := Look();
      forall i | 0 <= i < 3 * v
        ensures window[i] == image[Clamp(start - v + i, |image|)]
      {
        SeenRow(i);
      }
    }

    /** The downsampler looks at the row group; then the buffer wraps around. */
    method Downsample()
      requires Pointers() && Counters() && Holds() && Seen() && nextBufRow == nextBufStop
      modifies `thisRowGroup, `nextBufRow, `nextBufStop, `lap, `start, `windows
      ensures Valid() && windows == old(windows) + [WindowAt(image, v, old(start))]
    {
      assert OpenSeen(0);
      var window := LookAt();
      windows := windows + [window];
      Advance();
    }

    /** The next row group, with wraparound as necessary. */
    method Advance()
      requires Pointers() && Counters() && Holds() && nextBufRow == nextBufStop && |windows| > 0
      requires start == (|windows| - 1) * v
      requires forall k :: 0 <= k < |windows| ==> windows[k] == WindowAt(image, v, k * v)
      modifies `thisRowGroup, `nextBufRow, `nextBufStop, `lap, `start
      ensures Valid()
    {
      NextGroup(|windows| - 1);
      thisRowGroup := thisRowGroup + v;
      if thisRowGroup >= 3 * v {
        thisRowGroup := 0;
      }
      if nextBufRow >= 3 * v {
        nextBufRow := 0;
        lap := lap + 3 * v;
      }
      nextBufStop := nextBufRow + v;
      start := start + v;
    }

    /** How many row groups went out depends only on how many rows came in. */
    lemma GroupsSoFar()
      requires Valid() && rowsToGo > 0
      ensures var n, k := imageHeight - rowsToGo, |windows|;
              n < (k + 2) * v && (k > 0 ==> (k + 1) * v <= n)
    {
      assert OpenSeen(0);
      NextGroup(|windows|);
      NextGroup(|windows| + 1);
    }

    /** Some rows of the image come in, and row groups go out as long as there is room. */
    method PreProcess(input: seq<Row>, inRowCtr: nat, inRowsAvail: nat, outRowGroupCtr: nat, outRowGroupsAvail: nat)
      returns (inCtr: nat, outCtr: nat)
      requires Valid() && inRowsAvail <= |input| && inRowsAvail - inRowCtr <= rowsToGo
      requires outRowGroupCtr <= outRowGroupsAvail
      requires forall i :: inRowCtr <= i < inRowsAvail ==> input[i] == image[imageHeight - rowsToGo + i - inRowCtr]
      modifies this, rows
      ensures Valid() && inRowCtr <= inCtr && (inCtr <= inRowsAvail || inCtr == inRowCtr)
      ensures rowsToGo == old(rowsToGo) - (inCtr - inRowCtr)
      ensures outRowGroupCtr <= outCtr <= outRowGroupsAvail && |windows| == old(|windows|) + outCtr - outRowGroupCtr
      ensures windows[..old(|windows|)] == old(windows)
      ensures outCtr == outRowGroupsAvail || (inCtr >= inRowsAvail && rowsToGo > 0)
      ensures outCtr > outRowGroupCtr ==> inCtr > inRowCtr || rowsToGo == 0
    {
      inCtr, outCtr := inRowCtr, outRowGroupCtr;
      while outCtr < outRowGroupsAvail
        invariant Valid() && inRowCtr <= inCtr && (inCtr <= inRowsAvail || inCtr == inRowCtr)
        invariant rowsToGo == old(rowsToGo) - (inCtr - inRowCtr)
        invariant outRowGroupCtr <= outCtr <= outRowGroupsAvail
        invariant (outCtr > outRowGroupCtr ==> inCtr > inRowCtr || rowsToGo == 0)
        invariant |windows| == old(|windows|) + outCtr - outRowGroupCtr && windows[..old(|windows|)] == old(windows)
        decreases outRowGroupsAvail - outCtr, inRowsAvail - inCtr
      {
        if inCtr < inRowsAvail {
          inCtr := TakeRows(input, inCtr, inRowsAvail);
        } else {
          if rowsToGo != 0 {
            break;
          }
          PadBottom();
        }
        if nextBufRow == nextBufStop {
          Downsample();
          outCtr := outCtr + 1;
        }
      }
    }
  }
}
