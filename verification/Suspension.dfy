/**
 Suspension: a destination may refuse any MCU. The coefficient controller then takes up its work where
 it left it, and the main controller gives a row back to the application until the work is done.
 */
module Suspension {
  import opened ContextRows

  /** The MCU in column col of MCU row y of iMCU row row. */
  datatype Mcu = Mcu(row: int, y: int, col: int)

  /** The MCU rows of the iMCU rows of a scan. */
  datatype Geometry = Geometry(interleaved: bool, vSamp: nat, lastRowHeight: nat, perRow: nat, total: nat) {
    predicate Ok() {
      vSamp > 0 && lastRowHeight > 0 && perRow > 0 && total > 0
    }

    function RowsIn(r: int): (n: nat) {
      if interleaved then 1 else if r < total - 1 then vSamp else lastRowHeight
    }

    predicate Has(m: Mcu) {
      0 <= m.row && 0 <= m.y < RowsIn(m.row) && 0 <= m.col < perRow
    }

    /** The MCUs before column c of MCU row y of iMCU row r, in the order of the file. */
    function Before(r: nat, y: nat, c: nat): (s: seq<Mcu>)
      decreases r, y, c
    {
      if c > 0 then Before(r, y, c - 1) + [Mcu(r, y, c - 1)]
      else if y > 0 then Before(r, y - 1, perRow)
      else if r > 0 then Before(r - 1, RowsIn(r - 1), 0)
      else []
    }
  }

  predicate Precedes(a: Mcu, b: Mcu) {
    a.row < b.row || (a.row == b.row && (a.y < b.y || (a.y == b.y && a.col < b.col)))
  }

  predicate IsBefore(m: Mcu, r: int, y: int, c: int) {
    m.row < r || (m.row == r && (m.y < y || (m.y == y && m.col < c)))
  }

  /** All MCUs before a place, and no others. */
  lemma {:induction false} BeforeIsAll(g: Geometry, r: nat, y: nat, c: nat, m: Mcu)
    requires g.Ok() && y <= g.RowsIn(r) && c <= g.perRow && (c == 0 || y < g.RowsIn(r))
    ensures m in g.Before(r, y, c) <==> g.Has(m) && IsBefore(m, r, y, c)
    decreases r, y, c
  {
    if c > 0 {
      BeforeIsAll(g, r, y, c - 1, m);
    } else if y > 0 {
      BeforeIsAll(g, r, y - 1, g.perRow, m);
    } else if r > 0 {
      BeforeIsAll(g, r - 1, g.RowsIn(r - 1), 0, m);
    }
  }

  ghost predicate InOrder(s: seq<Mcu>) {
    forall i, j :: 0 <= i < j < |s| ==> Precedes(s[i], s[j])
  }

  lemma InOrderNext(s: seq<Mcu>, m: Mcu)
    requires InOrder(s) && forall i :: 0 <= i < |s| ==> Precedes(s[i], m)
    ensures InOrder(s + [m])
  {
  }

  /** They come from left to right and from top to bottom, none of them twice. */
  lemma {:induction false} BeforeInOrder(g: Geometry, r: nat, y: nat, c: nat)
    requires g.Ok() && y <= g.RowsIn(r) && c <= g.perRow && (c == 0 || y < g.RowsIn(r))
    ensures InOrder(g.Before(r, y, c))
    decreases r, y, c
  {
    if c > 0 {
      BeforeInOrder(g, r, y, c - 1);
      var s := g.Before(r, y, c - 1);
      forall i | 0 <= i < |s|
        ensures Precedes(s[i], Mcu(r, y, c - 1))
      {
        assert s[i] in s;
        BeforeIsAll(g, r, y, c - 1, s[i]);
      }
      InOrderNext(s, Mcu(r, y, c - 1));
    } else if y > 0 {
      BeforeInOrder(g, r, y - 1, g.perRow);
    } else if r > 0 {
      BeforeInOrder(g, r - 1, g.RowsIn(r - 1), 0);
    }
  }

  class CoefController {
    const geometry: Geometry
    var iMcuRowNum: nat
    var mcuCtr: nat
    var mcuVertOffset: nat
    var mcuRowsPerIMcuRow: nat
    ghost var accepted: seq<Mcu>  // by the entropy encoder

    constructor (g: Geometry)
      requires g.Ok()
      ensures Valid() && geometry == g && iMcuRowNum == 0 && AtRowStart() && accepted == []
    {
      geometry := g;
      iMcuRowNum, accepted := 0, [];
      new;
      StartIMcuRow();
    }

    ghost predicate Valid()
      reads this
    {
      && geometry.Ok() && mcuRowsPerIMcuRow == geometry.RowsIn(iMcuRowNum)
      && mcuVertOffset < mcuRowsPerIMcuRow && mcuCtr < geometry.perRow
      && accepted == geometry.Before(iMcuRowNum, mcuVertOffset, mcuCtr)
    }

    predicate AtRowStart()
      reads this
    {
      mcuVertOffset == 0 && mcuCtr == 0
    }

    method StartIMcuRow()
      modifies `mcuRowsPerIMcuRow, `mcuCtr, `mcuVertOffset
      ensures mcuRowsPerIMcuRow == geometry.RowsIn(iMcuRowNum) && AtRowStart()
    {
      if geometry.interleaved {
        mcuRowsPerIMcuRow := 1;
      } else if iMcuRowNum < geometry.total - 1 {
        mcuRowsPerIMcuRow := geometry.vSamp;
      } else {
        mcuRowsPerIMcuRow := geometry.lastRowHeight;
      }
      mcuCtr, mcuVertOffset := 0, 0;
    }

    /** One iMCU row, or as much of it as the destination takes: it has room for so many MCUs. */
    method CompressData(room: nat) returns (done: bool, left: nat)
      requires Valid()
      modifies this
      ensures Valid() && old(accepted) <= accepted && |accepted| + left == |old(accepted)| + room
      ensures if done then iMcuRowNum == old(iMcuRowNum) + 1 && AtRowStart()
              else iMcuRowNum == old(iMcuRowNum) && left == 0
    {
      left := room;
      var yOffset := mcuVertOffset;
      while yOffset < mcuRowsPerIMcuRow
        invariant yOffset <= mcuRowsPerIMcuRow == geometry.RowsIn(iMcuRowNum) && geometry.Ok()
        invariant iMcuRowNum == old(iMcuRowNum)
        invariant mcuCtr < geometry.perRow && (yOffset == mcuRowsPerIMcuRow ==> mcuCtr == 0)
        invariant accepted == geometry.Before(iMcuRowNum, yOffset, mcuCtr) && old(accepted) <= accepted
        invariant |accepted| + left == |old(accepted)| + room
      {
        var col := mcuCtr;
        while col < geometry.perRow
          modifies `accepted, `mcuVertOffset, `mcuCtr
          invariant col <= geometry.perRow
          invariant accepted == geometry.Before(iMcuRowNum, yOffset, col) && old(accepted) <= accepted
          invariant |accepted| + left == |old(accepted)| + room
        {
          if left == 0 {
            mcuVertOffset, mcuCtr := yOffset, col;
            return false, 0;
          }
          accepted := accepted + [Mcu(iMcuRowNum, yOffset, col)];
          left := left - 1;
          col := col + 1;
        }
        mcuCtr := 0;
        yOffset := yOffset + 1;
      }
      iMcuRowNum := iMcuRowNum + 1;
      StartIMcuRow();
      done := true;
    }
  }

  /** k times n. */
  function Times(k: int, n: nat): (r: nat) {
    if k <= 0 then 0 else Times(k - 1, n) + n
  }

  lemma {:induction false} TimesIs(k: nat, n: nat)
    ensures Times(k, n) == k * n
  {
    if k > 0 {
      TimesIs(k - 1, n);
    }
  }

  lemma {:induction false} TimesGrows(a: int, b: int, n: nat)
    requires a <= b
    ensures Times(a, n) <= Times(b, n)
    decreases b - a
  {
    if a < b {
      TimesGrows(a, b - 1, n);
    }
  }

  lemma TimesTwice(k: nat, n: nat, v: nat)
    ensures Times(k, Times(n, v)) == Times(k, n) * v
  {
    TimesIs(n, v);
    TimesIs(k, n);
    TimesIs(k, n * v);
    assert k * (n * v) == k * n * v;
  }

  lemma TooManyRows(k: nat, v: nat, n: int, height: int)
    requires v > 0 && (k + 1) * v <= n
    ensures k * v < height || height < n
  {
  }

  /** The numbers of the rows of an image. */
  function RowNumbers(n: nat): (rows: seq<nat>)
    ensures |rows| == n && forall i :: 0 <= i < n ==> rows[i] == i
  {
    seq(n, i requires 0 <= i < n => i)
  }

  // Always true. Mentioning it opens the three predicates below.
  ghost predicate Expand(x: nat) {
    true
  }

  class MainController {
    const imageHeight: nat
    const v: nat               // max_v_samp_factor
    const groups: nat          // row groups in an iMCU row: min_DCT_v_scaled_size
    const coef: CoefController
    const context: bool        // the downsampler needs context rows
    const prep: ContextBuffer<nat>  // the preprocessor, if so
    var curIMcuRow: nat
    var rowGroupCtr: nat
    var suspended: bool
    var rowsToGo: nat          // in the preprocessor, if there are no context rows
    var nextBufRow: nat        // likewise
    var nextScanline: nat      // what the application is told
    ghost var converted: seq<nat>  // the image rows that were read, in order

    constructor (height: nat, v: nat, groups: nat, coef: CoefController, context: bool, prep: ContextBuffer<nat>)
      requires v > 0 && groups > 0 && height > 0 && coef.Valid() && coef.iMcuRowNum == 0 && coef.AtRowStart()
      requires (coef.geometry.total - 1) * (groups * v) < height <= coef.geometry.total * (groups * v)
      requires prep.Valid() && prep.v == v && prep.imageHeight == height && prep.image == RowNumbers(height)
      requires prep.rowsToGo == height && prep.windows == []
      ensures Valid() && nextScanline == 0 && this.coef == coef && imageHeight == height && converted == []
    {
      this.imageHeight, this.v, this.groups, this.coef, this.context, this.prep :=
        height, v, groups, coef, context, prep;
      curIMcuRow, rowGroupCtr, suspended, rowsToGo, nextBufRow, nextScanline, converted :=
        0, 0, false, height, 0, 0, [];
      TimesIs(groups, v);
      TimesIs(coef.geometry.total - 1, groups * v);
      TimesIs(coef.geometry.total, groups * v);
    }

    /** The rows of the image before iMCU row k. */
    ghost function RowsBefore(k: int): (n: nat) {
      Times(k, Times(groups, v))
    }

    ghost predicate Sizes()
      reads this, coef
    {
      && v > 0 && groups > 0 && imageHeight > 0 && coef.Valid()
      && forall x: nat :: Expand(x) ==>
           RowsBefore(coef.geometry.total - 1) < imageHeight <= RowsBefore(coef.geometry.total)
    }

    /** The first n rows, each once. */
    ghost predicate Read(n: nat)
      reads this
    {
      |converted| == n && forall i :: 0 <= i < n ==> converted[i] == i
    }

    /** Where the preprocessor is; the rows of iMCU row curIMcuRow are being read. */
    ghost predicate Reading()
      reads this
    {
      && rowGroupCtr <= groups
      && forall x: nat :: Expand(x) ==>
           && rowsToGo <= imageHeight && Read(imageHeight - rowsToGo) && nextBufRow < v
           && (rowGroupCtr == groups ==> nextBufRow == 0)
           && (rowsToGo > 0 ==> imageHeight - rowsToGo == RowsBefore(curIMcuRow) + Times(rowGroupCtr, v) + nextBufRow)
           && (rowsToGo == 0 ==>
                 && nextBufRow == 0 && (rowGroupCtr == 0 || rowGroupCtr == groups)
                 && imageHeight <= RowsBefore(curIMcuRow + if rowGroupCtr == groups then 1 else 0))
    }

    /** The same with context rows: the row groups that went out are those of this iMCU row and of the
        ones before it. */
    ghost predicate ReadingContext()
      reads this, prep, prep.rows, prep.pointers
    {
      && rowGroupCtr <= groups
      && forall x: nat :: Expand(x) ==>
           && prep.Valid() && prep.v == v && prep.imageHeight == imageHeight && prep.image == RowNumbers(imageHeight)
           && |prep.windows| == Times(curIMcuRow, groups) + rowGroupCtr
    }

    ghost function RowsLeft(): (n: nat)
      reads this, prep
    {
      if context then prep.rowsToGo else rowsToGo
    }

    /** A call that has counted inCtr rows of its buffer. */
    ghost predicate Running(inCtr: nat)
      reads this, coef, prep, prep.rows, prep.pointers
    {
      && Sizes() && Prepared() && curIMcuRow == coef.iMcuRowNum <= coef.geometry.total
      && nextScanline + inCtr + (if suspended then 1 else 0) == imageHeight - RowsLeft()
      && (if suspended then rowGroupCtr == groups && curIMcuRow < coef.geometry.total
          else rowGroupCtr < groups && coef.AtRowStart())
      && (!suspended && !context ==> (rowsToGo == 0 <==> curIMcuRow == coef.geometry.total))
      && (if curIMcuRow == coef.geometry.total then RowsLeft() == 0 && rowGroupCtr == 0 else nextScanline < imageHeight)
    }

    ghost predicate Valid()
      reads this, coef, prep, prep.rows, prep.pointers
    {
      Running(0)
    }

    ghost method Convert(numbers: seq<nat>, from: nat, n: nat)
      requires from + n <= |numbers| && rowsToGo <= imageHeight && Read(imageHeight - rowsToGo)
      requires forall i :: from <= i < from + n ==> numbers[i] == imageHeight - rowsToGo + i - from
      modifies `converted
      ensures Read(imageHeight - rowsToGo + n)
    {
      converted := converted + numbers[from..from + n];
    }

    /** Room for so many rows of the row group, or as many as there are; then rows and row groups are
        repeated at the bottom. */
    method ReadRows(numbers: seq<nat>, inRowCtr: nat) returns (inCtr: nat)
      requires Reading() && rowGroupCtr < groups && 0 < rowsToGo && 0 < |numbers| - inRowCtr <= rowsToGo && v > 0
      requires forall i :: inRowCtr <= i < |numbers| ==> numbers[i] == imageHeight - rowsToGo + i - inRowCtr
      modifies `rowsToGo, `nextBufRow, `rowGroupCtr, `converted
      ensures Reading() && inRowCtr < inCtr <= |numbers| && rowsToGo == old(rowsToGo) - (inCtr - inRowCtr)
      ensures rowsToGo == 0 ==> rowGroupCtr == groups
    {
      assert Expand(0);
      var numRows := v - nextBufRow;
      if |numbers| - inRowCtr < numRows {
        numRows := |numbers| - inRowCtr;
      }
      TimesGrows(rowGroupCtr + 1, groups, v);
      Convert(numbers, inRowCtr, numRows);
      inCtr := inRowCtr + numRows;
      nextBufRow := nextBufRow + numRows;
      rowsToGo := rowsToGo - numRows;
      if rowsToGo == 0 && nextBufRow < v {
        nextBufRow := v;  // rows are repeated at the bottom
      }
      if nextBufRow == v {
        nextBufRow := 0;
        rowGroupCtr := rowGroupCtr + 1;
      }
      if rowsToGo == 0 && rowGroupCtr < groups {
        rowGroupCtr := groups;  // row groups are repeated at the bottom
      }
    }

    /** pre_process_data, as far as rows are counted; numbers holds the image rows in the buffer of
        the application. */
    method PreProcess(numbers: seq<nat>, inRowCtr: nat) returns (inCtr: nat)
      requires v > 0 && Reading() && rowGroupCtr < groups && |numbers| - inRowCtr <= rowsToGo
      requires rowsToGo > 0
      requires forall i :: inRowCtr <= i < |numbers| ==> numbers[i] == imageHeight - rowsToGo + i - inRowCtr
      modifies `rowsToGo, `nextBufRow, `rowGroupCtr, `converted
      ensures Reading() && inRowCtr <= inCtr && rowsToGo == old(rowsToGo) - (inCtr - inRowCtr)
      ensures rowGroupCtr == groups || (inCtr >= |numbers| && rowsToGo > 0)
      ensures rowGroupCtr == groups ==> inCtr > inRowCtr
    {
      inCtr := inRowCtr;
      while inCtr < |numbers| && rowGroupCtr < groups
        invariant Reading() && inRowCtr <= inCtr && (inCtr <= |numbers| || inCtr == inRowCtr)
        invariant rowsToGo == old(rowsToGo) - (inCtr - inRowCtr)
        invariant inCtr > inRowCtr || (rowGroupCtr < groups && rowsToGo > 0)
        invariant rowsToGo == 0 ==> rowGroupCtr == groups
        decreases |numbers| - inCtr
      {
        inCtr := ReadRows(numbers, inCtr);
      }
    }

    /** pre_process_context. */
    method PreProcessContext(numbers: seq<nat>, inRowCtr: nat) returns (inCtr: nat)
      requires ReadingContext() && rowGroupCtr < groups && |numbers| - inRowCtr <= prep.rowsToGo
      requires forall i :: inRowCtr <= i < |numbers| ==> numbers[i] == imageHeight - prep.rowsToGo + i - inRowCtr
      modifies `rowGroupCtr, prep, prep.rows
      ensures ReadingContext() && inRowCtr <= inCtr && prep.rowsToGo == old(prep.rowsToGo) - (inCtr - inRowCtr)
      ensures rowGroupCtr == groups || (inCtr >= |numbers| && prep.rowsToGo > 0)
      ensures rowGroupCtr == groups ==> inCtr > inRowCtr || prep.rowsToGo == 0
    {
      assert Expand(0);
      inCtr, rowGroupCtr := prep.PreProcess(numbers, inRowCtr, |numbers|, rowGroupCtr, groups);
    }

    /** Read rows until the iMCU row is full, unless there are too few. */
    method FillRow(numbers: seq<nat>, inRowCtr: nat) returns (inCtr: nat)
      requires Sizes() && (if context then ReadingContext() else Reading() && rowsToGo > 0) && rowGroupCtr < groups
      requires nextScanline + inRowCtr == imageHeight - RowsLeft() && nextScanline + |numbers| <= imageHeight
      requires nextScanline < imageHeight && forall i :: 0 <= i < |numbers| ==> numbers[i] == nextScanline + i
      modifies `rowGroupCtr, `rowsToGo, `nextBufRow, `converted, prep, prep.rows
      ensures Sizes() && Prepared()
      ensures nextScanline + inCtr == imageHeight - RowsLeft()
      ensures rowGroupCtr == groups || (inCtr >= |numbers| && RowsLeft() > 0)
      ensures rowGroupCtr == groups ==> inCtr > 0
    {
      if context {
        inCtr := PreProcessContext(numbers, inRowCtr);
      } else {
        inCtr := PreProcess(numbers, inRowCtr);
      }
    }

    /** Whether rows or row groups are counted. */
    ghost predicate Prepared()
      reads this, prep, prep.rows, prep.pointers
    {
      if context then ReadingContext() else Reading()
    }

    /** Send the full iMCU row to the compressor. If it does not take all of it, the application is to
        think that the last input row was not consumed. */
    method SendRow(inRowCtr: nat, room: nat) returns (done: bool, inCtr: nat, left: nat)
      requires Sizes() && Prepared() && rowGroupCtr == groups && curIMcuRow == coef.iMcuRowNum < coef.geometry.total
      requires nextScanline + inRowCtr + (if suspended then 1 else 0) == imageHeight - RowsLeft()
      requires nextScanline < imageHeight
      requires !suspended ==> inRowCtr > 0 && coef.AtRowStart()
      modifies `curIMcuRow, `rowGroupCtr, `suspended, coef
      ensures Running(inCtr) && old(coef.accepted) <= coef.accepted
      ensures |coef.accepted| + left == |old(coef.accepted)| + room
      ensures done ==> !suspended && curIMcuRow == old(curIMcuRow) + 1
      ensures !done ==> suspended && left == 0 && curIMcuRow == old(curIMcuRow)
    {
      inCtr := inRowCtr;
      done, left := coef.CompressData(room);
      if !done {
        if !suspended {
          inCtr := inCtr - 1;
          suspended := true;
        }
        return;
      }
      if suspended {
        inCtr := inCtr + 1;
        suspended := false;
      }
      FinishRow();
    }

    /** process_data_simple_main: the destination has room for so many MCUs. */
    method ProcessData(numbers: seq<nat>, room: nat) returns (inCtr: nat, left: nat)
      requires Valid() && |numbers| <= imageHeight - nextScanline
      requires forall i :: 0 <= i < |numbers| ==> numbers[i] == nextScanline + i
      modifies `curIMcuRow, `rowGroupCtr, `suspended, `rowsToGo, `nextBufRow, `converted, coef, prep, prep.rows
      ensures Running(inCtr) && (curIMcuRow < coef.geometry.total ==> nextScanline + inCtr < imageHeight)
      ensures old(coef.accepted) <= coef.accepted && |coef.accepted| + left == |old(coef.accepted)| + room
      ensures suspended ==> left == 0
      ensures !suspended ==> inCtr >= |numbers|
    {
      inCtr, left := 0, room;
      while curIMcuRow < coef.geometry.total
        invariant Running(inCtr) && old(coef.accepted) <= coef.accepted
        invariant |coef.accepted| + left == |old(coef.accepted)| + room
        decreases coef.geometry.total - curIMcuRow
      {
        if rowGroupCtr < groups {
          inCtr := FillRow(numbers, inCtr);
        }
        if rowGroupCtr != groups {
          return;
        }
        var done;
        done, inCtr, left := SendRow(inCtr, left);
        if !done {
          return;
        }
      }
    }

    /** The buffer is empty again. */
    method FinishRow()
      requires Sizes() && Prepared() && rowGroupCtr == groups && curIMcuRow < coef.geometry.total
      modifies `rowGroupCtr, `curIMcuRow
      ensures Prepared() && rowGroupCtr == 0 && curIMcuRow == old(curIMcuRow) + 1
      ensures !context ==> (rowsToGo == 0 <==> curIMcuRow == coef.geometry.total)
      ensures curIMcuRow == coef.geometry.total ==> RowsLeft() == 0
    {
      assert Expand(0);
      if curIMcuRow + 1 < coef.geometry.total {
        TimesGrows(curIMcuRow + 1, coef.geometry.total - 1, Times(groups, v));
      }
      rowGroupCtr := 0;
      curIMcuRow := curIMcuRow + 1;
      if context && curIMcuRow == coef.geometry.total {
        AllRowsRead();
      }
    }

    /** Once all row groups went out, so did all rows. */
    lemma AllRowsRead()
      requires Sizes() && context && ReadingContext() && curIMcuRow == coef.geometry.total && rowGroupCtr == 0
      ensures prep.rowsToGo == 0
    {
      assert Expand(0);
      if prep.rowsToGo > 0 {
        prep.GroupsSoFar();
        TimesTwice(curIMcuRow, groups, v);
        TooManyRows(|prep.windows|, v, imageHeight - prep.rowsToGo, imageHeight);
      }
    }

    /** The application hands over lines, from next_scanline on. */
    method WriteScanlines(numLines: nat, room: nat) returns (rowCtr: nat, left: nat)
      requires Valid()
      modifies this, coef, prep, prep.rows
      ensures Valid() && nextScanline == old(nextScanline) + rowCtr
      ensures old(coef.accepted) <= coef.accepted && |coef.accepted| + left == |old(coef.accepted)| + room
      ensures suspended ==> left == 0
      ensures !suspended ==> nextScanline >= old(nextScanline) + numLines || nextScanline == imageHeight
    {
      var first := nextScanline;
      var numbers := seq(if numLines < imageHeight - first then numLines else imageHeight - first,
                         i requires i >= 0 => first + i);
      rowCtr, left := ProcessData(numbers, room);
      nextScanline := nextScanline + rowCtr;
    }

    /** Calls with so many lines each, the destination having room for so many MCUs in each call. Every
        call that is not refused gets on by a line at least, so that finitely many refusals cannot keep
        the application from writing all lines. */
    method WriteImage(numLines: nat, rooms: seq<nat>) returns (refused: nat)
      requires Valid() && numLines > 0
      modifies this, coef, prep, prep.rows
      ensures Valid() && refused <= |rooms| && old(coef.accepted) <= coef.accepted
      ensures nextScanline == imageHeight || nextScanline + refused >= old(nextScanline) + |rooms|
    {
      refused := 0;
      var i := 0;
      while i < |rooms|
        invariant Valid() && refused <= i <= |rooms| && old(coef.accepted) <= coef.accepted
        invariant nextScanline <= imageHeight
        invariant nextScanline == imageHeight || nextScanline + refused >= old(nextScanline) + i
      {
        var rowCtr, left := WriteScanlines(numLines, rooms[i]);
        if suspended {
          refused := refused + 1;
        }
        i := i + 1;
      }
    }

    /** When the application has written all lines, all rows were read once, in order, or have gone
        out, clamped at the edges, with the row groups of all iMCU rows; and all MCUs of the image were
        accepted once, in order. */
    lemma AllWritten()
      requires Valid() && nextScanline == imageHeight
      ensures !context ==> converted == RowNumbers(imageHeight)
      ensures context ==>
                && |prep.windows| == Times(coef.geometry.total, groups)
                && forall k :: 0 <= k < |prep.windows| ==>
                     prep.windows[k] == WindowAt(RowNumbers(imageHeight), v, k * v)
      ensures coef.accepted == coef.geometry.Before(coef.geometry.total, 0, 0)
    {
      assert Expand(0) && OpenSeen(0);
    }
  }
}
