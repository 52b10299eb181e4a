/**
 Which rows a scan works on: how the block rows of a component are dealt out to the iMCU rows of the
 image, and which image rows a row group looks at.
 */
module BlockRows {
  import opened ContextRows
  import opened Suspension

  /** jdiv_round_up. */
  function RoundUp(a: nat, b: nat): (r: nat)
    requires b > 0
  {
    (a + b - 1) / b
  }

  lemma RoundUpIs(a: nat, b: nat)
    requires a > 0 && b > 0
    ensures var r := RoundUp(a, b); r > 0 && (r - 1) * b < a <= r * b
  {
    assert a + b - 1 == RoundUp(a, b) * b + (a + b - 1) % b;
  }

  /** A scan of one component with v of the maxV block rows of an iMCU row; blockSize image rows go
      into a block of a component with all of them. */
  function SingleGeometry(imageHeight: nat, v: nat, maxV: nat, blockSize: nat, perRow: nat): (g: Geometry)
    requires imageHeight > 0 && v > 0 && maxV > 0 && blockSize > 0 && perRow > 0
  {
    var unit := maxV * blockSize;
    assert unit > 0;
    var heightInBlocks, rest := RoundUp(imageHeight * v, unit), RoundUp(imageHeight * v, unit) % v;
    Geometry(false, v, if rest == 0 then v else rest, perRow, RoundUp(imageHeight, unit))
  }

  lemma Smaller(a: nat, b: nat, n: nat)
    requires a * n < b * n
    ensures a < b
  {
    if b < a {
      BelowTimes(b, a, n);
    }
  }

  /** The iMCU rows are as many as it takes for all block rows of the component. */
  lemma BlocksFill(imageHeight: nat, v: nat, unit: nat)
    requires imageHeight > 0 && v > 0 && unit > 0
    ensures RoundUp(imageHeight, unit) > 0 && RoundUp(imageHeight * v, unit) > 0
    ensures (RoundUp(imageHeight, unit) - 1) * v < RoundUp(imageHeight * v, unit) <= RoundUp(imageHeight, unit) * v
  {
    assert imageHeight * v > 0;
    RoundUpIs(imageHeight, unit);
    RoundUpIs(imageHeight * v, unit);
    var total, blocks := RoundUp(imageHeight, unit), RoundUp(imageHeight * v, unit);
    BelowTimes((total - 1) * unit, imageHeight, v);
    BelowTimes(imageHeight - 1, total * unit, v);
    Swap(total - 1, unit, v);
    Swap(total, unit, v);
    Smaller((total - 1) * v, blocks, unit);
    Smaller(blocks - 1, total * v, unit);
  }

  lemma Swap(a: nat, b: nat, c: nat)
    ensures a * b * c == a * c * b
  {
  }

  lemma BelowTimes(a: int, b: int, v: nat)
    requires a < b && v > 0
    ensures a * v < b * v && (a + 1) * v <= b * v
  {
  }

  lemma Quotient(n: nat, q: nat, v: nat)
    requires v > 0 && q * v <= n < q * v + v
    ensures n % v == n - q * v
  {
    var p := n / v;
    assert n == p * v + n % v;
    if p < q {
      BelowTimes(p, q, v);
    } else if q < p {
      BelowTimes(q, p, v);
    }
  }

  lemma LastRows(blocks: nat, v: nat, total: nat)
    requires v > 0 && total > 0 && (total - 1) * v < blocks <= total * v
    ensures blocks - (total - 1) * v == if blocks % v == 0 then v else blocks % v
  {
    var q := if blocks == total * v then total else total - 1;
    Quotient(blocks, q, v);
  }

  /** All MCUs of the scan are the blocks of the component, each block row in its place: row y of iMCU
      row r is block row r * v + y of the component, and the component has RoundUp(imageHeight * v,
      maxV * blockSize) of them. */
  lemma {:induction false} SingleHasAllBlocks(imageHeight: nat, v: nat, maxV: nat, blockSize: nat, perRow: nat, m: Mcu)
    requires imageHeight > 0 && v > 0 && maxV > 0 && blockSize > 0 && perRow > 0
    ensures var g := SingleGeometry(imageHeight, v, maxV, blockSize, perRow);
            && g.Ok() && maxV * blockSize > 0
            && (m in g.Before(g.total, 0, 0) <==>
                  && 0 <= m.row && 0 <= m.y < v && 0 <= m.col < perRow
                  && m.row * v + m.y < RoundUp(imageHeight * v, maxV * blockSize))
  {
    var unit := maxV * blockSize;
    assert unit > 0;
    var g := SingleGeometry(imageHeight, v, maxV, blockSize, perRow);
    var blocks := RoundUp(imageHeight * v, unit);
    BlocksFill(imageHeight, v, unit);
    LastRows(blocks, v, g.total);
    BeforeIsAll(g, g.total, 0, 0, m);
    if 0 <= m.row && 0 <= m.y < v {
      RowInside(m.row, m.y, v, g.total, blocks);
    }
  }

  lemma RowInside(r: nat, y: nat, v: nat, total: nat, blocks: nat)
    requires y < v && total > 0 && (total - 1) * v < blocks <= total * v
    ensures r * v + y < blocks <==> r < total && (r == total - 1 ==> y < blocks - (total - 1) * v)
  {
    if r < total - 1 {
      assert (r + 1) * v <= (total - 1) * v;
    } else if r >= total {
      assert total * v <= r * v;
    }
  }

  /** In an interleaved scan each iMCU row is one row of MCUs. */
  lemma {:induction false} InterleavedHasAllMcus(g: Geometry, m: Mcu)
    requires g.Ok() && g.interleaved
    ensures m in g.Before(g.total, 0, 0) <==> 0 <= m.row < g.total && m.y == 0 && 0 <= m.col < g.perRow
  {
    BeforeIsAll(g, g.total, 0, 0, m);
  }

  /** How far row r of an image is from j. */
  function Distance(j: int, r: int): (d: nat) {
    if j < r then r - j else j - r
  }

  /** For each place j of its window the downsampler sees the image row that is nearest: the one at that
      place, or beyond an edge of the image the last one. */
  lemma WindowIsNearest<Row>(image: seq<Row>, v: nat, start: int, j: int, r: nat)
    requires start - v <= j < start + 2 * v && r < |image|
    requires forall x :: 0 <= x < |image| ==> Distance(j, r) <= Distance(j, x)
    ensures WindowAt(image, v, start)[j - start + v] == image[r]
  {
    assert Distance(j, r) <= Distance(j, Clamp(j, |image|));
  }
}
