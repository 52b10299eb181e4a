/**
 The order of the blocks of a scan: MCUs go from left to right and from top to bottom, and so do the
 blocks of each component within an MCU, one component after the other.
 */
module LayoutOrder {
  import opened ArithLayout

  /** a comes before b in an MCU. */
  predicate MemberPrecedes(a: Member, b: Member) {
    a.ci < b.ci || (a.ci == b.ci && (a.y < b.y || (a.y == b.y && a.x < b.x)))
  }

  lemma RowsInOrder(a: nat, b: nat, h: nat)
    requires a < b && h > 0
    ensures a / h < b / h || (a / h == b / h && a % h < b % h)
  {
    assert a == a / h * h + a % h && b == b / h * h + b % h;
    if a / h > b / h {
      Ordered(b / h + 1, a / h, h);
    }
  }

  /** The blocks of an MCU are listed component by component and row by row. */
  lemma {:induction false} MembersInOrder(cs: seq<Component>, a: nat, b: nat)
    requires Sampled(cs) && a < b < McuBlocks(cs)
    ensures MemberPrecedes(MemberAt(cs, a), MemberAt(cs, b))
    decreases |cs|
  {
    var n := cs[0].v * cs[0].h;
    if b < n {
      RowsInOrder(a, b, cs[0].h);
    } else if a >= n {
      MembersInOrder(cs[1..], a - n, b - n);
    }
  }

  /** MCU column c of MCU row r in an interleaved scan holds the rectangle of blocks of each component
      that begins at block row r * v and block column c * h. */
  lemma McuPlaceIs(g: Frame, comps: seq<int>, r: nat, c: nat, m: Member)
    requires g.Ok() && CompsIn(g, comps) && r < g.mcuRows && c < g.mcusPerRow && IsMember(CompsOf(g, comps), m)
    ensures r * g.mcusPerRow + c < g.mcuRows * g.mcusPerRow
    ensures var q := g.comps[comps[m.ci]];
            McuPlace(g, comps, r * g.mcusPerRow + c, m) == Place(comps[m.ci], r * q.v + m.y, c * q.h + m.x)
  {
    Composed(r, c, g.mcusPerRow, g.mcuRows);
  }

  /** In a scan of one component the MCUs are its real blocks, row by row. */
  lemma SinglePlaceIs(g: Frame, c: nat, y: nat, x: nat)
    requires g.Ok() && c < |g.comps| && y < g.comps[c].height && x < g.comps[c].width
    ensures y * g.comps[c].width + x < SingleMcus(g, c)
    ensures SinglePlaceAt(g, c, y * g.comps[c].width + x) == Place(c, y, x)
  {
    Composed(y, x, g.comps[c].width, g.comps[c].height);
  }
}
