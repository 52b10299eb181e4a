/**
 How the blocks of an image are dealt out to the MCUs of a scan: one block to each MCU in a scan of a
 single component, and a rectangle of blocks of every component in an interleaved one.
 */
module ArithLayout {
  import opened Numbers
  import opened IntervalCoder
  import opened Coefficients
  import opened ArithScanModel
  import opened ArithScanRoundTrip
  import opened ScanScript
  import opened ArithProgression

  /** Sampling factors, size in blocks and tables of a component. */
  datatype Component = Component(h: nat, v: nat, width: nat, height: nat, dcTbl: Table, acTbl: Table)

  /** A block of a component, by its row and column. */
  datatype Place = Place(comp: nat, y: nat, x: nat)

  /** The components of an image, whose blocks fill up mcuRows rows of mcusPerRow interleaved MCUs. The
      blocks, those that fill up included, are kept in any order: places lists them, and index finds
      them. */
  datatype Frame = Frame(
    comps: seq<Component>, mcusPerRow: nat, mcuRows: nat, places: seq<Place>, index: Place -> nat,
    order: seq<nat>, limSe: nat, dcL: seq<nat>, dcU: seq<nat>, acK: seq<nat>) {

    predicate Inside(p: Place) {
      p.comp < |comps| && p.y < mcuRows * comps[p.comp].v && p.x < mcusPerRow * comps[p.comp].h
    }

    predicate Genuine(p: Place) {
      p.comp < |comps| && p.y < comps[p.comp].height && p.x < comps[p.comp].width
    }

    predicate ComponentsOk() {
      forall c :: 0 <= c < |comps| ==>
        && comps[c].h > 0 && comps[c].v > 0
        && 0 < comps[c].width <= mcusPerRow * comps[c].h && 0 < comps[c].height <= mcuRows * comps[c].v
    }

    ghost predicate Indexed() {
      && (forall k :: 0 <= k < |places| ==> Inside(places[k]) && index(places[k]) == k)
      && forall p: Place :: Inside(p) ==> index(p) < |places| && places[index(p)] == p
    }

    ghost predicate Ok() {
      && ComponentsOk() && Indexed() && mcusPerRow > 0 && mcuRows > 0
      && |dcL| == |dcU| == |acK| == NUM_ARITH_TBLS && IsOrder(order, limSe)
    }
  }

  function ImageOf(g: Frame): (im: Image)
    ensures |im.comp| == |im.genuine| == |g.places|
    ensures forall k :: 0 <= k < |g.places| ==>
              im.comp[k] == g.places[k].comp && im.genuine[k] == g.Genuine(g.places[k])
  {
    Image(seq(|g.places|, k requires 0 <= k < |g.places| => g.places[k].comp),
          seq(|g.places|, k requires 0 <= k < |g.places| => g.Genuine(g.places[k])),
          g.order, g.limSe)
  }

  // ----- rows and columns -----

  lemma Divided(i: nat, n: nat, m: nat)
    requires i < m * n
    ensures n > 0 && i / n < m && i % n < n && i / n * n + i % n == i
  {
    assert n > 0;
    if i / n >= m {
      Ordered(m, i / n, n);
    }
  }

  lemma Ordered(a: nat, b: nat, n: nat)
    requires a <= b
    ensures a * n <= b * n
  {
  }

  lemma {:induction false} Composed(q: nat, r: nat, n: nat, m: nat)
    requires r < n
    ensures (q * n + r) / n == q && (q * n + r) % n == r
    ensures q < m ==> q * n + r < m * n
  {
    Quotients(q * n + r, q, r, n);
    if q < m {
      Ordered(q + 1, m, n);
    }
  }

  lemma Quotients(i: nat, q: nat, r: nat, n: nat)
    requires r < n && i == q * n + r
    ensures i / n == q && i % n == r
  {
    var p := i / n;
    assert i == p * n + i % n;
    if p < q {
      Ordered(p + 1, q, n);
    } else if q < p {
      Ordered(q + 1, p, n);
    }
  }

  // ----- the blocks of an MCU -----

  /** A block of an MCU: its component within the scan, and its row and column. */
  datatype Member = Member(ci: nat, y: nat, x: nat)

  predicate Sampled(cs: seq<Component>) {
    forall c :: 0 <= c < |cs| ==> cs[c].h > 0 && cs[c].v > 0
  }

  function McuBlocks(cs: seq<Component>): (n: nat) {
    if cs == [] then 0 else cs[0].v * cs[0].h + McuBlocks(cs[1..])
  }

  predicate IsMember(cs: seq<Component>, m: Member) {
    m.ci < |cs| && m.y < cs[m.ci].v && m.x < cs[m.ci].h
  }

  /** The component of block b of an MCU, and its place there: MCU_membership and the loops over it. */
  function MemberAt(cs: seq<Component>, b: nat): (m: Member)
    requires Sampled(cs) && b < McuBlocks(cs)
    ensures IsMember(cs, m)
    decreases |cs|
  {
    var n := cs[0].v * cs[0].h;
    if b < n then
      Divided(b, cs[0].h, cs[0].v);
      Member(0, b / cs[0].h, b % cs[0].h)
    else
      var m := MemberAt(cs[1..], b - n);
      Member(m.ci + 1, m.y, m.x)
  }

  function MemberIndex(cs: seq<Component>, m: Member): (b: nat)
    requires IsMember(cs, m)
    decreases |cs|
  {
    if m.ci == 0 then m.y * cs[0].h + m.x
    else cs[0].v * cs[0].h + MemberIndex(cs[1..], Member(m.ci - 1, m.y, m.x))
  }

  lemma {:induction false} MemberAtIndex(cs: seq<Component>, m: Member)
    requires Sampled(cs) && IsMember(cs, m)
    ensures MemberIndex(cs, m) < McuBlocks(cs) && MemberAt(cs, MemberIndex(cs, m)) == m
    decreases |cs|
  {
    if m.ci == 0 {
      Composed(m.y, m.x, cs[0].h, cs[0].v);
    } else {
      MemberAtIndex(cs[1..], Member(m.ci - 1, m.y, m.x));
    }
  }

  lemma {:induction false} MemberIndexAt(cs: seq<Component>, b: nat)
    requires Sampled(cs) && b < McuBlocks(cs)
    ensures MemberIndex(cs, MemberAt(cs, b)) == b
    decreases |cs|
  {
    var n := cs[0].v * cs[0].h;
    if b < n {
      Divided(b, cs[0].h, cs[0].v);
    } else {
      MemberIndexAt(cs[1..], b - n);
    }
  }

  // ----- the components of a scan -----

  predicate CompsIn(g: Frame, comps: seq<int>) {
    && |comps| > 0
    && (forall j :: 0 <= j < |comps| ==> 0 <= comps[j] < |g.comps|)
    && forall i, j :: 0 <= i < j < |comps| ==> comps[i] < comps[j]
  }

  function CompsOf(g: Frame, comps: seq<int>): (cs: seq<Component>)
    requires CompsIn(g, comps)
    ensures |cs| == |comps| && forall j :: 0 <= j < |cs| ==> cs[j] == g.comps[comps[j]]
  {
    seq(|comps|, j requires 0 <= j < |comps| => g.comps[comps[j]])
  }

  /** Where c is listed. */
  function Position(comps: seq<int>, c: int): (ci: nat)
    requires c in comps
    ensures ci < |comps| && comps[ci] == c
  {
    if comps[0] == c then 0 else 1 + Position(comps[1..], c)
  }

  lemma PositionIs(g: Frame, comps: seq<int>, ci: nat)
    requires CompsIn(g, comps) && ci < |comps|
    ensures Position(comps, comps[ci]) == ci
  {
    assert comps[Position(comps, comps[ci])] == comps[ci];
  }

  // ----- a scan of one component -----

  /** How many blocks component c has. */
  function SingleMcus(g: Frame, c: nat): (n: nat)
    requires c < |g.comps|
  {
    g.comps[c].height * g.comps[c].width
  }

  /** The block of MCU i. */
  function SinglePlaceAt(g: Frame, c: nat, i: nat): (p: Place)
    requires g.Ok() && c < |g.comps| && i < SingleMcus(g, c)
    ensures g.Inside(p) && g.Genuine(p)
  {
    var q := g.comps[c];
    Divided(i, q.width, q.height);
    Place(c, i / q.width, i % q.width)
  }

  /** The MCU of block p. */
  function SingleMcuOf(g: Frame, c: nat, p: Place): (i: nat)
    requires c < |g.comps|
  {
    if p.comp == c && g.Genuine(p) then p.y * g.comps[c].width + p.x else SingleMcus(g, c)
  }

  function SingleLayout(g: Frame, c: nat): (layout: Layout)
    requires g.Ok() && c < |g.comps|
  {
    var n := SingleMcus(g, c);
    Layout(
      seq(n, i requires 0 <= i < n => [g.index(SinglePlaceAt(g, c, i))]),
      seq(|g.places|, k requires 0 <= k < |g.places| => SingleMcuOf(g, c, g.places[k])),
      seq(|g.places|, k => 0))
  }

  lemma SingleMcu(g: Frame, c: nat, i: nat)
    requires g.Ok() && c < |g.comps| && i < SingleMcus(g, c)
    ensures var layout, k := SingleLayout(g, c), g.index(SinglePlaceAt(g, c, i));
            layout.mcus[i] == [k] && k < |g.places| && layout.place[k] == i && layout.slot[k] == 0
  {
    var q := g.comps[c];
    Divided(i, q.width, q.height);
  }

  lemma SinglePlace(g: Frame, c: nat, k: nat)
    requires g.Ok() && c < |g.comps| && k < |g.places|
    ensures var layout := SingleLayout(g, c);
            && |layout.mcus| == SingleMcus(g, c)
            && (layout.place[k] < |layout.mcus| <==> g.places[k].comp == c && g.Genuine(g.places[k]))
            && (layout.place[k] < |layout.mcus| ==> layout.mcus[layout.place[k]] == [k])
  {
    var p, q := g.places[k], g.comps[c];
    if p.comp == c && g.Genuine(p) {
      Composed(p.y, p.x, q.width, q.height);
      assert SinglePlaceAt(g, c, SingleMcuOf(g, c, p)) == p;
    }
  }

  // ----- an interleaved scan -----

  /** Block b of MCU i. */
  function McuPlace(g: Frame, comps: seq<int>, i: nat, m: Member): (p: Place)
    requires g.Ok() && CompsIn(g, comps) && i < g.mcuRows * g.mcusPerRow && IsMember(CompsOf(g, comps), m)
    ensures g.Inside(p)
  {
    var q := g.comps[comps[m.ci]];
    Divided(i, g.mcusPerRow, g.mcuRows);
    Composed(i / g.mcusPerRow, m.y, q.v, g.mcuRows);
    Composed(i % g.mcusPerRow, m.x, q.h, g.mcusPerRow);
    Place(comps[m.ci], i / g.mcusPerRow * q.v + m.y, i % g.mcusPerRow * q.h + m.x)
  }

  /** The MCU that block p is in, and which block of it p is. */
  function McuOfPlace(g: Frame, p: Place): (i: nat)
    requires g.Ok() && g.Inside(p)
    ensures i < g.mcuRows * g.mcusPerRow
  {
    var q := g.comps[p.comp];
    Divided(p.y, q.v, g.mcuRows);
    Divided(p.x, q.h, g.mcusPerRow);
    Composed(p.y / q.v, p.x / q.h, g.mcusPerRow, g.mcuRows);
    p.y / q.v * g.mcusPerRow + p.x / q.h
  }

  function MemberOf(g: Frame, comps: seq<int>, p: Place): (m: Member)
    requires g.Ok() && CompsIn(g, comps) && g.Inside(p) && p.comp in comps
    ensures IsMember(CompsOf(g, comps), m)
  {
    var q := g.comps[p.comp];
    Member(Position(comps, p.comp), p.y % q.v, p.x % q.h)
  }

  lemma PlaceIsMember(g: Frame, comps: seq<int>, p: Place)
    requires g.Ok() && CompsIn(g, comps) && g.Inside(p) && p.comp in comps
    ensures McuPlace(g, comps, McuOfPlace(g, p), MemberOf(g, comps, p)) == p
  {
    var q := g.comps[p.comp];
    Divided(p.y, q.v, g.mcuRows);
    Divided(p.x, q.h, g.mcusPerRow);
    Composed(p.y / q.v, p.x / q.h, g.mcusPerRow, g.mcuRows);
  }

  lemma MemberIsPlace(g: Frame, comps: seq<int>, i: nat, m: Member)
    requires g.Ok() && CompsIn(g, comps) && i < g.mcuRows * g.mcusPerRow && IsMember(CompsOf(g, comps), m)
    ensures var p := McuPlace(g, comps, i, m); p.comp in comps && McuOfPlace(g, p) == i && MemberOf(g, comps, p) == m
  {
    var q := g.comps[comps[m.ci]];
    PositionIs(g, comps, m.ci);
    Divided(i, g.mcusPerRow, g.mcuRows);
    Composed(i / g.mcusPerRow, m.y, q.v, g.mcuRows);
    Composed(i % g.mcusPerRow, m.x, q.h, g.mcusPerRow);
  }

  lemma CompsSampled(g: Frame, comps: seq<int>)
    requires g.Ok() && CompsIn(g, comps)
    ensures Sampled(CompsOf(g, comps))
  {
  }

  /** Block b of MCU i, by its index. */
  function McuIndex(g: Frame, comps: seq<int>, i: nat, b: nat): (k: nat)
    requires g.Ok() && CompsIn(g, comps) && i < g.mcuRows * g.mcusPerRow && b < McuBlocks(CompsOf(g, comps))
  {
    CompsSampled(g, comps);
    g.index(McuPlace(g, comps, i, MemberAt(CompsOf(g, comps), b)))
  }

  /** The blocks of MCU i. */
  function McuIndices(g: Frame, comps: seq<int>, i: nat): (mcu: seq<nat>)
    requires g.Ok() && CompsIn(g, comps) && i < g.mcuRows * g.mcusPerRow
    ensures |mcu| == McuBlocks(CompsOf(g, comps)) && forall b :: 0 <= b < |mcu| ==> mcu[b] == McuIndex(g, comps, i, b)
  {
    var n := McuBlocks(CompsOf(g, comps));
    seq(n, b requires 0 <= b < n => McuIndex(g, comps, i, b))
  }

  function InterleavedLayout(g: Frame, comps: seq<int>): (layout: Layout)
    requires g.Ok() && CompsIn(g, comps)
  {
    var n := g.mcuRows * g.mcusPerRow;
    Layout(
      seq(n, i requires 0 <= i < n => McuIndices(g, comps, i)),
      seq(|g.places|, k requires 0 <= k < |g.places| =>
        if g.places[k].comp in comps then McuOfPlace(g, g.places[k]) else n),
      seq(|g.places|, k requires 0 <= k < |g.places| =>
        if g.places[k].comp in comps then MemberIndex(CompsOf(g, comps), MemberOf(g, comps, g.places[k])) else 0))
  }

  lemma InterleavedMcu(g: Frame, comps: seq<int>, i: nat, b: nat)
    requires g.Ok() && CompsIn(g, comps) && i < g.mcuRows * g.mcusPerRow && b < McuBlocks(CompsOf(g, comps))
    ensures var layout := InterleavedLayout(g, comps);
            var k := McuIndices(g, comps, i)[b];
            layout.mcus[i][b] == k && k < |g.places| && layout.place[k] == i && layout.slot[k] == b
  {
    var cs := CompsOf(g, comps);
    CompsSampled(g, comps);
    MemberIsPlace(g, comps, i, MemberAt(cs, b));
    MemberIndexAt(cs, b);
  }

  lemma InterleavedPlace(g: Frame, comps: seq<int>, k: nat)
    requires g.Ok() && CompsIn(g, comps) && k < |g.places|
    ensures var layout := InterleavedLayout(g, comps);
            && |layout.mcus| == g.mcuRows * g.mcusPerRow
            && (layout.place[k] < |layout.mcus| <==> g.places[k].comp in comps)
            && (layout.place[k] < |layout.mcus| ==>
                  var mcu := layout.mcus[layout.place[k]];
                  layout.slot[k] < |mcu| == McuBlocks(CompsOf(g, comps)) && mcu[layout.slot[k]] == k)
  {
    var p := g.places[k];
    if p.comp in comps {
      CompsSampled(g, comps);
      PlaceIsMember(g, comps, p);
      MemberAtIndex(CompsOf(g, comps), MemberOf(g, comps, p));
    }
  }

  // ----- keeping the blocks -----

  /** The components as if the whole image were one MCU. */
  function Scaled(comps: seq<Component>, mcusPerRow: nat, mcuRows: nat): (cs: seq<Component>)
    ensures |cs| == |comps|
    ensures forall c :: 0 <= c < |cs| ==> cs[c].h == mcusPerRow * comps[c].h && cs[c].v == mcuRows * comps[c].v
  {
    seq(|comps|, c requires 0 <= c < |comps| => comps[c].(h := mcusPerRow * comps[c].h, v := mcuRows * comps[c].v))
  }

  /** The frame that keeps its components one after the other, each row by row. */
  function FrameFor(comps: seq<Component>, mcusPerRow: nat, mcuRows: nat, order: seq<nat>, limSe: nat,
                    dcL: seq<nat>, dcU: seq<nat>, acK: seq<nat>): (g: Frame)
    requires Sampled(Scaled(comps, mcusPerRow, mcuRows))
  {
    var cs := Scaled(comps, mcusPerRow, mcuRows);
    Frame(comps, mcusPerRow, mcuRows,
          seq(McuBlocks(cs), b requires 0 <= b < McuBlocks(cs) =>
            var m := MemberAt(cs, b); Place(m.ci, m.y, m.x)),
          (p: Place) => if IsMember(cs, Member(p.comp, p.y, p.x)) then MemberIndex(cs, Member(p.comp, p.y, p.x)) else 0,
          order, limSe, dcL, dcU, acK)
  }

  /** There is a frame for all components that fill the MCUs. */
  lemma FrameForOk(comps: seq<Component>, mcusPerRow: nat, mcuRows: nat, order: seq<nat>, limSe: nat,
                   dcL: seq<nat>, dcU: seq<nat>, acK: seq<nat>)
    requires mcusPerRow > 0 && mcuRows > 0 && Sampled(comps) && IsOrder(order, limSe)
    requires |dcL| == |dcU| == |acK| == NUM_ARITH_TBLS
    requires forall c :: 0 <= c < |comps| ==>
               0 < comps[c].width <= mcusPerRow * comps[c].h && 0 < comps[c].height <= mcuRows * comps[c].v
    ensures Sampled(Scaled(comps, mcusPerRow, mcuRows))
    ensures FrameFor(comps, mcusPerRow, mcuRows, order, limSe, dcL, dcU, acK).Ok()
  {
    var cs := Scaled(comps, mcusPerRow, mcuRows);
    forall c | 0 <= c < |cs| ensures cs[c].h > 0 && cs[c].v > 0 {
      Ordered(1, mcusPerRow, comps[c].h);
      Ordered(1, mcuRows, comps[c].v);
    }
    var g := FrameFor(comps, mcusPerRow, mcuRows, order, limSe, dcL, dcU, acK);
    forall k | 0 <= k < |g.places| ensures g.Inside(g.places[k]) && g.index(g.places[k]) == k {
      MemberIndexAt(cs, k);
    }
    forall p: Place | g.Inside(p) ensures g.index(p) < |g.places| && g.places[g.index(p)] == p {
      MemberAtIndex(cs, Member(p.comp, p.y, p.x));
    }
  }
}
