/**
 The statistics pass: trial encoding that counts symbols, the tables made from the counts, and why
 the output pass then finds a code for every symbol.
 */
module HuffmanGather {
  import opened Numbers
  import opened Coefficients
  import opened Stuffing
  import opened HuffmanTable
  import opened HuffmanOptimal
  import opened HuffmanLimit
  import opened HuffmanBits
  import opened HuffmanModel
  import opened HuffmanScanModel
  import opened HuffmanEncoding
  import opened HuffmanStream

  const NUM_HUFF_TBLS := 4

  type CountTable = c: seq<nat> | |c| == SYMBOLS witness seq(SYMBOLS, i => 0)
  type CountTables = c: seq<CountTable> | |c| == NUM_HUFF_TBLS witness seq<CountTable>(NUM_HUFF_TBLS, i => Zero())

  function Zero(): (c: CountTable) {
    seq(SYMBOLS, i => 0)
  }

  /** The counts of every DC and AC table. */
  datatype Counts = Counts(dc: CountTables, ac: CountTables) {
    function At(isDC: bool, tbl: nat): (c: CountTable)
      requires tbl < NUM_HUFF_TBLS
    {
      if isDC then dc[tbl] else ac[tbl]
    }

    function Add(isDC: bool, tbl: nat, s: Symbol): (r: Counts)
      requires tbl < NUM_HUFF_TBLS
    {
      if isDC then Counts(dc[tbl := dc[tbl][s := dc[tbl][s] + 1]], ac)
      else Counts(dc, ac[tbl := ac[tbl][s := ac[tbl][s] + 1]])
    }
  }

  function NoCounts(): (c: Counts) {
    var zero: CountTables := seq<CountTable>(NUM_HUFF_TBLS, i => Zero());
    Counts(zero, zero)
  }

  /** Every symbol among the items counted. */
  function Tally(c: Counts, p: Items): (r: Counts)
    decreases p
  {
    match p
    case NoItem => c
    case Symbol(dc, tbl, symbol, rest) => Tally(if tbl < NUM_HUFF_TBLS then c.Add(dc, tbl, symbol) else c, rest)
    case Raw(_, _, rest) => Tally(c, rest)
    case Restart(rest) => Tally(c, rest)
  }

  predicate Occurs(p: Items, dc: bool, tbl: nat, symbol: Symbol) {
    match p
    case NoItem => false
    case Symbol(d, t, s, rest) => (d == dc && t == tbl && s == symbol) || Occurs(rest, dc, tbl, symbol)
    case Raw(_, _, rest) => Occurs(rest, dc, tbl, symbol)
    case Restart(rest) => Occurs(rest, dc, tbl, symbol)
  }

  /** The counts grow exactly where a symbol occurs. */
  lemma {:induction false} TallyCounts(c: Counts, p: Items, dc: bool, tbl: nat, symbol: Symbol)
    requires tbl < NUM_HUFF_TBLS
    ensures Tally(c, p).At(dc, tbl)[symbol] >= c.At(dc, tbl)[symbol]
    ensures Occurs(p, dc, tbl, symbol) <==> Tally(c, p).At(dc, tbl)[symbol] > c.At(dc, tbl)[symbol]
    decreases p
  {
    match p
    case NoItem =>
    case Symbol(d, t, s, rest) => TallyCounts(if t < NUM_HUFF_TBLS then c.Add(d, t, s) else c, rest, dc, tbl, symbol);
    case Raw(_, _, rest) => TallyCounts(c, rest, dc, tbl, symbol);
    case Restart(rest) => TallyCounts(c, rest, dc, tbl, symbol);
  }

  /** If every symbol that occurs has a code, all items are coded. */
  lemma {:induction false} OccurringAreCoded(t: Tables, p: Items)
    requires forall dc, tbl, s: Symbol :: Occurs(p, dc, tbl, s) ==> t.Codes(dc, tbl, s)
    ensures Coded(t, p)
    decreases p
  {
    match p
    case NoItem =>
    case Symbol(d, tb, s, rest) =>
      assert Occurs(p, d, tb, s);
      forall dc, tbl, v: Symbol | Occurs(rest, dc, tbl, v) ensures t.Codes(dc, tbl, v) {
        assert Occurs(p, dc, tbl, v);
      }
      OccurringAreCoded(t, rest);
    case Raw(_, _, rest) =>
      forall dc, tbl, v: Symbol | Occurs(rest, dc, tbl, v) ensures t.Codes(dc, tbl, v) {
        assert Occurs(p, dc, tbl, v);
      }
      OccurringAreCoded(t, rest);
    case Restart(rest) =>
      forall dc, tbl, v: Symbol | Occurs(rest, dc, tbl, v) ensures t.Codes(dc, tbl, v) {
        assert Occurs(p, dc, tbl, v);
      }
      OccurringAreCoded(t, rest);
  }

  method NewCounts() returns (tables: seq<array<nat>>)
    ensures |tables| == NUM_HUFF_TBLS && forall i :: 0 <= i < NUM_HUFF_TBLS ==>
              fresh(tables[i]) && tables[i].Length == SYMBOLS && tables[i][..] == Zero()
    ensures forall i, j :: 0 <= i < j < NUM_HUFF_TBLS ==> tables[i] != tables[j]
  {
    tables := [];
    for k := 0 to NUM_HUFF_TBLS
      invariant |tables| == k
      invariant forall i :: 0 <= i < k ==> fresh(tables[i]) && tables[i].Length == SYMBOLS && tables[i][..] == Zero()
      invariant forall i, j :: 0 <= i < j < k ==> tables[i] != tables[j]
    {
      var t := new nat[SYMBOLS](i => 0);
      tables := tables + [t];
    }
  }

  class Gatherer {
    const scan: HuffScan
    const dcCounts: seq<array<nat>>
    const acCounts: seq<array<nat>>
    var lastDcVal: seq<int>
    var restartsToGo: nat

    /** Separate tables of 257 counts. */
    ghost predicate Shaped() {
      && |dcCounts| == |acCounts| == NUM_HUFF_TBLS
      && (forall i :: 0 <= i < NUM_HUFF_TBLS ==> dcCounts[i].Length == acCounts[i].Length == SYMBOLS)
      && (forall i, j :: 0 <= i < j < NUM_HUFF_TBLS ==> dcCounts[i] != dcCounts[j] && acCounts[i] != acCounts[j])
      && (forall i, j :: 0 <= i < NUM_HUFF_TBLS && 0 <= j < NUM_HUFF_TBLS ==> dcCounts[i] != acCounts[j])
    }

    ghost function Values(): (c: Counts)
      requires Shaped()
      reads dcCounts, acCounts
    {
      Counts(seq(NUM_HUFF_TBLS, i requires 0 <= i < NUM_HUFF_TBLS && Shaped() reads dcCounts => dcCounts[i][..]),
             seq(NUM_HUFF_TBLS, i requires 0 <= i < NUM_HUFF_TBLS && Shaped() reads acCounts => acCounts[i][..]))
    }

    ghost predicate Valid()
      reads this
    {
      Shaped() && scan.Ok() && |lastDcVal| == |scan.dcTbl|
    }

    method CountSymbol(dc: bool, tbl: nat, s: Symbol)
      requires Shaped() && tbl < NUM_HUFF_TBLS
      modifies dcCounts, acCounts
      ensures Values() == old(Values()).Add(dc, tbl, s)
    {
      var counts := if dc then dcCounts[tbl] else acCounts[tbl];
      counts[s] := counts[s] + 1;
      ghost var now, was := Values(), old(Values()).Add(dc, tbl, s);
      forall i | 0 <= i < NUM_HUFF_TBLS ensures now.dc[i] == was.dc[i] && now.ac[i] == was.ac[i] {
      }
    }

    constructor (scan: HuffScan)
      requires scan.Ok()
      ensures Valid() && this.scan == scan && Values() == NoCounts()
      ensures lastDcVal == scan.Zeros() && restartsToGo == scan.interval
      ensures forall i :: 0 <= i < NUM_HUFF_TBLS ==> fresh(dcCounts[i]) && fresh(acCounts[i])
    {
      this.scan := scan;
      var d := NewCounts();
      var a := NewCounts();
      dcCounts, acCounts := d, a;
      lastDcVal, restartsToGo := seq(|scan.dcTbl|, i => 0), scan.interval;
    }

    /** Count the symbol of a DC difference; fails if it is out of range. */
    method HtestDc(tbl: nat, v: int, ghost rest: Items) returns (ok: bool)
      requires Shaped() && tbl < NUM_HUFF_TBLS
      modifies dcCounts, acCounts
      ensures ok == (Nbits(Abs(v)) <= MAX_COEF_BITS + 1)
      ensures ok ==> Tally(Values(), rest) == old(Tally(Values(), DcItems(tbl, v, rest)))
    {
      var temp := v;
      if temp < 0 {
        temp := -temp;
      }
      var nbits := CountBits(temp);
      if nbits > MAX_COEF_BITS + 1 {
        return false;
      }
      CountSymbol(true, tbl, nbits);
      ok := true;
      assert DcItems(tbl, v, rest).rest == if nbits == 0 then rest else Raw(Additional(v), nbits, rest);
    }

    /** Count the symbols of sixteen zeros, as often as there are that many; r zeros are left. */
    method HtestZeros(tbl: nat, r0: nat, ghost v: int, ghost rest: Items) returns (r: nat)
      requires Shaped() && tbl < NUM_HUFF_TBLS
      modifies dcCounts, acCounts
      ensures r <= 15
      ensures Nbits(Abs(v)) <= MAX_COEF_BITS ==>
                Tally(Values(), RunItems(tbl, r, v, rest)) == old(Tally(Values(), RunItems(tbl, r0, v, rest)))
    {
      ghost var legal := Nbits(Abs(v)) <= MAX_COEF_BITS;
      r := r0;
      while r > 15
        invariant legal ==>
                    Tally(Values(), RunItems(tbl, r, v, rest)) == old(Tally(Values(), RunItems(tbl, r0, v, rest)))
      {
        CountSymbol(false, tbl, 0xF0);
        r := r - 16;
      }
    }

    /** Count the symbols of a coefficient after r zeros; fails if it is out of range. */
    method HtestRun(tbl: nat, r0: nat, v: int, ghost rest: Items) returns (ok: bool)
      requires Shaped() && tbl < NUM_HUFF_TBLS && v != 0
      modifies dcCounts, acCounts
      ensures ok == (Nbits(Abs(v)) <= MAX_COEF_BITS)
      ensures ok ==> Tally(Values(), rest) == old(Tally(Values(), RunItems(tbl, r0, v, rest)))
    {
      var r := HtestZeros(tbl, r0, v, rest);
      var temp := v;
      if temp < 0 {
        temp := -temp;
      }
      var nbits := CountBitsNonzero(temp);
      if nbits > MAX_COEF_BITS {
        return false;
      }
      CountSymbol(false, tbl, 16 * r + nbits);
      ok := true;
    }

    /** What the counts will be after the coefficients k and on, and rest, if they are legal. */
    ghost function AcTally(tbl: nat, c: Zigzag, k: nat, r: nat, rest: Items): (counts: Counts)
      requires Shaped() && scan.se < |c| && k <= scan.se + 1
      reads this, dcCounts, acCounts
    {
      if AcLegal(c, k, scan.se) then Tally(Values(), AcItems(tbl, c, k, r, scan.se, rest)) else Values()
    }

    /** Count the symbols of the nonzero coefficient at position k, after r zeros. */
    method HtestCoef(tbl: nat, r: nat, v: Coef, ghost c: Zigzag, ghost k: nat, ghost rest: Items) returns (ok: bool)
      requires Shaped() && tbl < NUM_HUFF_TBLS && k <= scan.se < |c| && c[k] == v != 0
      modifies dcCounts, acCounts
      ensures AcLegal(c, k, scan.se) == (ok && AcLegal(c, k + 1, scan.se))
      ensures AcLegal(c, k, scan.se) ==> AcTally(tbl, c, k + 1, 0, rest) == old(AcTally(tbl, c, k, r, rest))
    {
      ok := HtestRun(tbl,
                     r,
                     v,
                     if AcLegal(c, k + 1, scan.se) then AcItems(tbl, c, k + 1, 0, scan.se, rest) else rest);
    }

    /** Count the symbols of the AC coefficients of a block. */
    method HtestAc(tbl: nat, block: CoefBlock, order: seq<nat>, ghost rest: Items) returns (ok: bool)
      requires Shaped() && tbl < NUM_HUFF_TBLS && scan.se < 64 && IsOrder(order, scan.se)
      modifies dcCounts, acCounts
      ensures var c := Zig(block, order, scan.se, 0);
              && ok == AcLegal(c, 1, scan.se)
              && (ok ==> Tally(Values(), rest) == old(AcTally(tbl, c, 1, 0, rest)))
    {
      ghost var c := Zig(block, order, scan.se, 0);
      ghost var legal := AcLegal(c, 1, scan.se);
      ghost var goal := AcTally(tbl, c, 1, 0, rest);
      var r, k := 0, 1;
      while k <= scan.se
        invariant 1 <= k <= scan.se + 1 && legal == AcLegal(c, k, scan.se)
        invariant legal ==> AcTally(tbl, c, k, r, rest) == goal
      {
        var temp := block[order[k]];
        if temp == 0 {
          r := r + 1;
        } else {
          ok := HtestCoef(tbl, r, temp, c, k, rest);
          if !ok {
            return;
          }
          r := 0;
        }
        k := k + 1;
      }
      if r > 0 {
        CountSymbol(false, tbl, 0);
      }
      ok := true;
    }

    /** Count the symbols of a block; fails if a coefficient is out of range. */
    method HtestOneBlock(block: CoefBlock, order: seq<nat>, last: int, dcTbl: nat, acTbl: nat, ghost rest: Items)
      returns (ok: bool)
      requires Shaped() && dcTbl < NUM_HUFF_TBLS && acTbl < NUM_HUFF_TBLS && scan.se < 64 && IsOrder(order, scan.se)
      modifies dcCounts, acCounts
      ensures var c := Zig(block, order, scan.se, 0);
              && ok == BlockLegal(c, last, scan.se)
              && (ok ==>
                    Tally(Values(), rest) == old(Tally(Values(), BlockItems(dcTbl, acTbl, c, last, scan.se, rest))))
    {
      ghost var c := Zig(block, order, scan.se, 0);
      ok := HtestDc(dcTbl, block[0] - last,
                    if AcLegal(c, 1, scan.se) then AcItems(acTbl, c, 1, 0, scan.se, rest) else rest);
      if ok {
        ok := HtestAc(acTbl, block, order, rest);
      }
    }

    /** What the counts will be after the blocks b and on of an MCU and rest, if they are legal. */
    ghost function McuTally(z: seq<Zigzag>, b: nat, rest: Items): (c: Counts)
      requires Valid() && scan.McuShaped(z) && b <= |z|
      reads this, dcCounts, acCounts
    {
      if scan.McuLegal(z, b, lastDcVal) then Tally(Values(), scan.McuItems(z, b, lastDcVal, rest)) else Values()
    }

    /** Block b of an MCU. */
    method GatherBlock(block: CoefBlock, order: seq<nat>, b: nat, ghost z: seq<Zigzag>, ghost rest: Items)
      returns (ok: bool)
      requires Valid() && TablesInRange(scan) && IsOrder(order, scan.se) && scan.McuShaped(z) && b < |z|
      requires z[b] == Zig(block, order, scan.se, 0)
      modifies `lastDcVal, dcCounts, acCounts
      ensures Valid() && scan.McuLegal(z, b, old(lastDcVal)) == (ok && scan.McuLegal(z, b + 1, lastDcVal))
      ensures scan.LastAfter(z, b, old(lastDcVal)) == scan.LastAfter(z, b + 1, lastDcVal)
      ensures scan.McuLegal(z, b, old(lastDcVal)) ==> McuTally(z, b + 1, rest) == old(McuTally(z, b, rest))
    {
      var ci := scan.membership[b];
      ghost var last1 := lastDcVal[ci := z[b][0]];
      ok := HtestOneBlock(block, order, lastDcVal[ci], scan.dcTbl[ci], scan.acTbl[ci],
                          if scan.McuLegal(z, b + 1, last1) then scan.McuItems(z, b + 1, last1, rest) else rest);
      lastDcVal := lastDcVal[ci := block[0]];
      assert lastDcVal == last1;
    }

    /** The blocks of an MCU. */
    method GatherBlocks(mcu: seq<CoefBlock>, order: seq<nat>, ghost z: seq<Zigzag>, ghost rest: Items)
      returns (ok: bool)
      requires Valid() && TablesInRange(scan) && IsOrder(order, scan.se) && scan.McuShaped(z) && |mcu| == |z|
      requires forall b :: 0 <= b < |mcu| ==> z[b] == Zig(mcu[b], order, scan.se, 0)
      modifies `lastDcVal, dcCounts, acCounts
      ensures Valid() && ok == scan.McuLegal(z, 0, old(lastDcVal))
      ensures ok ==>
                Tally(Values(), rest) == old(McuTally(z, 0, rest)) && lastDcVal == scan.LastAfter(z, 0, old(lastDcVal))
    {
      ghost var legal := scan.McuLegal(z, 0, lastDcVal);
      var blkn := 0;
      while blkn < |mcu|
        invariant blkn <= |mcu| && Valid() && legal == scan.McuLegal(z, blkn, lastDcVal)
        invariant legal ==> McuTally(z, blkn, rest) == old(McuTally(z, 0, rest))
        invariant scan.LastAfter(z, blkn, lastDcVal) == scan.LastAfter(z, 0, old(lastDcVal))
      {
        ok := GatherBlock(mcu[blkn], order, blkn, z, rest);
        if !ok {
          return;
        }
        blkn := blkn + 1;
      }
      ok := true;
    }

    /** Trial-encode one MCU. */
    method GatherMcu(mcu: seq<CoefBlock>, order: seq<nat>, ghost z: seq<Zigzag>, ghost rest: Items) returns (ok: bool)
      requires Valid() && TablesInRange(scan) && IsOrder(order, scan.se) && scan.McuShaped(z) && |mcu| == |z|
      requires forall b :: 0 <= b < |mcu| ==> z[b] == Zig(mcu[b], order, scan.se, 0)
      modifies this, dcCounts, acCounts
      ensures Valid() && restartsToGo == scan.Left(old(restartsToGo))
      ensures var last := scan.Restarted(old(lastDcVal), old(restartsToGo));
              && ok == scan.McuLegal(z, 0, last)
              && (ok ==> lastDcVal == scan.LastAfter(z, 0, last))
              && (ok ==> Tally(Values(), rest) == Tally(old(Values()), scan.McuItems(z, 0, last, rest)))
    {
      if scan.interval != 0 {
        if restartsToGo == 0 {
          lastDcVal := scan.Zeros();
          restartsToGo := scan.interval;
        }
        restartsToGo := restartsToGo - 1;
      }
      ok := GatherBlocks(mcu, order, z, rest);
    }

    /** What the counts will be after the MCUs i and on of a scan, if they are legal. */
    ghost function ScanTally(z: seq<seq<Zigzag>>, i: nat): (c: Counts)
      requires Valid() && scan.Shaped(z) && i <= |z|
      reads this, dcCounts, acCounts
    {
      if scan.Legal(z, i, lastDcVal, restartsToGo) then Tally(Values(), scan.ScanItems(z, i, lastDcVal, restartsToGo))
      else Values()
    }

    /** MCU i of a scan. */
    method GatherNext(mcu: seq<CoefBlock>, order: seq<nat>, ghost z: seq<seq<Zigzag>>, ghost i: nat) returns (ok: bool)
      requires Valid() && TablesInRange(scan) && IsOrder(order, scan.se) && scan.Shaped(z) && i < |z| && |mcu| == |z[i]|
      requires forall b :: 0 <= b < |mcu| ==> z[i][b] == Zig(mcu[b], order, scan.se, 0)
      modifies this, dcCounts, acCounts
      ensures Valid() && scan.Legal(z, i, old(lastDcVal), old(restartsToGo))
                      == (ok && scan.Legal(z, i + 1, lastDcVal, restartsToGo))
      ensures scan.Legal(z, i, old(lastDcVal), old(restartsToGo)) ==> ScanTally(z, i + 1) == old(ScanTally(z, i))
    {
      ghost var last := scan.LastAfter(z[i], 0, scan.Restarted(lastDcVal, restartsToGo));
      ghost var left := scan.Left(restartsToGo);
      ok := GatherMcu(mcu, order, z[i],
                      if scan.Legal(z, i + 1, last, left) then scan.ScanItems(z, i + 1, last, left) else NoItem);
    }
  }

  predicate TablesInRange(scan: HuffScan) {
    && scan.Ok()
    && forall ci :: 0 <= ci < |scan.dcTbl| ==> scan.dcTbl[ci] < NUM_HUFF_TBLS && scan.acTbl[ci] < NUM_HUFF_TBLS
  }

  /** The statistics pass counts exactly the symbols that the output pass will emit. */
  method GatherScan(scan: HuffScan, mcus: seq<seq<CoefBlock>>, order: seq<nat>) returns (ok: bool, g: Gatherer)
    requires TablesInRange(scan) && IsOrder(order, scan.se) && scan.Shaped(ZigsOf(mcus, order, scan.se))
    ensures g.Valid() && forall i :: 0 <= i < NUM_HUFF_TBLS ==> fresh(g.dcCounts[i]) && fresh(g.acCounts[i])
    ensures var z := ZigsOf(mcus, order, scan.se);
            && ok == scan.Legal(z, 0, scan.Zeros(), scan.interval)
            && (ok ==> g.Values() == Tally(NoCounts(), scan.ScanItems(z, 0, scan.Zeros(), scan.interval)))
  {
    g := new Gatherer(scan);
    ghost var z := ZigsOf(mcus, order, scan.se);
    ghost var legal := scan.Legal(z, 0, scan.Zeros(), scan.interval);
    ghost var goal := g.ScanTally(z, 0);
    var i := 0;
    while i < |mcus|
      invariant i <= |z| && g.Valid() && g.scan == scan && fresh(g)
      invariant forall j :: 0 <= j < NUM_HUFF_TBLS ==> fresh(g.dcCounts[j]) && fresh(g.acCounts[j])
      invariant legal == scan.Legal(z, i, g.lastDcVal, g.restartsToGo)
      invariant legal ==> g.ScanTally(z, i) == goal
    {
      ok := g.GatherNext(mcus[i], order, z, i);
      if !ok {
        return;
      }
      i := i + 1;
    }
    ok := true;
  }
}
