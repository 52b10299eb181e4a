/**
 Both passes of an optimized scan: the tables made from the counts give a code to every symbol that
 the output pass emits.
 */
module HuffmanTwoPass {
  import opened Numbers
  import opened Coefficients
  import opened HuffmanTable
  import opened HuffmanOptimal
  import opened HuffmanLimit
  import opened HuffmanModel
  import opened HuffmanScanModel
  import opened HuffmanEncoding
  import opened HuffmanStream
  import opened HuffmanGather

  // ----- one table -----

  /** Counts a table can be made from. */
  ghost predicate Countable(freq: seq<nat>) {
    |freq| == SYMBOLS && Sum(freq, RESERVED) < MAX_COUNT && 1 <= Live(freq, RESERVED) <= 254
  }

  /** A code for every counted symbol and no other. */
  ghost predicate CodesFor(code: CodeTable, freq: seq<nat>)
    requires |freq| == SYMBOLS
  {
    code.Usable() && forall v: Symbol :: code.ehufsi[v] > 0 <==> freq[v] > 0
  }

  lemma DerivedCodesFor(t: HuffTable, counted: seq<nat>, ehufco: PerSymbol, ehufsi: PerSymbol)
    requires TableFor(t, counted) && Acceptable(t, 255) && Derived(t, ehufco, ehufsi)
    ensures CodesFor(CodeTable(ehufco, ehufsi), counted)
  {
    AcceptableIsDecodable(t, 255, ehufco, ehufsi);
    var s := Sizes(t.bits, MAX_BITS);
    forall v: Symbol ensures ehufsi[v] > 0 <==> counted[v] > 0 {
      if ehufsi[v] > 0 {
        var p := DerivedAt(t, ehufco, ehufsi, v);
        assert t.huffval[..|s|][p] == v;
      }
      if counted[v] > 0 {
        var p :| 0 <= p < |s| && t.huffval[..|s|][p] == v;
        assert t.huffval[p] == v && ehufsi[v] == s[p];
      }
    }
  }

  /** Generate a table from counts and derive its codes; ok unless a code would be too long. */
  method MakeTable(isDC: bool, freq: array<nat>) returns (ok: bool, code: CodeTable)
    requires freq.Length == SYMBOLS && Countable(freq[..]) && (isDC ==> forall v :: 15 < v < RESERVED ==> freq[v] == 0)
    modifies freq
    ensures ok ==> CodesFor(code, old(freq[..]))
    ensures old(Sum(freq[..], RESERVED)) + 1 < LeastCount(MAX_CLEN + 1) ==> ok
  {
    ghost var counted := WithReserved(freq[..]);
    var bits, huffval := new nat[MAX_BITS + 1](i => 0), new Symbol[256](i => 0);
    var ehufco, ehufsi := new nat[256](i => 0), new nat[256](i => 0);
    ok := GenOptimalTable(freq, bits, huffval);
    if ok {
      var t := HuffTable(bits[..], huffval[..]);
      assert HuffmanLimit.Expand(0);
      assert Acceptable(t, if isDC then 15 else 255) && Acceptable(t, 255);
      ok := MakeDerivedTable(isDC, t, ehufco, ehufsi);
      DerivedCodesFor(t, counted, ehufco[..], ehufsi[..]);
    }
    code := CodeTable(ehufco[..], ehufsi[..]);
  }

  lemma NoMoreThan254(freq: seq<nat>, i: nat, j: nat)
    requires |freq| == SYMBOLS && i < j < RESERVED && freq[i] == freq[j] == 0
    ensures Live(freq, RESERVED) <= 254
  {
    SumUpdate(freq, RESERVED, i, 1);
    SumUpdate(freq[i := 1], RESERVED, j, 1);
  }

  // ----- which symbols can occur -----

  /** The symbol is one that a legal scan can contain. */
  predicate Possible(scan: HuffScan, dc: bool, tbl: nat, s: Symbol) {
    if dc then tbl in scan.dcTbl && s <= MAX_COEF_BITS + 1
    else tbl in scan.acTbl && s % 16 <= MAX_COEF_BITS && scan.se > 0
  }

  predicate AllPossible(scan: HuffScan, p: Items) {
    match p
    case NoItem => true
    case Symbol(dc, tbl, symbol, rest) => Possible(scan, dc, tbl, symbol) && AllPossible(scan, rest)
    case Raw(_, _, rest) => AllPossible(scan, rest)
    case Restart(rest) => AllPossible(scan, rest)
  }

  lemma {:induction false} OccurringIsPossible(scan: HuffScan, p: Items, dc: bool, tbl: nat, s: Symbol)
    requires AllPossible(scan, p) && Occurs(p, dc, tbl, s)
    ensures Possible(scan, dc, tbl, s)
    decreases p
  {
    if !(p.Symbol? && p.dc == dc && p.tbl == tbl && p.symbol == s) {
      OccurringIsPossible(scan, p.rest, dc, tbl, s);
    }
  }

  lemma {:induction false} RunPossible(scan: HuffScan, tbl: nat, r: nat, v: int, rest: Items)
    requires Nbits(Abs(v)) <= MAX_COEF_BITS && tbl in scan.acTbl && scan.se > 0 && AllPossible(scan, rest)
    ensures AllPossible(scan, RunItems(tbl, r, v, rest))
    decreases r
  {
    if r > 15 {
      RunPossible(scan, tbl, r - 16, v, rest);
    } else {
      assert AllPossible(scan, Raw(Additional(v), Nbits(Abs(v)), rest));
      assert (16 * r + Nbits(Abs(v))) % 16 == Nbits(Abs(v));
    }
  }

  lemma {:induction false} AcPossible(scan: HuffScan, tbl: nat, c: Zigzag, k: nat, r: nat, rest: Items)
    requires scan.se < |c| && 1 <= k <= scan.se + 1 && AcLegal(c, k, scan.se) && tbl in scan.acTbl
    requires (r > 0 ==> scan.se > 0) && AllPossible(scan, rest)
    ensures AllPossible(scan, AcItems(tbl, c, k, r, scan.se, rest))
    decreases scan.se + 1 - k
  {
    if k <= scan.se && c[k] == 0 {
      AcPossible(scan, tbl, c, k + 1, r + 1, rest);
    } else if k <= scan.se {
      AcPossible(scan, tbl, c, k + 1, 0, rest);
      RunPossible(scan, tbl, r, c[k], AcItems(tbl, c, k + 1, 0, scan.se, rest));
    }
  }

  lemma BlockPossible(scan: HuffScan, ci: nat, c: Zigzag, last: int, rest: Items)
    requires scan.Ok() && ci < |scan.dcTbl| && scan.se < |c| && BlockLegal(c, last, scan.se) && AllPossible(scan, rest)
    ensures AllPossible(scan, BlockItems(scan.dcTbl[ci], scan.acTbl[ci], c, last, scan.se, rest))
  {
    var p := AcItems(scan.acTbl[ci], c, 1, 0, scan.se, rest);
    AcPossible(scan, scan.acTbl[ci], c, 1, 0, rest);
    assert AllPossible(scan, Raw(Additional(c[0] - last), Nbits(Abs(c[0] - last)), p));
  }

  lemma {:induction false} McuPossible(scan: HuffScan, mcu: seq<Zigzag>, b: nat, last: seq<int>, rest: Items)
    requires scan.Ok() && scan.McuShaped(mcu) && b <= |mcu| && |last| == |scan.dcTbl| && scan.McuLegal(mcu, b, last)
    requires AllPossible(scan, rest)
    ensures AllPossible(scan, scan.McuItems(mcu, b, last, rest))
    decreases |mcu| - b
  {
    if b < |mcu| {
      var ci := scan.membership[b];
      var last1 := last[ci := mcu[b][0]];
      McuPossible(scan, mcu, b + 1, last1, rest);
      BlockPossible(scan, ci, mcu[b], last[ci], scan.McuItems(mcu, b + 1, last1, rest));
    }
  }

  lemma {:induction false} ScanPossible(scan: HuffScan, mcus: seq<seq<Zigzag>>, i: nat, last: seq<int>, togo: nat)
    requires scan.Ok() && scan.Shaped(mcus) && i <= |mcus| && |last| == |scan.dcTbl| && scan.Legal(mcus, i, last, togo)
    ensures AllPossible(scan, scan.ScanItems(mcus, i, last, togo))
    decreases |mcus| - i
  {
    if i < |mcus| {
      var last0 := scan.Restarted(last, togo);
      var last1 := scan.LastAfter(mcus[i], 0, last0);
      ScanPossible(scan, mcus, i + 1, last1, scan.Left(togo));
      McuPossible(scan, mcus[i], 0, last0, scan.ScanItems(mcus, i + 1, last1, scan.Left(togo)));
    }
  }

  // ----- which tables are used -----

  predicate Used(p: Items, dc: bool, tbl: nat) {
    match p
    case NoItem => false
    case Symbol(d, t, _, rest) => (d == dc && t == tbl) || Used(rest, dc, tbl)
    case Raw(_, _, rest) => Used(rest, dc, tbl)
    case Restart(rest) => Used(rest, dc, tbl)
  }

  lemma {:induction false} UsedOccurs(p: Items, dc: bool, tbl: nat) returns (s: Symbol)
    requires Used(p, dc, tbl)
    ensures Occurs(p, dc, tbl, s)
    decreases p
  {
    if p.Symbol? && p.dc == dc && p.tbl == tbl {
      s := p.symbol;
    } else {
      s := UsedOccurs(p.rest, dc, tbl);
    }
  }

  lemma {:induction false} RunUses(tbl: nat, r: nat, v: int, rest: Items, dc: bool, t: nat)
    requires Nbits(Abs(v)) <= 15
    ensures Used(RunItems(tbl, r, v, rest), false, tbl)
    ensures Used(rest, dc, t) ==> Used(RunItems(tbl, r, v, rest), dc, t)
    decreases r
  {
    if r > 15 {
      RunUses(tbl, r - 16, v, rest, dc, t);
    } else {
      assert Used(rest, dc, t) == Used(Raw(Additional(v), Nbits(Abs(v)), rest), dc, t);
    }
  }

  lemma {:induction false} AcUses(tbl: nat, c: Zigzag, k: nat, r: nat, se: nat, rest: Items, dc: bool, t: nat)
    requires se < |c| && 1 <= k <= se + 1 && AcLegal(c, k, se)
    ensures k <= se || r > 0 ==> Used(AcItems(tbl, c, k, r, se, rest), false, tbl)
    ensures Used(rest, dc, t) ==> Used(AcItems(tbl, c, k, r, se, rest), dc, t)
    decreases se + 1 - k
  {
    if k <= se && c[k] == 0 {
      AcUses(tbl, c, k + 1, r + 1, se, rest, dc, t);
    } else if k <= se {
      AcUses(tbl, c, k + 1, 0, se, rest, dc, t);
      RunUses(tbl, r, c[k], AcItems(tbl, c, k + 1, 0, se, rest), dc, t);
    }
  }

  lemma BlockUses(dcTbl: nat, acTbl: nat, c: Zigzag, last: int, se: nat, rest: Items, dc: bool, t: nat)
    requires se < |c| && BlockLegal(c, last, se)
    ensures var p := BlockItems(dcTbl, acTbl, c, last, se, rest);
            Used(p, true, dcTbl) && (se > 0 ==> Used(p, false, acTbl)) && (Used(rest, dc, t) ==> Used(p, dc, t))
  {
    var q := AcItems(acTbl, c, 1, 0, se, rest);
    AcUses(acTbl, c, 1, 0, se, rest, dc, t);
    var v := c[0] - last;
    assert forall d, u :: Used(Raw(Additional(v), Nbits(Abs(v)), q), d, u) == Used(q, d, u);
  }

  /** Every block of an MCU uses the tables of its component. */
  lemma {:induction false} McuUses(scan: HuffScan, mcu: seq<Zigzag>, b: nat, last: seq<int>, rest: Items, k: nat)
    requires scan.Ok() && scan.McuShaped(mcu) && b <= k < |mcu| && |last| == |scan.dcTbl| && scan.McuLegal(mcu, b, last)
    ensures var p, ci := scan.McuItems(mcu, b, last, rest), scan.membership[k];
            Used(p, true, scan.dcTbl[ci]) && (scan.se > 0 ==> Used(p, false, scan.acTbl[ci]))
    decreases |mcu| - b
  {
    var ci, cj := scan.membership[b], scan.membership[k];
    var last1 := last[ci := mcu[b][0]];
    var more := scan.McuItems(mcu, b + 1, last1, rest);
    BlockUses(scan.dcTbl[ci], scan.acTbl[ci], mcu[b], last[ci], scan.se, more, true, scan.dcTbl[cj]);
    BlockUses(scan.dcTbl[ci], scan.acTbl[ci], mcu[b], last[ci], scan.se, more, false, scan.acTbl[cj]);
    if b < k {
      McuUses(scan, mcu, b + 1, last1, rest, k);
    }
  }

  lemma ScanUses(scan: HuffScan, mcus: seq<seq<Zigzag>>, ci: nat)
    requires scan.Ok() && scan.Shaped(mcus) && mcus != [] && scan.Legal(mcus, 0, scan.Zeros(), scan.interval)
    requires ci in scan.membership
    ensures var p := scan.ScanItems(mcus, 0, scan.Zeros(), scan.interval);
            Used(p, true, scan.dcTbl[ci]) && (scan.se > 0 ==> Used(p, false, scan.acTbl[ci]))
  {
    var k :| 0 <= k < |scan.membership| && scan.membership[k] == ci;
    var last0 := scan.Restarted(scan.Zeros(), scan.interval);
    var rest := scan.ScanItems(mcus, 1, scan.LastAfter(mcus[0], 0, last0), scan.Left(scan.interval));
    McuUses(scan, mcus[0], 0, last0, rest, k);
  }

  /** The counts of a legal scan: a table can be made from those of every table in use. */
  lemma CountsAreCountable(scan: HuffScan, p: Items, c: Counts, dc: bool, tbl: nat)
    requires AllPossible(scan, p) && Used(p, dc, tbl) && tbl < NUM_HUFF_TBLS && c == Tally(NoCounts(), p)
    requires Sum(c.At(dc, tbl), RESERVED) < MAX_COUNT
    ensures Countable(c.At(dc, tbl)) && (dc ==> forall v :: 15 < v < RESERVED ==> c.At(dc, tbl)[v] == 0)
  {
    var freq := c.At(dc, tbl);
    forall v: Symbol | !Possible(scan, dc, tbl, v) ensures freq[v] == 0 {
      TallyCounts(NoCounts(), p, dc, tbl, v);
      if Occurs(p, dc, tbl, v) {
        OccurringIsPossible(scan, p, dc, tbl, v);
      }
    }
    if dc {
      NoMoreThan254(freq, 20, 21);
    } else {
      NoMoreThan254(freq, 11, 12);
    }
    var s := UsedOccurs(p, dc, tbl);
    TallyCounts(NoCounts(), p, dc, tbl, s);
    SumBounds(freq, RESERVED, s);
  }

  /** The tables made so far have codes for the symbols counted. */
  ghost predicate Made(tables: seq<CodeTable>, counts: CountTables, did: seq<bool>) {
    && |tables| == |did| == NUM_HUFF_TBLS
    && forall tbl :: 0 <= tbl < NUM_HUFF_TBLS ==>
         tables[tbl].Usable() && (did[tbl] ==> CodesFor(tables[tbl], counts[tbl]))
  }

  function NoCode(): (code: CodeTable) {
    CodeTable(seq(256, i => 0), seq(256, i => 0))
  }

  /** Small enough counts never give a code longer than 32 bits. */
  ghost predicate Small(freq: seq<nat>)
    requires |freq| == SYMBOLS
  {
    Sum(freq, RESERVED) + 1 < LeastCount(MAX_CLEN + 1)
  }

  ghost predicate AllSmall(c: Counts) {
    forall tbl :: 0 <= tbl < NUM_HUFF_TBLS ==> Small(c.dc[tbl]) && Small(c.ac[tbl])
  }

  /** The counts stay within what the search for the smallest can see. */
  ghost predicate AllBounded(c: Counts) {
    forall tbl :: 0 <= tbl < NUM_HUFF_TBLS ==>
      Sum(c.dc[tbl], RESERVED) < MAX_COUNT && Sum(c.ac[tbl], RESERVED) < MAX_COUNT
  }

  /** One table for each table number in use; never more than one call for the same counts, which
      are overwritten. */
  method MakeTables(isDC: bool, counts: seq<array<nat>>, ghost first: CountTables, tbls: seq<nat>)
    returns (ok: bool, tables: seq<CodeTable>)
    requires |counts| == NUM_HUFF_TBLS
    requires (forall i :: 0 <= i < NUM_HUFF_TBLS ==> counts[i].Length == SYMBOLS && counts[i][..] == first[i])
    requires forall i, j :: 0 <= i < j < NUM_HUFF_TBLS ==> counts[i] != counts[j]
    requires forall ci :: 0 <= ci < |tbls| ==> tbls[ci] < NUM_HUFF_TBLS && Countable(first[tbls[ci]])
    requires isDC ==> forall ci, v :: 0 <= ci < |tbls| && 15 < v < RESERVED ==> first[tbls[ci]][v] == 0
    modifies counts
    ensures |tables| == NUM_HUFF_TBLS && forall i :: 0 <= i < NUM_HUFF_TBLS ==> tables[i].Usable()
    ensures ok ==> forall ci :: 0 <= ci < |tbls| ==> CodesFor(tables[tbls[ci]], first[tbls[ci]])
    ensures (forall ci :: 0 <= ci < |tbls| ==> Small(first[tbls[ci]])) ==> ok
  {
    tables := seq(NUM_HUFF_TBLS, i => NoCode());
    var did := seq(NUM_HUFF_TBLS, i => false);
    ok := true;
    var ci := 0;
    while ci < |tbls|
      invariant ci <= |tbls| && ok && Made(tables, first, did)
      invariant forall i :: 0 <= i < NUM_HUFF_TBLS && !did[i] ==> counts[i][..] == first[i]
      invariant forall k :: 0 <= k < ci ==> did[tbls[k]]
    {
      var tbl := tbls[ci];
      if !did[tbl] {
        var code;
        ok, code := MakeTable(isDC, counts[tbl]);
        if !ok {
          return;
        }
        tables, did := tables[tbl := code], did[tbl := true];
      }
      ci := ci + 1;
    }
  }

  /** Codes for everything counted are codes for everything sent. */
  lemma CountedAreCoded(scan: HuffScan, p: Items, c: Counts, t: Tables)
    requires AllPossible(scan, p) && TablesInRange(scan) && c == Tally(NoCounts(), p)
    requires |t.dc| == |t.ac| == NUM_HUFF_TBLS
    requires forall ci :: 0 <= ci < |scan.dcTbl| ==> CodesFor(t.dc[scan.dcTbl[ci]], c.dc[scan.dcTbl[ci]])
    requires scan.se > 0 ==>
               forall ci :: 0 <= ci < |scan.acTbl| ==> CodesFor(t.ac[scan.acTbl[ci]], c.ac[scan.acTbl[ci]])
    ensures Coded(t, p)
  {
    forall dc, tbl, s: Symbol | Occurs(p, dc, tbl, s) ensures t.Codes(dc, tbl, s) {
      OccurringIsPossible(scan, p, dc, tbl, s);
      TallyCounts(NoCounts(), p, dc, tbl, s);
    }
    OccurringAreCoded(t, p);
  }

  /** The counts of a scan, if it is legal. */
  ghost function ScanCounts(scan: HuffScan, z: seq<seq<Zigzag>>): (c: Counts)
    requires scan.Ok() && scan.Shaped(z)
  {
    if scan.Legal(z, 0, scan.Zeros(), scan.interval) then
      Tally(NoCounts(), scan.ScanItems(z, 0, scan.Zeros(), scan.interval))
    else NoCounts()
  }

  lemma AllCountable(scan: HuffScan, z: seq<seq<Zigzag>>, c: Counts)
    requires TablesInRange(scan) && scan.Shaped(z) && z != [] && scan.Legal(z, 0, scan.Zeros(), scan.interval)
    requires forall ci :: 0 <= ci < |scan.dcTbl| ==> ci in scan.membership
    requires c == ScanCounts(scan, z) && AllBounded(c)
    ensures forall ci :: 0 <= ci < |scan.dcTbl| ==>
              Countable(c.dc[scan.dcTbl[ci]]) && forall v :: 15 < v < RESERVED ==> c.dc[scan.dcTbl[ci]][v] == 0
    ensures scan.se > 0 ==> forall ci :: 0 <= ci < |scan.acTbl| ==> Countable(c.ac[scan.acTbl[ci]])
  {
    var p := scan.ScanItems(z, 0, scan.Zeros(), scan.interval);
    ScanPossible(scan, z, 0, scan.Zeros(), scan.interval);
    forall ci: nat | ci < |scan.dcTbl|
      ensures Countable(c.dc[scan.dcTbl[ci]]) && (forall v :: 15 < v < RESERVED ==> c.dc[scan.dcTbl[ci]][v] == 0)
      ensures scan.se > 0 ==> Countable(c.ac[scan.acTbl[ci]])
    {
      ScanUses(scan, z, ci);
      CountsAreCountable(scan, p, c, true, scan.dcTbl[ci]);
      if scan.se > 0 {
        CountsAreCountable(scan, p, c, false, scan.acTbl[ci]);
      }
    }
  }

  /** Make all tables of a scan from its counts. */
  method FinishGather(scan: HuffScan, g: Gatherer, ghost z: seq<seq<Zigzag>>) returns (ok: bool, t: Tables)
    requires TablesInRange(scan) && scan.Shaped(z) && z != [] && scan.Legal(z, 0, scan.Zeros(), scan.interval)
    requires forall ci :: 0 <= ci < |scan.dcTbl| ==> ci in scan.membership
    requires g.Valid() && g.Values() == ScanCounts(scan, z)
    requires AllBounded(ScanCounts(scan, z))
    modifies g.dcCounts, g.acCounts
    ensures Tabled(scan, t) && t.Usable()
    ensures ok ==> Coded(t, scan.ScanItems(z, 0, scan.Zeros(), scan.interval))
    ensures AllSmall(ScanCounts(scan, z)) ==> ok
  {
    ghost var p, c := scan.ScanItems(z, 0, scan.Zeros(), scan.interval), ScanCounts(scan, z);
    ScanPossible(scan, z, 0, scan.Zeros(), scan.interval);
    AllCountable(scan, z, c);
    assert forall i :: 0 <= i < NUM_HUFF_TBLS ==> g.Values().dc[i] == c.dc[i] && g.Values().ac[i] == c.ac[i];
    var dc, ac;
    ok, dc := MakeTables(true, g.dcCounts, c.dc, scan.dcTbl);
    ac := seq(NUM_HUFF_TBLS, i => NoCode());
    if ok && scan.se > 0 {
      ok, ac := MakeTables(false, g.acCounts, c.ac, scan.acTbl);
    }
    t := Tables(dc, ac);
    if ok {
      CountedAreCoded(scan, p, c, t);
    }
  }

  /** An optimized scan: gather statistics, make the tables, send. If all blocks are in range and no
      table needs a code of more than 32 bits, which takes millions of symbols, the scan is sent
      without an error and decodes to every coefficient of every block. */
  method OptimizeAndSend(scan: HuffScan, mcus: seq<seq<CoefBlock>>, order: seq<nat>, marker: Byte)
    returns (ok: bool, t: Tables, out: seq<Byte>)
    requires TablesInRange(scan) && IsOrder(order, scan.se) && scan.Shaped(ZigsOf(mcus, order, scan.se)) && mcus != []
    requires forall ci :: 0 <= ci < |scan.dcTbl| ==> ci in scan.membership
    requires AllBounded(ScanCounts(scan, ZigsOf(mcus, order, scan.se)))
    requires marker != 0 && !IsRestart(marker)
    ensures var z := ZigsOf(mcus, order, scan.se);
            && (ok ==> Tabled(scan, t) && DecodeStream(scan, t, out + [0xFF, marker], |mcus|) == Some(z))
            && (ok ==> scan.Legal(z, 0, scan.Zeros(), scan.interval))
            && (scan.Legal(z, 0, scan.Zeros(), scan.interval) && AllSmall(ScanCounts(scan, z)) ==> ok)
  {
    ghost var z := ZigsOf(mcus, order, scan.se);
    t, out := Tables([], []), [];
    var g;
    ok, g := GatherScan(scan, mcus, order);
    if ok {
      ok, t := FinishGather(scan, g, z);
      if ok {
        ScanCoded(scan, t, z, 0, scan.Zeros(), scan.interval);
        ok, out := SendScan(scan, t, mcus, order, marker);
      }
    }
  }
}
