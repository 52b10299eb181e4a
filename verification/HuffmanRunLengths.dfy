/**
 No code is spent on zeros without need: sixteen zeros are coded only ahead of a coefficient of the same
 block, and a run of ends of block stops only where it has to.
 */
module HuffmanRunLengths {
  import opened Numbers
  import opened Coefficients
  import opened HuffmanTable
  import opened HuffmanBits
  import opened HuffmanModel
  import opened HuffmanScanModel
  import opened HuffmanRuns

  /** EOB0 to EOB14. */
  predicate IsEob(s: Symbol) {
    s % 16 == 0 && s / 16 < 15
  }

  /** The next code is that of an end of block, or else of AC coefficients. */
  predicate NextIs(p: Items, eob: bool) {
    match p
    case NoItem => false
    case Restart(_) => false
    case Symbol(dc, _, s, _) => !dc && IsEob(s) == eob
    case Raw(_, _, rest) => NextIs(rest, eob)
  }

  /** How many items of plain bits come next. */
  function BitsAhead(p: Items): (n: nat) {
    if p.Raw? then 1 + BitsAhead(p.rest) else 0
  }

  /** Sixteen zeros are always followed, in the block, by more zeros or a coefficient. */
  predicate ZerosLead(p: Items) {
    match p
    case NoItem => true
    case Restart(rest) => ZerosLead(rest)
    case Symbol(dc, _, s, rest) => (!dc && s == 0xF0 ==> NextIs(rest, false)) && ZerosLead(rest)
    case Raw(_, _, rest) => ZerosLead(rest)
  }

  /** The symbol s of an end of block begins a run of so many blocks. */
  function RunLength(s: Symbol, rest: Items): (e: int) {
    if s / 16 == 0 then 1 else if rest.Raw? then rest.value else 0
  }

  /** What follows the length: the correction bits. */
  function Corrections(s: Symbol, rest: Items): (p: Items) {
    if s / 16 > 0 && rest.Raw? then rest.rest else rest
  }

  /** A run that another one follows at once has the greatest length there is, or is followed by more
      correction bits than are left room for. */
  predicate RunsFull(p: Items) {
    match p
    case NoItem => true
    case Restart(rest) => RunsFull(rest)
    case Symbol(_, _, s, rest) =>
      && RunsFull(rest)
      && (IsEob(s) && NextIs(rest, true) ==>
            RunLength(s, rest) == 0x7FFF || BitsAhead(Corrections(s, rest)) > 937)
    case Raw(_, _, rest) => RunsFull(rest)
  }

  // ----- sequential scans -----

  lemma {:induction false} RunLeads(tbl: nat, r: nat, v: int, rest: Items)
    requires 1 <= Nbits(Abs(v)) <= 15 && ZerosLead(rest)
    ensures var p := RunItems(tbl, r, v, rest); ZerosLead(p) && NextIs(p, false)
  {
    if r > 15 {
      RunLeads(tbl, r - 16, v, rest);
    } else {
      NotEob(r, Nbits(Abs(v)));
    }
  }

  lemma NotEob(r: nat, n: nat)
    requires r <= 15 && 1 <= n <= 15
    ensures 16 * r + n < 256 && !IsEob(16 * r + n) && 16 * r + n != 0xF0
  {
  }

  lemma {:induction false} AcLeads(tbl: nat, c: Zigzag, k: nat, r: nat, se: nat, rest: Items)
    requires se < |c| && k <= se + 1 && AcLegal(c, k, se) && ZerosLead(rest)
    ensures ZerosLead(AcItems(tbl, c, k, r, se, rest))
    decreases se + 1 - k
  {
    if k <= se && c[k] == 0 {
      AcLeads(tbl, c, k + 1, r + 1, se, rest);
    } else if k <= se {
      AcLeads(tbl, c, k + 1, 0, se, rest);
      RunLeads(tbl, r, c[k], AcItems(tbl, c, k + 1, 0, se, rest));
    }
  }

  lemma {:induction false} McuLeads(scan: HuffScan, mcu: seq<Zigzag>, b: nat, last: seq<int>, rest: Items)
    requires scan.Ok() && scan.McuShaped(mcu) && b <= |mcu| && |last| == |scan.dcTbl|
    requires scan.McuLegal(mcu, b, last) && ZerosLead(rest)
    ensures ZerosLead(scan.McuItems(mcu, b, last, rest))
    decreases |mcu| - b
  {
    if b < |mcu| {
      var ci := scan.membership[b];
      var next := scan.McuItems(mcu, b + 1, last[ci := mcu[b][0]], rest);
      McuLeads(scan, mcu, b + 1, last[ci := mcu[b][0]], rest);
      AcLeads(scan.acTbl[ci], mcu[b], 1, 0, scan.se, next);
      DcLeads(scan.dcTbl[ci], mcu[b][0] - last[ci], AcItems(scan.acTbl[ci], mcu[b], 1, 0, scan.se, next));
    }
  }

  lemma DcLeads(tbl: nat, v: int, rest: Items)
    requires Nbits(Abs(v)) <= 15 && ZerosLead(rest)
    ensures ZerosLead(DcItems(tbl, v, rest))
  {
  }

  /** Sixteen zeros are never coded at the end of a block. */
  lemma {:induction false} ScanLeads(scan: HuffScan, mcus: seq<seq<Zigzag>>, i: nat, last: seq<int>, togo: nat)
    requires scan.Ok() && scan.Shaped(mcus) && i <= |mcus| && |last| == |scan.dcTbl| && scan.Legal(mcus, i, last, togo)
    ensures ZerosLead(scan.ScanItems(mcus, i, last, togo))
    decreases |mcus| - i
  {
    if i < |mcus| {
      var last0 := scan.Restarted(last, togo);
      var last1, left := scan.LastAfter(mcus[i], 0, last0), scan.Left(togo);
      ScanLeads(scan, mcus, i + 1, last1, left);
      McuLeads(scan, mcus[i], 0, last0, scan.ScanItems(mcus, i + 1, last1, left));
    }
  }

  // ----- progressive scans -----

  lemma {:induction false} CorrectionsAhead(br: seq<Bit>, rest: Items, eob: bool)
    ensures var p := RawBits(br, rest);
            && ZerosLead(p) == ZerosLead(rest) && RunsFull(p) == RunsFull(rest)
            && NextIs(p, eob) == NextIs(rest, eob) && BitsAhead(p) == |br| + BitsAhead(rest)
    decreases |br|
  {
    if br != [] {
      CorrectionsAhead(br[1..], rest, eob);
    }
  }

  lemma EobCode(n: nat)
    requires n <= 14
    ensures IsEob(16 * n) && (16 * n) / 16 == n && (n == 0 <==> 16 * n == 0) && 16 * n != 0xF0
  {
  }

  /** A run of e blocks ends rightly before p. */
  lemma EobFull(tbl: nat, e: nat, bb: seq<Bit>, p: Items)
    requires 0 < e <= MAX_EOBRUN && ZerosLead(p) && RunsFull(p)
    requires NextIs(p, true) ==> e == MAX_EOBRUN || |bb| > BE_LIMIT
    ensures ZerosLead(EobItems(tbl, e, bb, p)) && RunsFull(EobItems(tbl, e, bb, p))
  {
    EobSize(e);
    var n := Nbits(e) - 1;
    EobCode(n);
    if n == 0 {
      OneBitLong(e);
    }
    CorrectionsAhead(bb, p, true);
  }

  lemma OneBitLong(e: nat)
    requires e > 0 && Nbits(e) == 1
    ensures e == 1
  {
    assert Nbits(e / 2) == 0;
  }

  lemma NewLeads(tbl: nat, v: int, r: nat, br: seq<Bit>, rest: Items)
    requires v != 0 && r <= 15 && ZerosLead(rest) && RunsFull(rest)
    ensures var p := NewItems(tbl, v, r, br, rest); ZerosLead(p) && RunsFull(p) && NextIs(p, false) && !NextIs(p, true)
  {
    assert Nbits(Abs(v)) >= 1;
    NotEob(r, Size(v));
    CorrectionsAhead(br, rest, true);
  }

  /** As long as a new coefficient is to come in the block, its code or that of sixteen zeros is next. */
  lemma {:induction false} CoefficientNext(band: Band, hs: seq<seq<int>>, vs: seq<seq<int>>, i: nat, k: nat, r: nat,
                                           br: seq<Bit>)
    requires band.Ok() && AllAgree(band, hs, vs) && i < |vs| && NewAhead(hs[i], vs[i], k)
    ensures NextIs(BandItems(band, hs, vs, i, k, r, br, 0, []), false)
    decreases band.se + 1 - k
  {
    var h, v := hs[i], vs[i];
    if h[k] == 0 && v[k] == 0 {
      CoefficientNext(band, hs, vs, i, k + 1, r + 1, br);
    } else if r > 15 {
    } else if h[k] != 0 {
      CoefficientNext(band, hs, vs, i, k + 1, r, br + [CorrectionBit(v[k])]);
    } else {
      assert Nbits(Abs(v[k])) >= 1;
      NotEob(r, Size(v[k]));
    }
  }

  /** Runs of ends of block are as long as they may be, and sixteen zeros are coded only ahead of a new
      coefficient of the block. */
  lemma {:induction false} BandIsFrugal(band: Band, hs: seq<seq<int>>, vs: seq<seq<int>>, i: nat, k: nat, r: nat,
                                        br: seq<Bit>, e: nat, bb: seq<Bit>)
    requires band.Ok() && AllAgree(band, hs, vs) && i <= |vs| && k <= band.se + 1 && e < MAX_EOBRUN
    ensures var p := BandItems(band, hs, vs, i, k, r, br, e, bb); ZerosLead(p) && RunsFull(p)
    decreases |vs| - i, band.se + 1 - k, r
  {
    if i == |vs| {
      BeforeCode(band.tbl, e, bb, NoItem);
    } else if k > band.se {
      if r == 0 && br == [] {
        BandIsFrugal(band, hs, vs, i + 1, band.ss, 0, [], e, bb);
      } else if e + 1 == MAX_EOBRUN || |bb + br| > BE_LIMIT {
        BandIsFrugal(band, hs, vs, i + 1, band.ss, 0, [], 0, []);
        EobFull(band.tbl, e + 1, bb + br, BandItems(band, hs, vs, i + 1, band.ss, 0, [], 0, []));
      } else {
        BandIsFrugal(band, hs, vs, i + 1, band.ss, 0, [], e + 1, bb + br);
      }
    } else {
      var h, v := hs[i], vs[i];
      if h[k] == 0 && v[k] == 0 {
        BandIsFrugal(band, hs, vs, i, k + 1, r + 1, br, e, bb);
      } else if r > 15 && NewAhead(h, v, k) {
        var p := BandItems(band, hs, vs, i, k, r - 16, [], 0, []);
        BandIsFrugal(band, hs, vs, i, k, r - 16, [], 0, []);
        CoefficientNext(band, hs, vs, i, k, r - 16, []);
        ZerosCode(band.tbl, br, p);
        BeforeCode(band.tbl, e, bb, Symbol(false, band.tbl, 0xF0, RawBits(br, p)));
      } else if h[k] != 0 {
        BandIsFrugal(band, hs, vs, i, k + 1, r, br + [CorrectionBit(v[k])], e, bb);
      } else {
        var p := BandItems(band, hs, vs, i, k + 1, 0, [], 0, []);
        BandIsFrugal(band, hs, vs, i, k + 1, 0, [], 0, []);
        NewLeads(band.tbl, v[k], r, br, p);
        BeforeCode(band.tbl, e, bb, NewItems(band.tbl, v[k], r, br, p));
      }
    }
  }

  lemma ZerosCode(tbl: nat, br: seq<Bit>, p: Items)
    requires ZerosLead(p) && RunsFull(p) && NextIs(p, false)
    ensures var q := Symbol(false, tbl, 0xF0, RawBits(br, p)); ZerosLead(q) && RunsFull(q) && !NextIs(q, true)
  {
    CorrectionsAhead(br, p, false);
  }

  lemma BeforeCode(tbl: nat, e: nat, bb: seq<Bit>, p: Items)
    requires e <= MAX_EOBRUN && ZerosLead(p) && RunsFull(p) && !NextIs(p, true)
    ensures ZerosLead(EobItems(tbl, e, bb, p)) && RunsFull(EobItems(tbl, e, bb, p))
  {
    if e > 0 {
      EobFull(tbl, e, bb, p);
    }
  }
}
