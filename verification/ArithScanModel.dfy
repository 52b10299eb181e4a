/**
 Scans: which decisions code a sequence of MCUs, in each of the five modes an arithmetic scan can
 have, and what a decoder's blocks hold before and after.
 */
module ArithScanModel {
  import opened Numbers
  import opened IntervalCoder
  import opened Coefficients
  import opened ArithModel

  datatype Mode = Sequential | DcFirst | AcFirst | DcRefine | AcRefine

  /** The routine start_pass selects. */
  function SelectMode(progressive: bool, ss: nat, ah: nat): (m: Mode) {
    if !progressive then Sequential
    else if ah == 0 then if ss == 0 then DcFirst else AcFirst
    else if ss == 0 then DcRefine else AcRefine
  }

  /** The parameters of one scan: tables and conditioning, band, bit planes, and the component
      within the scan that each block of an MCU belongs to. */
  datatype ScanInfo = ScanInfo(
    progressive: bool, ss: nat, se: nat, ah: nat, al: nat,
    dcTbl: seq<Table>, acTbl: seq<Table>, membership: seq<nat>,
    dcL: seq<nat>, dcU: seq<nat>, acK: seq<nat>, order: seq<nat>) {

    predicate Ok() {
      && IsOrder(order, se) && |dcTbl| == |acTbl|
      && (forall b :: 0 <= b < |membership| ==> membership[b] < |dcTbl|)
      && |dcL| == |dcU| == |acK| == NUM_ARITH_TBLS
      && (if !progressive then ss == ah == al == 0
          else if ss == 0 then se == 0 else ss <= se && |membership| == 1)
      && (ah > 0 ==> ah == al + 1) && al <= 13
    }

    function Mode(): (m: Mode) {
      SelectMode(progressive, ss, ah)
    }
  }

  /** Per component of the scan: the last DC value and the conditioning category it left. */
  datatype DcState = DcState(last: seq<Coef>, context: seq<DcContext>)

  function InitDcState(n: nat): (st: DcState) {
    DcState(seq(n, i => 0), seq(n, i => 0))
  }

  predicate StateOk(info: ScanInfo, st: DcState) {
    |st.last| == |st.context| == |info.dcTbl|
  }

  /** The DC value after the point transform: an arithmetic right shift. */
  function DcValue(block: CoefBlock, al: nat): (v: Coef)
    ensures v == Shr(block[0], al)
  {
    ShrTowardsZero(block[0], al);
    Shr(block[0], al)
  }

  lemma {:induction false} ShrTowardsZero(v: int, k: nat)
    ensures 0 <= v ==> 0 <= Shr(v, k) <= v
    ensures v < 0 ==> v <= Shr(v, k) < 0
  {
    if k > 0 {
      ShrTowardsZero(v, k - 1);
    }
  }

  function DcDiff(info: ScanInfo, st: DcState, ci: nat, block: CoefBlock): (v: int)
    requires StateOk(info, st) && ci < |st.last|
    ensures Abs(v) < 0x1_0000
  {
    DcValue(block, info.al) - st.last[ci]
  }

  /** The decisions for one block of component ci. */
  function BlockPlan(info: ScanInfo, st: DcState, ci: nat, block: CoefBlock, rest: Plan): (p: Plan)
    requires info.Ok() && StateOk(info, st) && ci < |st.last|
  {
    var c := Zig(block, info.order, info.se, info.al);
    var kx := info.acK[info.acTbl[ci]];
    match info.Mode()
    case Sequential =>
      DcPlan(info.dcTbl[ci], st.context[ci], DcDiff(info, st, ci, block),
             AcPlan(info.acTbl[ci], kx, c, 1, info.se, rest))
    case DcFirst => DcPlan(info.dcTbl[ci], st.context[ci], DcDiff(info, st, ci, block), rest)
    case AcFirst => AcPlan(info.acTbl[ci], kx, c, info.ss, info.se, rest)
    case DcRefine => Next(Decision(FIXED_BIN, DcValue(block, info.al) % 2), rest)
    case AcRefine => RefinePlan(info.acTbl[ci], c, info.ss, info.se, rest)
  }

  function NextDcState(info: ScanInfo, st: DcState, ci: nat, block: CoefBlock): (st': DcState)
    requires info.Ok() && StateOk(info, st) && ci < |st.last|
    ensures StateOk(info, st')
  {
    if info.Mode() == Sequential || info.Mode() == DcFirst then
      var tbl := info.dcTbl[ci];
      DcState(st.last[ci := DcValue(block, info.al)],
              st.context[ci := DcCategory(info.dcL[tbl], info.dcU[tbl], DcDiff(info, st, ci, block))])
    else st
  }

  /** One MCU from its block b on, and then everything after it. */
  function McuPlan(info: ScanInfo, st: DcState, mcu: seq<CoefBlock>, b: nat, rest: Plan): (p: Plan)
    requires info.Ok() && StateOk(info, st) && b <= |mcu| == |info.membership|
    decreases |mcu| - b
  {
    if b == |mcu| then rest
    else
      var ci := info.membership[b];
      BlockPlan(info, st, ci, mcu[b], McuPlan(info, NextDcState(info, st, ci, mcu[b]), mcu, b + 1, rest))
  }

  function AfterMcu(info: ScanInfo, st: DcState, mcu: seq<CoefBlock>, b: nat): (st': DcState)
    requires info.Ok() && StateOk(info, st) && b <= |mcu| == |info.membership|
    ensures StateOk(info, st')
    decreases |mcu| - b
  {
    if b == |mcu| then st
    else AfterMcu(info, NextDcState(info, st, info.membership[b], mcu[b]), mcu, b + 1)
  }

  predicate McusOk(info: ScanInfo, mcus: seq<seq<CoefBlock>>) {
    forall i :: 0 <= i < |mcus| ==> |mcus[i]| == |info.membership|
  }

  /** A whole segment, from MCU i on. */
  function ScanPlan(info: ScanInfo, st: DcState, mcus: seq<seq<CoefBlock>>, i: nat): (p: Plan)
    requires info.Ok() && StateOk(info, st) && i <= |mcus| && McusOk(info, mcus)
    decreases |mcus| - i
  {
    if i == |mcus| then Done
    else McuPlan(info, st, mcus[i], 0, ScanPlan(info, AfterMcu(info, st, mcus[i], 0), mcus, i + 1))
  }

  // ----- what a decoder can recover -----

  predicate BlockCodable(info: ScanInfo, st: DcState, ci: nat, block: CoefBlock)
    requires info.Ok() && StateOk(info, st) && ci < |st.last|
  {
    info.Mode() == Sequential || info.Mode() == DcFirst ==> Abs(DcDiff(info, st, ci, block)) <= 0x8000
  }

  /** No DC difference of the MCU is larger than a decoder accepts. */
  predicate McuCodable(info: ScanInfo, st: DcState, mcu: seq<CoefBlock>, b: nat)
    requires info.Ok() && StateOk(info, st) && b <= |mcu| == |info.membership|
    decreases |mcu| - b
  {
    b == |mcu| ||
    (var ci := info.membership[b];
     BlockCodable(info, st, ci, mcu[b]) && McuCodable(info, NextDcState(info, st, ci, mcu[b]), mcu, b + 1))
  }

  predicate ScanCodable(info: ScanInfo, st: DcState, mcus: seq<seq<CoefBlock>>, i: nat)
    requires info.Ok() && StateOk(info, st) && i <= |mcus| && McusOk(info, mcus)
    decreases |mcus| - i
  {
    i == |mcus| ||
    (McuCodable(info, st, mcus[i], 0) && ScanCodable(info, AfterMcu(info, st, mcus[i], 0), mcus, i + 1))
  }

  /** The coefficient v at zigzag position k with the bit planes below al cleared: arithmetically
      for DC, in sign and magnitude for AC. */
  function Truncated(v: Coef, k: nat, al: nat): (r: Coef)
    requires al <= 14
    ensures al == 0 ==> r == v
  {
    if k == 0 then
      PowersUpTo15();
      TruncatedDcBound(v, al, 15);
      Shl(Shr(v, al), al)
    else
      TruncatedAcBound(v, al);
      Shl(Transform(v, al), al)
  }

  lemma {:induction false} TruncatedDcBound(v: int, k: nat, j: nat)
    requires -Shl(1, j) <= v && k <= j
    ensures -Shl(1, j) <= Shl(Shr(v, k), k) <= v
    decreases k
  {
    if k > 0 {
      assert Shr(v, 1) == v / 2;
      ShrShr(v, 1, k - 1);
      TruncatedDcBound(v / 2, k - 1, j - 1);
    }
  }

  lemma TruncatedAcBound(v: Coef, al: nat)
    ensures -0x8000 <= Shl(Transform(v, al), al) <= 0x7fff
    ensures Shl(Transform(v, al), al) == if v >= 0 then Shl(Shr(Abs(v), al), al) else -Shl(Shr(Abs(v), al), al)
  {
    var w := Shr(Abs(v), al);
    ShrShl(Abs(v), al);
    ShlAdd(w, -w, al);
    ShlSign(w, al);
    ShlSign(0, al);
  }

  /** A block holds the band ss to se of orig down to bit plane al. */
  ghost predicate HoldsBand(block: CoefBlock, orig: CoefBlock, order: seq<nat>, ss: nat, se: nat, al: nat)
    requires IsOrder(order, se) && al <= 14
  {
    forall k :: ss <= k <= se ==> block[order[k]] == Truncated(orig[order[k]], k, al)
  }

  ghost predicate BlankBand(block: CoefBlock, order: seq<nat>, ss: nat, se: nat)
    requires IsOrder(order, se)
  {
    forall k :: ss <= k <= se ==> block[order[k]] == 0
  }

  // Always true. Mentioning it expands the two predicates below; proofs about several blocks at
  // once do without.
  ghost predicate Expand(x: nat) {
    true
  }

  /** What a decoder's block must hold before a scan: nothing in the band, or the planes above. */
  ghost predicate Before(info: ScanInfo, block: CoefBlock, orig: CoefBlock)
    requires info.Ok()
  {
    forall x: nat :: Expand(x) ==>
      if info.ah == 0 then BlankBand(block, info.order, info.ss, info.se)
      else HoldsBand(block, orig, info.order, info.ss, info.se, info.ah)
  }

  /** What it holds after the scan. */
  ghost predicate Afterwards(info: ScanInfo, block: CoefBlock, orig: CoefBlock)
    requires info.Ok()
  {
    forall x: nat :: Expand(x) ==> HoldsBand(block, orig, info.order, info.ss, info.se, info.al)
  }
}
