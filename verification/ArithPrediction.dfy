/**
 A whole scan written out block by block, in the order of the file: each DC value is predicted from the
 block of its component before it, and conditioned by what that block's difference was.
 */
module ArithPrediction {
  import opened AriTable
  import opened Numbers
  import opened IntervalCoder
  import opened Coefficients
  import opened ArithModel
  import opened ArithScanModel
  import opened ArithDecisions

  /** A block and its component within the scan. */
  datatype Item = Item(ci: nat, block: CoefBlock)

  /** The blocks of MCU i and on, one MCU after the other. */
  function InOrder(info: ScanInfo, mcus: seq<seq<CoefBlock>>, i: nat): (bs: seq<Item>)
    requires McusOk(info, mcus) && i <= |mcus|
    decreases |mcus| - i
  {
    if i == |mcus| then []
    else
      seq(|mcus[i]|, b requires 0 <= b < |mcus[i]| => Item(info.membership[b], mcus[i][b]))
      + InOrder(info, mcus, i + 1)
  }

  predicate ItemsOk(info: ScanInfo, bs: seq<Item>) {
    info.Ok() && forall n :: 0 <= n < |bs| ==> bs[n].ci < |info.dcTbl|
  }

  /** The DC value of the last block of component ci among the first n, or 0. */
  function Predicted(info: ScanInfo, bs: seq<Item>, n: nat, ci: nat): (v: Coef)
    requires n <= |bs|
  {
    if n == 0 then 0
    else if bs[n - 1].ci == ci then DcValue(bs[n - 1].block, info.al)
    else Predicted(info, bs, n - 1, ci)
  }

  function Difference(info: ScanInfo, bs: seq<Item>, n: nat): (v: int)
    requires n < |bs|
    ensures Abs(v) < 0x1_0000
  {
    DcValue(bs[n].block, info.al) - Predicted(info, bs, n, bs[n].ci)
  }

  /** The conditioning category of the difference of that block, or 0. */
  function Conditioned(info: ScanInfo, bs: seq<Item>, n: nat, ci: nat): (s0: DcContext)
    requires n <= |bs| && ItemsOk(info, bs) && ci < |info.dcTbl|
  {
    if n == 0 then 0
    else if bs[n - 1].ci == ci then
      var tbl := info.dcTbl[ci];
      DcCategory(info.dcL[tbl], info.dcU[tbl], Difference(info, bs, n - 1))
    else Conditioned(info, bs, n - 1, ci)
  }

  function DcOf(info: ScanInfo, bs: seq<Item>, n: nat): (ds: seq<Decision>)
    requires n < |bs| && ItemsOk(info, bs)
  {
    DcList(info.dcTbl[bs[n].ci], Conditioned(info, bs, n, bs[n].ci), Difference(info, bs, n))
  }

  /** The decisions for block n, and then rest. */
  function BlockWritten(info: ScanInfo, bs: seq<Item>, n: nat, rest: Plan): (p: Plan)
    requires n < |bs| && ItemsOk(info, bs)
  {
    var tbl, block := info.acTbl[bs[n].ci], bs[n].block;
    var c, kx := Zig(block, info.order, info.se, info.al), info.acK[tbl];
    if !info.progressive then Listed(DcOf(info, bs, n), AcWritten(tbl, kx, c, 1, info.se, rest))
    else if info.ss == 0 then
      if info.ah == 0 then Listed(DcOf(info, bs, n), rest)
      else Listed([Decision(FIXED_BIN, Shr(block[0], info.al) % 2)], rest)
    else if info.ah == 0 then AcWritten(tbl, kx, c, info.ss, info.se, rest)
    else RefineWritten(tbl, c, info.ss, info.se, rest)
  }

  /** Those for the blocks n and on. */
  function ScanWritten(info: ScanInfo, bs: seq<Item>, n: nat): (p: Plan)
    requires n <= |bs| && ItemsOk(info, bs)
    decreases |bs| - n
  {
    if n == |bs| then Done else BlockWritten(info, bs, n, ScanWritten(info, bs, n + 1))
  }

  // ----- the state of the coders is what the blocks before say -----

  predicate SendsDc(info: ScanInfo) {
    !info.progressive || (info.ss == 0 && info.ah == 0)
  }

  // Always true. Mentioning it opens the two predicates below at block n.
  ghost predicate Open(x: nat, n: nat) {
    true
  }

  /** p is what is written for the blocks n and on. */
  ghost predicate Writes(info: ScanInfo, bs: seq<Item>, n: nat, p: Plan)
    requires n <= |bs| && ItemsOk(info, bs)
  {
    forall x: nat :: Open(x, n) ==> p == ScanWritten(info, bs, n)
  }

  ghost predicate Matches(info: ScanInfo, st: DcState, bs: seq<Item>, n: nat)
    requires n <= |bs| && ItemsOk(info, bs)
  {
    && StateOk(info, st)
    && forall x: nat :: Open(x, n) ==>
         SendsDc(info) ==>
           forall ci :: 0 <= ci < |info.dcTbl| ==>
             st.last[ci] == Predicted(info, bs, n, ci) && st.context[ci] == Conditioned(info, bs, n, ci)
  }

  lemma {:induction false} NextMatches(info: ScanInfo, st: DcState, bs: seq<Item>, n: nat)
    requires n < |bs| && ItemsOk(info, bs) && Matches(info, st, bs, n)
    ensures Matches(info, NextDcState(info, st, bs[n].ci, bs[n].block), bs, n + 1)
  {
    assert Open(0, n);
  }

  lemma {:induction false} BlockIsWritten(info: ScanInfo, st: DcState, bs: seq<Item>, n: nat, rest: Plan)
    requires n < |bs| && ItemsOk(info, bs) && Matches(info, st, bs, n)
    ensures BlockPlan(info, st, bs[n].ci, bs[n].block, rest) == BlockWritten(info, bs, n, rest)
  {
    var tbl, block := info.acTbl[bs[n].ci], bs[n].block;
    var c, kx := Zig(block, info.order, info.se, info.al), info.acK[tbl];
    assert Open(0, n);
    if !info.progressive {
      AcListed(tbl, kx, c, 1, info.se, rest);
      DcListed(info.dcTbl[bs[n].ci], st.context[bs[n].ci], Difference(info, bs, n),
               AcPlan(tbl, kx, c, 1, info.se, rest));
    } else if info.ss == 0 {
      if info.ah == 0 {
        DcListed(info.dcTbl[bs[n].ci], st.context[bs[n].ci], Difference(info, bs, n), rest);
      } else {
        ListedOne(Decision(FIXED_BIN, Shr(block[0], info.al) % 2), [], rest);
      }
    } else if info.ah == 0 {
      AcListed(tbl, kx, c, info.ss, info.se, rest);
    } else {
      RefineListed(tbl, c, info.ss, info.se, rest);
    }
  }

  /** The blocks of mcu from b on are the ones from n on. */
  ghost predicate Holds(info: ScanInfo, bs: seq<Item>, n: nat, mcu: seq<CoefBlock>, b: nat)
    requires b <= |mcu| == |info.membership|
  {
    && n + |mcu| - b <= |bs|
    && forall x: nat :: Open(x, n) ==> forall j :: b <= j < |mcu| ==> bs[n + j - b] == Item(info.membership[j], mcu[j])
  }

  lemma {:induction false} HoldsNext(info: ScanInfo, bs: seq<Item>, n: nat, mcu: seq<CoefBlock>, b: nat)
    requires b < |mcu| == |info.membership| && Holds(info, bs, n, mcu, b)
    ensures bs[n] == Item(info.membership[b], mcu[b]) && Holds(info, bs, n + 1, mcu, b + 1)
  {
    assert Open(0, n) && bs[n + b - b] == Item(info.membership[b], mcu[b]);
  }

  lemma {:induction false} NextBlock(info: ScanInfo, st: DcState, bs: seq<Item>, n: nat, mcu: seq<CoefBlock>, b: nat)
    returns (next: DcState)
    requires n <= |bs| && ItemsOk(info, bs) && Matches(info, st, bs, n)
    requires b < |mcu| == |info.membership| && Holds(info, bs, n, mcu, b)
    ensures n < |bs| && bs[n] == Item(info.membership[b], mcu[b]) && Holds(info, bs, n + 1, mcu, b + 1)
    ensures next == NextDcState(info, st, bs[n].ci, bs[n].block) && Matches(info, next, bs, n + 1)
  {
    HoldsNext(info, bs, n, mcu, b);
    next := NextDcState(info, st, bs[n].ci, bs[n].block);
    NextMatches(info, st, bs, n);
  }

  lemma {:induction false} McuMatches(info: ScanInfo, st: DcState, bs: seq<Item>, n: nat, mcu: seq<CoefBlock>, b: nat)
    requires n <= |bs| && ItemsOk(info, bs) && Matches(info, st, bs, n)
    requires b <= |mcu| == |info.membership| && Holds(info, bs, n, mcu, b)
    ensures Matches(info, AfterMcu(info, st, mcu, b), bs, n + |mcu| - b)
    decreases |mcu| - b
  {
    if b < |mcu| {
      var next := NextBlock(info, st, bs, n, mcu, b);
      McuMatches(info, next, bs, n + 1, mcu, b + 1);
    }
  }

  lemma {:induction false} McuIsWritten(info: ScanInfo, st: DcState, bs: seq<Item>, n: nat, mcu: seq<CoefBlock>, b: nat,
                                        rest: Plan)
    requires n <= |bs| && ItemsOk(info, bs) && Matches(info, st, bs, n)
    requires b <= |mcu| == |info.membership| && Holds(info, bs, n, mcu, b)
    requires Writes(info, bs, n + |mcu| - b, rest)
    ensures Writes(info, bs, n, McuPlan(info, st, mcu, b, rest))
    decreases |mcu| - b
  {
    if b < |mcu| {
      var next := NextBlock(info, st, bs, n, mcu, b);
      McuIsWritten(info, next, bs, n + 1, mcu, b + 1, rest);
      McuStep(info, st, next, bs, n, mcu, b, rest, McuPlan(info, next, mcu, b + 1, rest));
    }
  }

  lemma {:induction false} McuStep(info: ScanInfo, st: DcState, next: DcState, bs: seq<Item>, n: nat,
                                   mcu: seq<CoefBlock>, b: nat, rest: Plan, p: Plan)
    requires n < |bs| && ItemsOk(info, bs) && Matches(info, st, bs, n) && b < |mcu| == |info.membership|
    requires bs[n] == Item(info.membership[b], mcu[b]) && Writes(info, bs, n + 1, p)
    requires next == NextDcState(info, st, bs[n].ci, bs[n].block) && p == McuPlan(info, next, mcu, b + 1, rest)
    ensures Writes(info, bs, n, McuPlan(info, st, mcu, b, rest))
  {
    assert Open(0, n + 1);
    BlockIsWritten(info, st, bs, n, p);
  }

  lemma {:induction false} InOrderOk(info: ScanInfo, mcus: seq<seq<CoefBlock>>, i: nat)
    requires info.Ok() && McusOk(info, mcus) && i <= |mcus|
    ensures ItemsOk(info, InOrder(info, mcus, i))
    decreases |mcus| - i
  {
    if i < |mcus| {
      InOrderOk(info, mcus, i + 1);
    }
  }

  lemma {:induction false} FirstHolds(info: ScanInfo, bs: seq<Item>, n: nat, mcus: seq<seq<CoefBlock>>, i: nat)
    requires n <= |bs| && McusOk(info, mcus) && i < |mcus| && bs[n..] == InOrder(info, mcus, i)
    ensures Holds(info, bs, n, mcus[i], 0) && bs[n + |mcus[i]|..] == InOrder(info, mcus, i + 1)
  {
    var m, first := |mcus[i]|, bs[n..];
    forall j | 0 <= j < m ensures bs[n + j] == Item(info.membership[j], mcus[i][j]) {
      assert first[j] == bs[n + j];
    }
    assert first[m..] == InOrder(info, mcus, i + 1);
    assert bs[n + m..] == first[m..];
  }

  lemma {:induction false} RestIsWritten(info: ScanInfo, st: DcState, bs: seq<Item>, n: nat, mcus: seq<seq<CoefBlock>>,
                                         i: nat)
    requires n <= |bs| && ItemsOk(info, bs) && Matches(info, st, bs, n)
    requires McusOk(info, mcus) && i <= |mcus| && bs[n..] == InOrder(info, mcus, i)
    ensures Writes(info, bs, n, ScanPlan(info, st, mcus, i))
    decreases |mcus| - i
  {
    if i < |mcus| {
      FirstHolds(info, bs, n, mcus, i);
      McuMatches(info, st, bs, n, mcus[i], 0);
      var next := AfterMcu(info, st, mcus[i], 0);
      RestIsWritten(info, next, bs, n + |mcus[i]|, mcus, i + 1);
      ScanStep(info, st, bs, n, mcus, i, ScanPlan(info, next, mcus, i + 1));
    } else {
      NoneIsWritten(info, st, bs, mcus);
    }
  }

  lemma {:induction false} NoneIsWritten(info: ScanInfo, st: DcState, bs: seq<Item>, mcus: seq<seq<CoefBlock>>)
    requires ItemsOk(info, bs) && StateOk(info, st) && McusOk(info, mcus)
    ensures Writes(info, bs, |bs|, ScanPlan(info, st, mcus, |mcus|))
  {
  }

  lemma {:induction false} ScanStep(info: ScanInfo, st: DcState, bs: seq<Item>, n: nat, mcus: seq<seq<CoefBlock>>,
                                    i: nat,
                                    rest: Plan)
    requires n <= |bs| && ItemsOk(info, bs) && Matches(info, st, bs, n) && McusOk(info, mcus) && i < |mcus|
    requires Holds(info, bs, n, mcus[i], 0) && Writes(info, bs, n + |mcus[i]|, rest)
    requires rest == ScanPlan(info, AfterMcu(info, st, mcus[i], 0), mcus, i + 1)
    ensures Writes(info, bs, n, ScanPlan(info, st, mcus, i))
  {
    McuIsWritten(info, st, bs, n, mcus[i], 0, rest);
  }

  /** The decisions of a scan are those of its blocks in order, every DC value as the difference from the
      block of its component before it. */
  lemma ScanIsWritten(info: ScanInfo, mcus: seq<seq<CoefBlock>>)
    requires info.Ok() && McusOk(info, mcus)
    ensures var bs := InOrder(info, mcus, 0);
            ItemsOk(info, bs) && ScanPlan(info, InitDcState(|info.dcTbl|), mcus, 0) == ScanWritten(info, bs, 0)
  {
    InOrderOk(info, mcus, 0);
    RestIsWritten(info, InitDcState(|info.dcTbl|), InOrder(info, mcus, 0), 0, mcus, 0);
    assert Open(0, 0);
  }
}
