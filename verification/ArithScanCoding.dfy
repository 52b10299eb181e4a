/** The encoder's and the decoder's MCU routines over a scan. */
module ArithScanCoding {
  import opened Numbers
  import opened IntervalCoder
  import opened Coefficients
  import opened ArithModel
  import opened ArithScanModel
  import opened ArithEncoding
  import opened ArithDecoding
  import opened ArithBlockEncoding
  import opened ArithBlockDecoding

  class McuEncoder {
    const info: ScanInfo
    const e: ArithEncoder
    var lastDcVal: seq<Coef>         // last DC value of each component
    var dcContext: seq<DcContext>    // conditioning category it left

    ghost function State(): (st: DcState)
      reads this
    {
      DcState(lastDcVal, dcContext)
    }

    ghost predicate Valid()
      reads this, e
    {
      info.Ok() && e.Valid() && StateOk(info, State())
    }

    constructor (info: ScanInfo)
      requires info.Ok()
      ensures Valid() && fresh(e) && this.info == info && e.log == Start && State() == InitDcState(|info.dcTbl|)
    {
      this.info := info;
      e := new ArithEncoder();
      lastDcVal, dcContext := seq(|info.dcTbl|, i => 0), seq(|info.dcTbl|, i => 0);
    }

    /** Code the DC coefficient of a block of component ci. */
    method EncodeDc(ci: nat, block: CoefBlock, ghost rest: Plan)
      requires Valid() && ci < |info.dcTbl| && (info.Mode() == Sequential || info.Mode() == DcFirst)
      modifies this, e
      ensures Valid() && State() == NextDcState(info, old(State()), ci, block)
      ensures Extend(e.log, rest)
           == old(Extend(e.log, DcPlan(info.dcTbl[ci], dcContext[ci], DcDiff(info, State(), ci, block), rest)))
    {
      var tbl, m := info.dcTbl[ci], DcValue(block, info.al);
      var context := EncodeDcDiff(e, tbl, dcContext[ci], info.dcL[tbl], info.dcU[tbl], m as int - lastDcVal[ci] as int,
                                  rest);
      lastDcVal := lastDcVal[ci := m];
      dcContext := dcContext[ci := context];
    }

    /** Code one block of component ci. */
    method EncodeBlock(ci: nat, block: CoefBlock, ghost rest: Plan)
      requires Valid() && ci < |info.dcTbl|
      modifies this, e
      ensures Valid() && State() == NextDcState(info, old(State()), ci, block)
      ensures Extend(e.log, rest) == old(Extend(e.log, BlockPlan(info, State(), ci, block, rest)))
    {
      var tbl := info.acTbl[ci];
      match info.Mode() {
        case Sequential =>
          EncodeDc(ci, block, AcPlan(tbl, info.acK[tbl], Zig(block, info.order, info.se, 0), 1, info.se, rest));
          EncodeAcBand(e, tbl, info.acK[tbl], block, info.order, 1, info.se, 0, rest);
        case DcFirst => EncodeDc(ci, block, rest);
        case AcFirst => EncodeAcBand(e, tbl, info.acK[tbl], block, info.order, info.ss, info.se, info.al, rest);
        case DcRefine => e.ArithEncode(FIXED_BIN, Shr(block[0], info.al) % 2);
        case AcRefine => EncodeRefineBand(e, tbl, block, info.order, info.ss, info.se, info.ah, info.al, rest);
      }
    }

    /** Code one MCU. */
    method EncodeMcu(mcu: seq<CoefBlock>, ghost rest: Plan)
      requires Valid() && |mcu| == |info.membership|
      modifies this, e
      ensures Valid() && State() == AfterMcu(info, old(State()), mcu, 0)
      ensures Extend(e.log, rest) == old(Extend(e.log, McuPlan(info, State(), mcu, 0, rest)))
    {
      var b := 0;
      while b < |mcu|
        invariant Valid() && b <= |mcu| && AfterMcu(info, State(), mcu, b) == AfterMcu(info, old(State()), mcu, 0)
        invariant Extend(e.log, McuPlan(info, State(), mcu, b, rest))
               == old(Extend(e.log, McuPlan(info, State(), mcu, 0, rest)))
      {
        ghost var st := NextDcState(info, State(), info.membership[b], mcu[b]);
        EncodeBlock(info.membership[b], mcu[b], McuPlan(info, st, mcu, b + 1, rest));
        b := b + 1;
      }
    }
  }

  // ----- decoding -----

  lemma BlankIsDecoded(info: ScanInfo, block: CoefBlock, orig: CoefBlock, ss: nat)
    requires info.Ok() && BlankBand(block, info.order, ss, info.se)
    ensures DecodedTo(block, info.order, Zig(orig, info.order, info.se, info.al), ss, ss, info.se, info.al)
  {
  }

  lemma DecodedIsHeld(info: ScanInfo, block: CoefBlock, orig: CoefBlock, ss: nat)
    requires info.Ok() && 1 <= ss
    requires DecodedTo(block, info.order, Zig(orig, info.order, info.se, info.al), ss, info.se + 1, info.se, info.al)
    ensures HoldsBand(block, orig, info.order, ss, info.se, info.al)
  {
    forall k | ss <= k <= info.se ensures block[info.order[k]] == Truncated(orig[info.order[k]], k, info.al) {
      TruncatedAcBound(orig[info.order[k]], info.al);
    }
  }

  lemma HeldIsRefined(info: ScanInfo, block: CoefBlock, orig: CoefBlock)
    requires info.Ok() && info.Mode() == AcRefine && HoldsBand(block, orig, info.order, info.ss, info.se, info.ah)
    ensures RefinedTo(block, info.order, Zig(orig, info.order, info.se, info.al), info.ss, info.ss, info.se, info.al)
  {
  }

  lemma RefinedIsHeld(info: ScanInfo, block: CoefBlock, orig: CoefBlock)
    requires info.Ok() && info.Mode() == AcRefine
    requires RefinedTo(block, info.order, Zig(orig, info.order, info.se, info.al), info.ss, info.se + 1, info.se,
                       info.al)
    ensures HoldsBand(block, orig, info.order, info.ss, info.se, info.al)
  {
    forall k | info.ss <= k <= info.se ensures block[info.order[k]] == Truncated(orig[info.order[k]], k, info.al) {
      TruncatedAcBound(orig[info.order[k]], info.al);
    }
  }

  /** x | 1 << k. */
  function SetBit(x: int, k: nat): (r: int) {
    if Shr(x, k) % 2 == 0 then x + Shl(1, k) else x
  }

  /** The bit sent in a DC refinement scan completes the value to the next plane. */
  lemma DcRefined(v: int, al: nat)
    ensures var held := Shl(Shr(v, al + 1), al + 1);
            (if Shr(v, al) % 2 == 1 then SetBit(held, al) else held) == Shl(Shr(v, al), al)
  {
    var h := Shr(v, al + 1);
    ShlShl(h, 1, al);
    assert Shl(h, 1) == 2 * h;
    ShrOfShl(2 * h, al);
    assert Shr(v, al) == 2 * h + Shr(v, al) % 2;
    ShlAdd(2 * h, Shr(v, al) % 2, al);
    ShlSign(0, al);
  }

  /** How a scan that sends orig changes a block: only in its band, and there to orig as far as it
      is sent, if the block was ready for the scan. */
  ghost predicate Updated(info: ScanInfo, block: CoefBlock, before: CoefBlock, orig: CoefBlock)
    requires info.Ok()
  {
    forall x: nat :: Expand(x) ==>
      && SameOutside(block, before, info.order, info.ss, info.se)
      && (Before(info, before, orig) ==> Afterwards(info, block, orig))
  }

  /** The block is ready for the scan; a DC refinement scan can be decoded whatever it holds. */
  ghost predicate Decodable(info: ScanInfo, block: CoefBlock, orig: CoefBlock)
    requires info.Ok()
  {
    forall x: nat :: Expand(x) ==> info.Mode() == DcRefine || Before(info, block, orig)
  }

  /** Separate blocks of 64 coefficients. */
  ghost predicate Blocks(blocks: seq<array<Coef>>) {
    && (forall x :: 0 <= x < |blocks| ==> blocks[x].Length == 64)
    && (forall x, y :: 0 <= x < y < |blocks| ==> blocks[x] != blocks[y])
  }

  ghost function Contents(blocks: seq<array<Coef>>): (values: seq<CoefBlock>)
    requires Blocks(blocks)
    reads blocks
    ensures |values| == |blocks| && forall x :: 0 <= x < |blocks| ==> values[x] == blocks[x][..]
  {
    seq(|blocks|, x requires 0 <= x < |blocks| && blocks[x].Length == 64 reads blocks => blocks[x][..])
  }

  /** A change from was to block b alone. */
  lemma ContentsChanged(blocks: seq<array<Coef>>, was: seq<CoefBlock>, b: nat)
    requires Blocks(blocks) && |was| == |blocks| && b < |blocks|
    requires forall x :: 0 <= x < |blocks| && x != b ==> blocks[x][..] == was[x]
    ensures Contents(blocks) == was[b := blocks[b][..]]
  {
    var now := Contents(blocks);
    forall x | 0 <= x < |blocks| ensures now[x] == was[b := blocks[b][..]][x] {
    }
  }

  /** The first n blocks have been received, the others are as they were. */
  ghost predicate McuReceived(info: ScanInfo, now: seq<CoefBlock>, was: seq<CoefBlock>, origs: seq<CoefBlock>, n: nat)
    requires info.Ok() && n <= |now| == |was| == |origs|
  {
    forall x: nat :: Expand(x) ==>
      forall b :: 0 <= b < |now| ==> if b < n then Updated(info, now[b], was[b], origs[b]) else now[b] == was[b]
  }

  lemma McuReceivedNext(info: ScanInfo, now: seq<CoefBlock>, was: seq<CoefBlock>, origs: seq<CoefBlock>, b: nat,
                        block: CoefBlock)
    requires info.Ok() && b < |now| == |was| == |origs| && McuReceived(info, now, was, origs, b)
    ensures now[b] == was[b]
    ensures Updated(info, block, was[b], origs[b]) ==> McuReceived(info, now[b := block], was, origs, b + 1)
  {
    assert Expand(0);
  }

  /** What the blocks hold cannot mislead the decoder. */
  ghost predicate AllBefore(info: ScanInfo, was: seq<CoefBlock>, origs: seq<CoefBlock>)
    requires info.Ok() && |was| == |origs|
  {
    forall x: nat :: Expand(x) ==> forall b :: 0 <= b < |was| ==> Decodable(info, was[b], origs[b])
  }

  lemma AllBeforeAt(info: ScanInfo, was: seq<CoefBlock>, origs: seq<CoefBlock>, b: nat)
    requires info.Ok() && |was| == |origs| && AllBefore(info, was, origs)
    ensures McuReceived(info, was, was, origs, 0)
    ensures b < |was| ==> Decodable(info, was[b], origs[b])
  {
    assert Expand(0);
  }

  // ----- the bins that a decoder touches -----

  /** A bin of the areas of component ci that its blocks may use, or the fixed one. */
  predicate BlockBin(info: ScanInfo, ci: nat, ctx: Context)
    requires info.Ok() && ci < |info.dcTbl|
  {
    || ctx == FIXED_BIN
    || DcBin(info.dcTbl[ci], 0) <= ctx < DcBin(info.dcTbl[ci], 0) + 49
    || AcBin(info.acTbl[ci], 0) <= ctx < AcBin(info.acTbl[ci], 0) + 245
  }

  /** Since base, h has only bins of component ci. */
  predicate InBlockBins(h: History, base: History, info: ScanInfo, ci: nat)
    requires info.Ok() && ci < |info.dcTbl|
    decreases h
  {
    h == base || (h.Then? && BlockBin(info, ci, h.d.ctx) && InBlockBins(h.past, base, info, ci))
  }

  predicate OnlyScanBins(h: History, base: History, info: ScanInfo)
    requires info.Ok()
    decreases h
  {
    h == base ||
    (&& h.Then?
     && (exists ci :: 0 <= ci < |info.dcTbl| && BlockBin(info, ci, h.d.ctx))
     && OnlyScanBins(h.past, base, info))
  }

  /** Since base, h has only bins of components of the scan. */
  ghost predicate InScanBins(h: History, base: History, info: ScanInfo)
    requires info.Ok()
  {
    forall x: nat :: Expand(x) ==> OnlyScanBins(h, base, info)
  }

  lemma {:induction false} ConfinedToBlock(h: History, base: History, info: ScanInfo, ci: nat, area: nat, n: nat)
    requires info.Ok() && ci < |info.dcTbl| && Confined(h, base, area, n)
    requires (area == DcBin(info.dcTbl[ci], 0) && n == 49) || (area == AcBin(info.acTbl[ci], 0) && n == 245)
    ensures InBlockBins(h, base, info, ci)
    decreases h
  {
    if h != base {
      ConfinedToBlock(h.past, base, info, ci, area, n);
    }
  }

  lemma {:induction false} InBlockBinsTrans(h2: History, h1: History, h0: History, info: ScanInfo, ci: nat)
    requires info.Ok() && ci < |info.dcTbl| && InBlockBins(h2, h1, info, ci) && InBlockBins(h1, h0, info, ci)
    ensures InBlockBins(h2, h0, info, ci)
    decreases h2
  {
    if h2 != h1 {
      InBlockBinsTrans(h2.past, h1, h0, info, ci);
    }
  }

  lemma {:induction false} BlockOnlyScan(h2: History, h1: History, h0: History, info: ScanInfo, ci: nat)
    requires info.Ok() && ci < |info.dcTbl| && InBlockBins(h2, h1, info, ci) && OnlyScanBins(h1, h0, info)
    ensures OnlyScanBins(h2, h0, info)
    decreases h2
  {
    if h2 != h1 {
      BlockOnlyScan(h2.past, h1, h0, info, ci);
    }
  }

  lemma BlockInScan(h2: History, h1: History, h0: History, info: ScanInfo, ci: nat)
    requires info.Ok() && ci < |info.dcTbl| && InBlockBins(h2, h1, info, ci) && InScanBins(h1, h0, info)
    ensures InScanBins(h2, h0, info)
  {
    assert Expand(0);
    BlockOnlyScan(h2, h1, h0, info, ci);
  }

  class McuDecoder {
    const info: ScanInfo
    const d: ArithDecoder
    var lastDcVal: seq<int>          // last DC value of each component
    var dcContext: seq<DcContext>    // conditioning category it left

    /** The decoder's DC state is that of the encoder. */
    ghost predicate Matches(st: DcState)
      reads this
    {
      StateOk(info, st) && |lastDcVal| == |st.last| && dcContext == st.context &&
      forall i :: 0 <= i < |lastDcVal| ==> lastDcVal[i] == st.last[i]
    }

    /** The data continues with the plan p, and the DC state is the encoder's. */
    ghost predicate OnTrack(st: DcState, p: Plan)
      reads this, d
    {
      forall x: nat :: Expand(x) ==> d.ct != -1 && Matches(st) && Extend(d.log, p) == d.expected
    }

    lemma OnTrackIsAlive(st: DcState, p: Plan)
      requires OnTrack(st, p)
      ensures d.ct != -1
    {
      assert Expand(0);
    }

    ghost predicate Valid()
      reads this, d
    {
      info.Ok() && d.Valid() && |lastDcVal| == |dcContext| == |info.dcTbl|
    }

    constructor (info: ScanInfo, src: seq<Byte>, ghost expected: History)
      requires info.Ok() && Yields(src, expected)
      ensures Valid() && fresh(d) && this.info == info && d.src == src && d.expected == expected
      ensures d.log == Start && d.ct != -1 && Matches(InitDcState(|info.dcTbl|))
    {
      this.info := info;
      d := new ArithDecoder(src, expected);
      lastDcVal, dcContext := seq(|info.dcTbl|, i => 0), seq(|info.dcTbl|, i => 0);
    }

    /** Decode the DC coefficient of a block of component ci. */
    method DecodeDc(ci: nat, block: array<Coef>, ghost orig: CoefBlock, ghost st: DcState, ghost rest: Plan)
      returns (ok: bool)
      requires Valid() && d.ct != -1 && ci < |info.dcTbl| && block.Length == 64 && StateOk(info, st)
      requires info.Mode() == Sequential || info.Mode() == DcFirst
      modifies this, d, block
      ensures InBlockBins(d.log, old(d.log), info, ci)
      ensures Valid() && ok == (d.ct != -1) && forall i :: 1 <= i < 64 ==> block[i] == old(block[i])
      ensures old(&& Matches(st)
                  && Extend(d.log, DcPlan(info.dcTbl[ci], st.context[ci], DcDiff(info, st, ci, orig), rest))
                  == d.expected) ==>
                if BlockCodable(info, st, ci, orig) then
                  && ok
                  && Matches(NextDcState(info, st, ci, orig))
                  && block[0] == Truncated(orig[0], 0, info.al)
                  && Extend(d.log, rest) == d.expected
                else !ok
    {
      var tbl, v, context := info.dcTbl[ci], 0, 0;
      ok, v, context := DecodeDcDiff(d, tbl, dcContext[ci], info.dcL[tbl], info.dcU[tbl], DcDiff(info, st, ci, orig),
                                     rest);
      ConfinedToBlock(d.log, old(d.log), info, ci, DcBin(tbl, 0), 49);
      if ok {
        dcContext := dcContext[ci := context];
        lastDcVal := lastDcVal[ci := lastDcVal[ci] + v];
        block[0] := ToCoef(Shl(lastDcVal[ci], info.al));
      }
    }

    /** The DC coefficient and then the AC band of a block. */
    method DecodeSequential(ci: nat, block: array<Coef>, ghost orig: CoefBlock, ghost st: DcState, ghost rest: Plan)
      returns (ok: bool)
      requires Valid() && d.ct != -1 && ci < |info.dcTbl| && block.Length == 64 && StateOk(info, st)
      requires info.Mode() == Sequential
      modifies this, d, block
      ensures InBlockBins(d.log, old(d.log), info, ci)
      ensures Valid() && ok == (d.ct != -1) && SameOutside(block[..], old(block[..]), info.order, 0, info.se)
      ensures old(&& Matches(st)
                  && Extend(d.log, BlockPlan(info, st, ci, orig, rest)) == d.expected
                  && BlankBand(block[..], info.order, 0, info.se)) ==>
                if BlockCodable(info, st, ci, orig) then
                  && ok
                  && Matches(NextDcState(info, st, ci, orig))
                  && Afterwards(info, block[..], orig)
                  && Extend(d.log, rest) == d.expected
                else !ok
    {
      assert Expand(0);
      var tbl := info.acTbl[ci];
      ghost var c := Zig(orig, info.order, info.se, 0);
      ghost var blank := BlankBand(block[..], info.order, 0, info.se);
      ok := DecodeDc(ci, block, orig, st, AcPlan(tbl, info.acK[tbl], c, 1, info.se, rest));
      if ok {
        if blank {
          BlankIsDecoded(info, block[..], orig, 1);
        }
        ghost var h := d.log;
        ok := DecodeAcBand(d, tbl, info.acK[tbl], block, info.order, 1, info.se, 0, c, rest);
        ConfinedToBlock(d.log, h, info, ci, AcBin(tbl, 0), 245);
        InBlockBinsTrans(d.log, h, old(d.log), info, ci);
        if DecodedTo(block[..], info.order, c, 1, info.se + 1, info.se, 0) {
          DecodedIsHeld(info, block[..], orig, 1);
        }
      }
    }

    /** The first scan of an AC band of a block. */
    method DecodeAcFirst(ci: nat, block: array<Coef>, ghost orig: CoefBlock, ghost st: DcState, ghost rest: Plan)
      returns (ok: bool)
      requires Valid() && d.ct != -1 && ci < |info.dcTbl| && block.Length == 64 && StateOk(info, st)
      requires info.Mode() == AcFirst
      modifies d, block
      ensures InBlockBins(d.log, old(d.log), info, ci)
      ensures Valid() && ok == (d.ct != -1) && SameOutside(block[..], old(block[..]), info.order, info.ss, info.se)
      ensures old(Extend(d.log, BlockPlan(info, st, ci, orig, rest)) == d.expected && Before(info, block[..], orig)) ==>
                ok && Afterwards(info, block[..], orig) && Extend(d.log, rest) == d.expected
    {
      assert Expand(0);
      var tbl := info.acTbl[ci];
      ghost var c := Zig(orig, info.order, info.se, info.al);
      if Before(info, block[..], orig) {
        BlankIsDecoded(info, block[..], orig, info.ss);
      }
      ok := DecodeAcBand(d, tbl, info.acK[tbl], block, info.order, info.ss, info.se, info.al, c, rest);
      ConfinedToBlock(d.log, old(d.log), info, ci, AcBin(tbl, 0), 245);
      if DecodedTo(block[..], info.order, c, info.ss, info.se + 1, info.se, info.al) {
        DecodedIsHeld(info, block[..], orig, info.ss);
      }
    }

    /** One more bit plane of the DC coefficient of a block. */
    method DecodeDcRefine(ci: nat, block: array<Coef>, ghost orig: CoefBlock, ghost st: DcState, ghost rest: Plan)
      returns (ok: bool)
      requires Valid() && d.ct != -1 && ci < |info.dcTbl| && block.Length == 64 && StateOk(info, st)
      requires info.Mode() == DcRefine
      modifies d, block
      ensures InBlockBins(d.log, old(d.log), info, ci)
      ensures Valid() && ok == (d.ct != -1) && SameOutside(block[..], old(block[..]), info.order, info.ss, info.se)
      ensures old(Extend(d.log, BlockPlan(info, st, ci, orig, rest)) == d.expected) ==>
                && ok
                && Extend(d.log, rest) == d.expected
                && (old(Before(info, block[..], orig)) ==> Afterwards(info, block[..], orig))
    {
      assert Expand(0);
      ok := true;
      DcRefined(orig[0], info.al);
      var bit := d.ArithDecode(FIXED_BIN, DcValue(orig, info.al) % 2, rest);
      if bit != 0 {
        block[0] := ToCoef(SetBit(block[0], info.al));
      }
    }

    /** One more bit plane of an AC band of a block. */
    method DecodeAcRefine(ci: nat, block: array<Coef>, ghost orig: CoefBlock, ghost st: DcState, ghost rest: Plan)
      returns (ok: bool)
      requires Valid() && d.ct != -1 && ci < |info.dcTbl| && block.Length == 64 && StateOk(info, st)
      requires info.Mode() == AcRefine
      modifies d, block
      ensures InBlockBins(d.log, old(d.log), info, ci)
      ensures Valid() && ok == (d.ct != -1) && SameOutside(block[..], old(block[..]), info.order, info.ss, info.se)
      ensures old(Extend(d.log, BlockPlan(info, st, ci, orig, rest)) == d.expected && Before(info, block[..], orig)) ==>
                ok && Afterwards(info, block[..], orig) && Extend(d.log, rest) == d.expected
    {
      assert Expand(0);
      ghost var c := Zig(orig, info.order, info.se, info.al);
      if Before(info, block[..], orig) {
        HeldIsRefined(info, block[..], orig);
      }
      ok := DecodeRefineBand(d, info.acTbl[ci], block, info.order, info.ss, info.se, info.al, c, rest);
      ConfinedToBlock(d.log, old(d.log), info, ci, AcBin(info.acTbl[ci], 0), 245);
      if RefinedTo(block[..], info.order, c, info.ss, info.se + 1, info.se, info.al) {
        RefinedIsHeld(info, block[..], orig);
      }
    }

    /** Decode one block of component ci in place. If the data holds the decisions for the block
        orig, what comes out is orig as far as the scan sends it; an error is met exactly when a
        DC difference is too large. */
    method DecodeBlock(ci: nat, block: array<Coef>, ghost orig: CoefBlock, ghost st: DcState, ghost rest: Plan)
      returns (ok: bool)
      requires Valid() && d.ct != -1 && ci < |info.dcTbl| && block.Length == 64 && StateOk(info, st)
      modifies this, d, block
      ensures InBlockBins(d.log, old(d.log), info, ci)
      ensures Valid() && ok == (d.ct != -1) && SameOutside(block[..], old(block[..]), info.order, info.ss, info.se)
      ensures old(OnTrack(st, BlockPlan(info, st, ci, orig, rest)) && Decodable(info, block[..], orig)) ==>
                if BlockCodable(info, st, ci, orig) then
                  ok && OnTrack(NextDcState(info, st, ci, orig), rest) && Updated(info, block[..], old(block[..]), orig)
                else !ok
    {
      assert Expand(0);
      match info.Mode() {
        case Sequential => ok := DecodeSequential(ci, block, orig, st, rest);
        case DcFirst => ok := DecodeDc(ci, block, orig, st, rest);
        case AcFirst => ok := DecodeAcFirst(ci, block, orig, st, rest);
        case DcRefine => ok := DecodeDcRefine(ci, block, orig, st, rest);
        case AcRefine => ok := DecodeAcRefine(ci, block, orig, st, rest);
      }
    }

    /** Decode block b of an MCU, whose blocks before the scan held was. */
    method DecodeMcuBlock(mcu: seq<array<Coef>>, b: nat, ghost was: seq<CoefBlock>, ghost origs: seq<CoefBlock>,
                          ghost st: DcState, ghost rest: Plan, ghost base: History)
      returns (ok: bool)
      requires Valid() && d.ct != -1 && b < |mcu| == |was| == |origs| == |info.membership| && StateOk(info, st)
      requires Blocks(mcu) && InScanBins(d.log, base, info)
      modifies this, d, mcu[b]
      ensures InScanBins(d.log, base, info)
      ensures Valid() && ok == (d.ct != -1)
      ensures var ci := info.membership[b];
              && old(&& OnTrack(st, BlockPlan(info, st, ci, origs[b], rest))
                     && McuReceived(info, Contents(mcu), was, origs, b))
              && AllBefore(info, was, origs) ==>
                if BlockCodable(info, st, ci, origs[b]) then
                  && ok
                  && OnTrack(NextDcState(info, st, ci, origs[b]), rest)
                  && McuReceived(info, Contents(mcu), was, origs, b + 1)
                else !ok
    {
      ghost var now := Contents(mcu);
      if McuReceived(info, now, was, origs, b) && AllBefore(info, was, origs) {
        AllBeforeAt(info, was, origs, b);
        McuReceivedNext(info, now, was, origs, b, now[b]);
      }
      ghost var h := d.log;
      ok := DecodeBlock(info.membership[b], mcu[b], origs[b], st, rest);
      BlockInScan(d.log, h, base, info, info.membership[b]);
      ContentsChanged(mcu, now, b);
      if McuReceived(info, now, was, origs, b) {
        McuReceivedNext(info, now, was, origs, b, mcu[b][..]);
      }
    }

    /** The first b blocks have been decoded, and st1 is the encoder's DC state after them. */
    ghost predicate Midway(mcu: seq<array<Coef>>, b: nat, was: seq<CoefBlock>, origs: seq<CoefBlock>, st: DcState,
                           st1: DcState, rest: Plan)
      requires info.Ok() && b <= |mcu| == |was| == |origs| == |info.membership| && Blocks(mcu)
      requires StateOk(info, st) && StateOk(info, st1)
      reads this, d, mcu
    {
      forall x: nat :: Expand(x) ==>
        && AfterMcu(info, st1, origs, b) == AfterMcu(info, st, origs, 0)
        && McuCodable(info, st1, origs, b) == McuCodable(info, st, origs, 0)
        && OnTrack(st1, McuPlan(info, st1, origs, b, rest))
        && McuReceived(info, Contents(mcu), was, origs, b)
        && AllBefore(info, was, origs)
    }

    lemma MidwayStart(mcu: seq<array<Coef>>, origs: seq<CoefBlock>, st: DcState, rest: Plan)
      requires info.Ok() && |mcu| == |origs| == |info.membership| && Blocks(mcu) && StateOk(info, st)
      requires OnTrack(st, McuPlan(info, st, origs, 0, rest)) && AllBefore(info, Contents(mcu), origs)
      ensures Midway(mcu, 0, Contents(mcu), origs, st, st, rest)
    {
      AllBeforeAt(info, Contents(mcu), origs, 0);
    }

    lemma MidwayEnd(mcu: seq<array<Coef>>, was: seq<CoefBlock>, origs: seq<CoefBlock>, st: DcState, st1: DcState,
                    rest: Plan)
      requires info.Ok() && |mcu| == |was| == |origs| == |info.membership| && Blocks(mcu)
      requires StateOk(info, st) && StateOk(info, st1) && Midway(mcu, |mcu|, was, origs, st, st1, rest)
      ensures McuCodable(info, st, origs, 0) && OnTrack(AfterMcu(info, st, origs, 0), rest)
      ensures McuReceived(info, Contents(mcu), was, origs, |mcu|)
    {
      assert Expand(0);
    }

    /** Decode block b of an MCU, after which the encoder's DC state is st2. */
    method DecodeMcuStep(mcu: seq<array<Coef>>, b: nat, ghost was: seq<CoefBlock>, ghost origs: seq<CoefBlock>,
                         ghost st: DcState, ghost st1: DcState, ghost rest: Plan, ghost base: History)
      returns (ok: bool, ghost st2: DcState)
      requires Valid() && d.ct != -1 && b < |mcu| == |was| == |origs| == |info.membership|
      requires StateOk(info, st) && StateOk(info, st1) && Blocks(mcu) && InScanBins(d.log, base, info)
      modifies this, d, mcu[b]
      ensures Valid() && ok == (d.ct != -1) && InScanBins(d.log, base, info) && StateOk(info, st2)
      ensures old(Midway(mcu, b, was, origs, st, st1, rest)) ==>
                if ok then Midway(mcu, b + 1, was, origs, st, st2, rest) else !McuCodable(info, st, origs, 0)
    {
      st2 := NextDcState(info, st1, info.membership[b], origs[b]);
      ghost var mid := Midway(mcu, b, was, origs, st, st1, rest);
      if mid {
        assert Expand(0);
      }
      ok := DecodeMcuBlock(mcu, b, was, origs, st1, McuPlan(info, st2, origs, b + 1, rest), base);
    }

    /** Decode one MCU in place, unless an error was met before. */
    method DecodeMcu(mcu: seq<array<Coef>>, ghost origs: seq<CoefBlock>, ghost st: DcState, ghost rest: Plan)
      requires Valid() && |mcu| == |origs| == |info.membership| && StateOk(info, st) && Blocks(mcu)
      modifies this, d, mcu
      ensures Valid() && (old(d.ct) == -1 ==> d.ct == -1) && InScanBins(d.log, old(d.log), info)
      ensures old(OnTrack(st, McuPlan(info, st, origs, 0, rest)) && AllBefore(info, Contents(mcu), origs)) ==>
                if McuCodable(info, st, origs, 0) then
                  && OnTrack(AfterMcu(info, st, origs, 0), rest)
                  && McuReceived(info, Contents(mcu), old(Contents(mcu)), origs, |mcu|)
                else d.ct == -1
    {
      if d.ct == -1 {
        assert Expand(0);
        return;
      }
      ghost var exp := OnTrack(st, McuPlan(info, st, origs, 0, rest)) && AllBefore(info, Contents(mcu), origs);
      ghost var was, st1 := Contents(mcu), st;
      if exp {
        MidwayStart(mcu, origs, st, rest);
      }
      var b := 0;
      while b < |mcu|
        invariant Valid() && b <= |mcu| && d.ct != -1 && StateOk(info, st1) && InScanBins(d.log, old(d.log), info)
        invariant exp ==> Midway(mcu, b, was, origs, st, st1, rest)
      {
        var ok;
        ok, st1 := DecodeMcuStep(mcu, b, was, origs, st, st1, rest, old(d.log));
        if !ok {
          return;
        }
        b := b + 1;
      }
      if exp {
        MidwayEnd(mcu, was, origs, st, st1, rest);
      }
    }
  }
}
