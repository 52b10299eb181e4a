/**
 The sequential Huffman encoder: the pass that emits codes, and the trial pass that only counts
 symbols.
 */
module HuffmanEncoding {
  import opened Numbers
  import opened Coefficients
  import opened Stuffing
  import opened HuffmanTable
  import opened HuffmanBits
  import opened HuffmanModel
  import opened HuffmanScanModel

  method CountBits(v: nat) returns (nbits: nat)
    ensures nbits == Nbits(v)
  {
    var temp := v;
    nbits := 0;
    while temp != 0
      invariant nbits + Nbits(temp) == Nbits(v)
    {
      nbits := nbits + 1;
      temp := temp / 2;
    }
  }

  method CountBitsNonzero(v: nat) returns (nbits: nat)
    requires v > 0
    ensures nbits == Nbits(v)
  {
    var temp: nat := v / 2;
    nbits := 1;
    while temp != 0
      invariant nbits + Nbits(temp) == Nbits(v)
    {
      nbits := nbits + 1;
      temp := temp / 2;
    }
  }

  /** A signed 32-bit number taken as an unsigned one. */
  function Unsigned(v: int): (u: int) {
    if v < 0 then v + 0x1_0000_0000 else v
  }

  lemma UnsignedBits(v: int, size: nat, rest: Bits)
    requires size <= 16
    ensures Low(Unsigned(v), size, rest) == Low(v, size, rest)
  {
    Shl8(1);
    ShlOctet(1, 8);
    ShlOctet(1, 16);
    ShlOctet(1, 24);
    LowOfSum(v, 1, 32, size, rest);
  }

  /** Restart markers are numbered modulo 8. */
  function RestartMarker(n: nat): (m: seq<Byte>) {
    [0xFF, 0xD0 + InByte(n)]
  }

  /** Finished segments and the restart markers after them. */
  function Joined(segs: seq<seq<Byte>>): (out: seq<Byte>) {
    if segs == [] then []
    else Joined(segs[..|segs| - 1]) + Stuff(segs[|segs| - 1]) + RestartMarker(|segs| - 1)
  }

  function SentAll(segs: seq<seq<Byte>>): (s: seq<Sent>) {
    seq(|segs|, i requires 0 <= i < |segs| => SentBytes(segs[i]))
  }

  lemma SentAllNext(segs: seq<seq<Byte>>, u: seq<Byte>)
    ensures SentAll(segs + [u]) == SentAll(segs) + [SentBytes(u)]
  {
  }

  lemma {:induction false} JoinedNext(segs: seq<seq<Byte>>, u: seq<Byte>)
    ensures Joined(segs + [u]) == Joined(segs) + Stuff(u) + RestartMarker(|segs|)
  {
    assert (segs + [u])[..|segs|] == segs;
  }

  lemma {:induction false} InByteNext(n: nat)
    ensures InByte(n + 1) == if InByte(n) == 7 then 0 else InByte(n) + 1
  {
    if n > 7 {
      InByteNext(n - 8);
    }
  }

  // ----- whether every symbol has a code does not depend on what follows -----

  lemma ValueCoded(t: Tables, dc: bool, tbl: nat, symbol: Symbol, v: int, n: nat, rest: Items)
    ensures Coded(t, Symbol(dc, tbl, symbol, Raw(v, n, rest))) == (t.Codes(dc, tbl, symbol) && Coded(t, rest))
  {
    assert Coded(t, Raw(v, n, rest)) == Coded(t, rest);
  }

  lemma DcCoded(t: Tables, tbl: nat, v: int, rest: Items)
    requires Nbits(Abs(v)) <= 15
    ensures Coded(t, DcItems(tbl, v, rest)) == (t.Codes(true, tbl, Nbits(Abs(v))) && Coded(t, rest))
  {
    ValueCoded(t, true, tbl, Nbits(Abs(v)), Additional(v), Nbits(Abs(v)), rest);
  }

  /** The codes that r zeros and a coefficient of n bits need. */
  ghost predicate RunCodes(t: Tables, tbl: nat, r: nat, n: nat) {
    if r > 15 then t.Codes(false, tbl, 0xF0) && RunCodes(t, tbl, r - 16, n)
    else n <= 15 && t.Codes(false, tbl, 16 * r + n)
  }

  lemma {:induction false} RunCoded(t: Tables, tbl: nat, r: nat, v: int, rest: Items)
    requires Nbits(Abs(v)) <= 15
    ensures Coded(t, RunItems(tbl, r, v, rest)) == (RunCodes(t, tbl, r, Nbits(Abs(v))) && Coded(t, rest))
    decreases r
  {
    if r > 15 {
      RunCoded(t, tbl, r - 16, v, rest);
    } else {
      ValueCoded(t, false, tbl, 16 * r + Nbits(Abs(v)), Additional(v), Nbits(Abs(v)), rest);
    }
  }

  /** The AC coefficients from position k on, after r zeros, are in range and have their codes. */
  ghost predicate AcSendable(t: Tables, tbl: nat, c: Zigzag, k: nat, r: nat, se: nat)
    requires se < |c| && k <= se + 1
    decreases se + 1 - k
  {
    if k > se then r > 0 ==> t.Codes(false, tbl, 0)
    else if c[k] == 0 then AcSendable(t, tbl, c, k + 1, r + 1, se)
    else && Nbits(Abs(c[k])) <= MAX_COEF_BITS
         && RunCodes(t, tbl, r, Nbits(Abs(c[k])))
         && AcSendable(t, tbl, c, k + 1, 0, se)
  }

  ghost predicate BlockSendable(t: Tables, dcTbl: nat, acTbl: nat, c: Zigzag, last: int, se: nat)
    requires se < |c|
  {
    && Nbits(Abs(c[0] - last)) <= MAX_COEF_BITS + 1 && t.Codes(true, dcTbl, Nbits(Abs(c[0] - last)))
    && AcSendable(t, acTbl, c, 1, 0, se)
  }

  lemma {:induction false} AcCoded(t: Tables, tbl: nat, c: Zigzag, k: nat, r: nat, se: nat, rest: Items)
    requires se < |c| && k <= se + 1
    ensures AcSendable(t, tbl, c, k, r, se) ==> AcLegal(c, k, se)
    ensures AcLegal(c, k, se) ==>
              Coded(t, AcItems(tbl, c, k, r, se, rest)) == (AcSendable(t, tbl, c, k, r, se) && Coded(t, rest))
    decreases se + 1 - k
  {
    if k <= se && c[k] == 0 {
      AcCoded(t, tbl, c, k + 1, r + 1, se, rest);
    } else if k <= se {
      AcCoded(t, tbl, c, k + 1, 0, se, rest);
      if AcLegal(c, k, se) {
        RunCoded(t, tbl, r, c[k], AcItems(tbl, c, k + 1, 0, se, rest));
      }
    }
  }

  /** A block can be sent if and only if it is legal and each of its symbols has a code. */
  lemma BlockCoded(t: Tables, dcTbl: nat, acTbl: nat, c: Zigzag, last: int, se: nat, rest: Items)
    requires se < |c|
    ensures BlockSendable(t, dcTbl, acTbl, c, last, se) ==> BlockLegal(c, last, se)
    ensures BlockLegal(c, last, se) ==>
              var p := BlockItems(dcTbl, acTbl, c, last, se, rest);
              Coded(t, p) == (BlockSendable(t, dcTbl, acTbl, c, last, se) && Coded(t, rest))
  {
    AcCoded(t, acTbl, c, 1, 0, se, rest);
    if BlockLegal(c, last, se) {
      DcCoded(t, dcTbl, c[0] - last, AcItems(acTbl, c, 1, 0, se, rest));
    }
  }

  ghost predicate McuSendable(scan: HuffScan, t: Tables, mcu: seq<Zigzag>, b: nat, last: seq<int>)
    requires scan.Ok() && scan.McuShaped(mcu) && b <= |mcu| && |last| == |scan.dcTbl|
    decreases |mcu| - b
  {
    b == |mcu| ||
    (var ci := scan.membership[b];
     && BlockSendable(t, scan.dcTbl[ci], scan.acTbl[ci], mcu[b], last[ci], scan.se)
     && McuSendable(scan, t, mcu, b + 1, last[ci := mcu[b][0]]))
  }

  lemma {:induction false} McuCoded(scan: HuffScan, t: Tables, mcu: seq<Zigzag>, b: nat, last: seq<int>, rest: Items)
    requires scan.Ok() && scan.McuShaped(mcu) && b <= |mcu| && |last| == |scan.dcTbl|
    ensures McuSendable(scan, t, mcu, b, last) ==> scan.McuLegal(mcu, b, last)
    ensures scan.McuLegal(mcu, b, last) ==>
              Coded(t, scan.McuItems(mcu, b, last, rest)) == (McuSendable(scan, t, mcu, b, last) && Coded(t, rest))
    decreases |mcu| - b
  {
    if b < |mcu| {
      var ci := scan.membership[b];
      var last1 := last[ci := mcu[b][0]];
      McuCoded(scan, t, mcu, b + 1, last1, rest);
      BlockCoded(t, scan.dcTbl[ci], scan.acTbl[ci], mcu[b], last[ci], scan.se, NoItem);
      if scan.McuLegal(mcu, b + 1, last1) {
        BlockCoded(t, scan.dcTbl[ci], scan.acTbl[ci], mcu[b], last[ci], scan.se,
                   scan.McuItems(mcu, b + 1, last1, rest));
      }
    }
  }

  ghost predicate ScanSendable(scan: HuffScan, t: Tables, mcus: seq<seq<Zigzag>>, i: nat, last: seq<int>, togo: nat)
    requires scan.Ok() && scan.Shaped(mcus) && i <= |mcus| && |last| == |scan.dcTbl|
    decreases |mcus| - i
  {
    i == |mcus| ||
    (var last0 := scan.Restarted(last, togo);
     && McuSendable(scan, t, mcus[i], 0, last0)
     && ScanSendable(scan, t, mcus, i + 1, scan.LastAfter(mcus[i], 0, last0), scan.Left(togo)))
  }

  /** A scan can be sent if and only if every block is legal and every symbol has a code. */
  lemma {:induction false} ScanCoded(scan: HuffScan, t: Tables, mcus: seq<seq<Zigzag>>, i: nat, last: seq<int>,
                                     togo: nat)
    requires scan.Ok() && scan.Shaped(mcus) && i <= |mcus| && |last| == |scan.dcTbl|
    ensures ScanSendable(scan, t, mcus, i, last, togo) <==>
              scan.Legal(mcus, i, last, togo) && Coded(t, scan.ScanItems(mcus, i, last, togo))
    decreases |mcus| - i
  {
    if i < |mcus| {
      var last0 := scan.Restarted(last, togo);
      var last1 := scan.LastAfter(mcus[i], 0, last0);
      ScanCoded(scan, t, mcus, i + 1, last1, scan.Left(togo));
      McuCoded(scan, t, mcus[i], 0, last0, NoItem);
      if scan.Legal(mcus, i + 1, last1, scan.Left(togo)) {
        McuCoded(scan, t, mcus[i], 0, last0, scan.ScanItems(mcus, i + 1, last1, scan.Left(togo)));
      }
    }
  }

  class HuffmanEncoder {
    const scan: HuffScan
    const t: Tables
    const w: BitWriter
    var lastDcVal: seq<int>   // last DC value of each component
    var restartsToGo: nat     // MCUs left in this restart interval
    var nextRestartNum: nat   // next restart number to write (0 to 7)

    ghost var segs: seq<seq<Byte>>  // data of the finished segments

    ghost function Done(): (done: seq<Sent>)
      reads this`segs
    {
      SentAll(segs)
    }

    /** The segments this will have produced once p has been sent. */
    ghost function Goal(p: Items): (goal: seq<Sent>)
      requires Coded(t, p)
      reads this`segs, w
    {
      Deliver(t, Done(), w.log, p)
    }

    // Always true. Mentioning it expands the predicate below.
    ghost predicate Expand(x: nat) {
      true
    }

    /** The bytes written are those of the finished segments and of the current one. */
    ghost predicate Written()
      reads this`segs, this`nextRestartNum, w
    {
      forall x: nat :: Expand(x) ==> w.Valid() && w.before == Joined(segs) && nextRestartNum == InByte(|segs|)
    }

    ghost predicate Valid()
      reads this, w
    {
      Tabled(scan, t) && |lastDcVal| == |scan.dcTbl| && Written()
    }

    constructor (scan: HuffScan, t: Tables)
      requires Tabled(scan, t)
      ensures Valid() && fresh(w) && this.scan == scan && this.t == t && Done() == [] && w.log == Nothing
      ensures lastDcVal == scan.Zeros() && restartsToGo == scan.interval
    {
      this.scan, this.t := scan, t;
      w := new BitWriter();
      lastDcVal, restartsToGo, nextRestartNum := seq(|scan.dcTbl|, i => 0), scan.interval, 0;
      segs := [];
    }

    /** Emit the code of a symbol; fails if it has none. */
    method EmitSymbol(dc: bool, tbl: nat, symbol: Symbol, ghost rest: Items) returns (ok: bool)
      requires Valid() && t.Has(dc, tbl) && t.At(dc, tbl).Usable() && Coded(t, rest)
      modifies w
      ensures ok == t.Codes(dc, tbl, symbol) && Valid()
      ensures ok ==> Goal(rest) == old(Goal(Symbol(dc, tbl, symbol, rest)))
    {
      var code := t.At(dc, tbl);
      assert Expand(0) && code.Expand(0);
      ok := w.EmitBits(code.ehufco[symbol], code.ehufsi[symbol], NoBits);
    }

    /** Emit the additional bits of v. */
    method EmitAdditional(v: int, nbits: nat, ghost rest: Items)
      requires Valid() && 1 <= nbits <= 16 && Coded(t, rest) && -0x1_0000 < v
      modifies w
      ensures Valid() && Goal(rest) == old(Goal(Raw(v, nbits, rest)))
    {
      assert Expand(0);
      UnsignedBits(v, nbits, NoBits);
      var ok := w.EmitBits(Unsigned(v), nbits, NoBits);
    }

    /** The additional bits of a value whose size has been sent. */
    method EmitValue(ghost v: int, temp2: int, nbits: nat, ghost rest: Items)
      requires Valid() && Coded(t, rest) && 1 <= nbits == Nbits(Abs(v)) <= MAX_COEF_BITS + 1 && temp2 == Additional(v)
      modifies w
      ensures Valid() && Goal(rest) == old(Goal(Raw(Additional(v), nbits, rest)))
    {
      SmallMagnitude(Abs(v));
      EmitAdditional(temp2, nbits, rest);
    }

    /** The DC difference of a block; fails if it is out of range or its symbol has no code. */
    method EncodeDc(tbl: nat, v: int, ghost rest: Items) returns (ok: bool)
      requires Valid() && tbl < |t.dc| && t.dc[tbl].Usable() && Coded(t, rest)
      modifies w
      ensures Valid() && ok == (Nbits(Abs(v)) <= MAX_COEF_BITS + 1 && t.Codes(true, tbl, Nbits(Abs(v))))
      ensures ok ==> Coded(t, DcItems(tbl, v, rest)) && Goal(rest) == old(Goal(DcItems(tbl, v, rest)))
    {
      var temp, temp2 := v, v;
      if temp < 0 {
        temp := -temp;
        temp2 := temp2 - 1;
      }
      var nbits := CountBits(temp);
      if nbits > MAX_COEF_BITS + 1 {
        return false;
      }
      DcCoded(t, tbl, v, rest);
      ok := EmitSymbol(true, tbl, nbits, if nbits == 0 then rest else Raw(temp2, nbits, rest));
      if ok && nbits != 0 {
        EmitValue(v, temp2, nbits, rest);
      }
    }

    static lemma SmallMagnitude(v: nat)
      requires Nbits(v) <= MAX_COEF_BITS + 1
      ensures v < 0x1000
    {
      NbitsBounds(v);
      ShlOctet(1, 4);
      assert Shl(0x100, 4) == 0x1000;
      GrowsTo(Nbits(v), 12);
    }

    static lemma {:induction false} GrowsTo(k: nat, n: nat)
      requires k <= n
      ensures 0 < Shl(1, k) <= Shl(1, n)
      decreases n
    {
      if k < n {
        GrowsTo(k, n - 1);
      } else if n > 0 {
        GrowsTo(k - 1, n - 1);
      }
    }

    /** The codes for runs of sixteen zeros; fails if there is none. */
    method EncodeZeros(tbl: nat, r0: nat, v: int, ghost rest: Items) returns (ok: bool, r: nat)
      requires Valid() && tbl < |t.ac| && t.ac[tbl].Usable() && Coded(t, rest)
      modifies w
      ensures Valid() && (ok ==> r <= 15)
      ensures RunCodes(t, tbl, r0, Nbits(Abs(v))) == (ok && RunCodes(t, tbl, r, Nbits(Abs(v))))
      ensures Nbits(Abs(v)) <= 15 && Coded(t, RunItems(tbl, r0, v, rest)) ==>
                && Coded(t, RunItems(tbl, r, v, rest))
                && Goal(RunItems(tbl, r, v, rest)) == old(Goal(RunItems(tbl, r0, v, rest)))
    {
      ghost var n := Nbits(Abs(v));
      ghost var coded := n <= 15 && Coded(t, RunItems(tbl, r0, v, rest));
      r, ok := r0, true;
      if coded {
        RunCoded(t, tbl, r, v, rest);
      }
      while r > 15
        invariant Valid() && ok && RunCodes(t, tbl, r, n) == RunCodes(t, tbl, r0, n)
        invariant coded ==>
                    && Coded(t, RunItems(tbl, r, v, rest))
                    && Goal(RunItems(tbl, r, v, rest)) == old(Goal(RunItems(tbl, r0, v, rest)))
      {
        ok := EmitSymbol(false, tbl, 0xF0, if coded then RunItems(tbl, r - 16, v, rest) else rest);
        if !ok {
          return;
        }
        r := r - 16;
      }
    }

    /** A nonzero coefficient after r zeros; fails if it is out of range or a symbol has no code. */
    method EncodeRun(tbl: nat, r0: nat, v: int, ghost rest: Items) returns (ok: bool)
      requires Valid() && tbl < |t.ac| && t.ac[tbl].Usable() && Coded(t, rest) && v != 0
      modifies w
      ensures Valid() && ok == (Nbits(Abs(v)) <= MAX_COEF_BITS && RunCodes(t, tbl, r0, Nbits(Abs(v))))
      ensures ok ==> Coded(t, RunItems(tbl, r0, v, rest)) && Goal(rest) == old(Goal(RunItems(tbl, r0, v, rest)))
    {
      if Nbits(Abs(v)) <= 15 {
        RunCoded(t, tbl, r0, v, rest);
      }
      var r;
      ok, r := EncodeZeros(tbl, r0, v, rest);
      if ok {
        ok := EncodeLevel(tbl, r, v, rest);
      }
    }

    /** The same, for fewer than sixteen zeros. */
    method EncodeLevel(tbl: nat, r: nat, v: int, ghost rest: Items) returns (ok: bool)
      requires Valid() && tbl < |t.ac| && t.ac[tbl].Usable() && Coded(t, rest) && v != 0 && r <= 15
      modifies w
      ensures Valid() && ok == (Nbits(Abs(v)) <= MAX_COEF_BITS && t.Codes(false, tbl, 16 * r + Nbits(Abs(v))))
      ensures ok ==> Coded(t, RunItems(tbl, r, v, rest)) && Goal(rest) == old(Goal(RunItems(tbl, r, v, rest)))
    {
      var temp, temp2 := v, v;
      if temp < 0 {
        temp := -temp;
        temp2 := temp2 - 1;
      }
      var nbits := CountBitsNonzero(temp);
      if nbits > MAX_COEF_BITS {
        return false;
      }
      ok := EmitLevel(tbl, r, v, temp2, nbits, rest);
    }

    /** The symbol of a coefficient and its additional bits. */
    method EmitLevel(tbl: nat, r: nat, ghost v: int, temp2: int, nbits: nat, ghost rest: Items) returns (ok: bool)
      requires Valid() && tbl < |t.ac| && t.ac[tbl].Usable() && Coded(t, rest) && v != 0 && r <= 15
      requires temp2 == Additional(v) && 1 <= nbits == Nbits(Abs(v)) <= MAX_COEF_BITS
      modifies w
      ensures Valid() && ok == t.Codes(false, tbl, 16 * r + nbits)
      ensures ok ==> Coded(t, RunItems(tbl, r, v, rest)) && Goal(rest) == old(Goal(RunItems(tbl, r, v, rest)))
    {
      RunCoded(t, tbl, r, v, rest);
      ok := EmitSymbol(false, tbl, 16 * r + nbits, Raw(temp2, nbits, rest));
      if ok {
        EmitValue(v, temp2, nbits, rest);
      }
    }

    /** What will have been sent after the coefficients k and on, and rest, if they can be sent. */
    ghost function AcGoal(tbl: nat, c: Zigzag, k: nat, r: nat, rest: Items): (goal: seq<Sent>)
      requires scan.se < |c| && k <= scan.se + 1 && Coded(t, rest)
      reads this`segs, w
    {
      AcCoded(t, tbl, c, k, r, scan.se, rest);
      if AcSendable(t, tbl, c, k, r, scan.se) then Goal(AcItems(tbl, c, k, r, scan.se, rest)) else []
    }

    /** The nonzero coefficient at position k, after r zeros. */
    method EncodeCoef(tbl: nat, r: nat, v: Coef, ghost c: Zigzag, ghost k: nat, ghost rest: Items) returns (ok: bool)
      requires Valid() && tbl < |t.ac| && t.ac[tbl].Usable() && Coded(t, rest) && k <= scan.se < |c| && c[k] == v != 0
      modifies w
      ensures Valid() && AcSendable(t, tbl, c, k, r, scan.se) == (ok && AcSendable(t, tbl, c, k + 1, 0, scan.se))
      ensures ok ==> AcGoal(tbl, c, k + 1, 0, rest) == old(AcGoal(tbl, c, k, r, rest))
    {
      AcCoded(t, tbl, c, k, r, scan.se, rest);
      AcCoded(t, tbl, c, k + 1, 0, scan.se, rest);
      ok := EncodeRun(tbl,
                      r,
                      v,
                      if AcSendable(t, tbl, c, k + 1, 0, scan.se) then AcItems(tbl, c, k + 1, 0, scan.se, rest)
                      else rest);
    }

    /** Figure F.2: the AC coefficients of a block. */
    method EncodeAc(tbl: nat, block: CoefBlock, order: seq<nat>, ghost rest: Items) returns (ok: bool)
      requires Valid() && tbl < |t.ac| && t.ac[tbl].Usable() && Coded(t, rest) && IsOrder(order, scan.se)
      modifies w
      ensures var c := Zig(block, order, scan.se, 0);
              && Valid() && ok == AcSendable(t, tbl, c, 1, 0, scan.se)
              && (ok ==> Goal(rest) == old(AcGoal(tbl, c, 1, 0, rest)))
    {
      ghost var c := Zig(block, order, scan.se, 0);
      var r, k := 0, 1;
      while k <= scan.se
        invariant 1 <= k <= scan.se + 1 && Valid()
        invariant AcSendable(t, tbl, c, 1, 0, scan.se) == AcSendable(t, tbl, c, k, r, scan.se)
        invariant AcGoal(tbl, c, k, r, rest) == old(AcGoal(tbl, c, 1, 0, rest))
      {
        var temp := block[order[k]];
        if temp == 0 {
          r := r + 1;
        } else {
          ok := EncodeCoef(tbl, r, temp, c, k, rest);
          if !ok {
            return;
          }
          r := 0;
        }
        k := k + 1;
      }
      ok := true;
      if r > 0 {
        ok := EmitSymbol(false, tbl, 0, rest);
      }
    }

    /** One block; fails if a coefficient is out of range or a symbol has no code. */
    method EncodeOneBlock(block: CoefBlock, order: seq<nat>, last: int, dcTbl: nat, acTbl: nat, ghost rest: Items)
      returns (ok: bool)
      requires Valid() && dcTbl < |t.dc| && acTbl < |t.ac| && t.Usable() && Coded(t, rest) && IsOrder(order, scan.se)
      modifies w
      ensures var c := Zig(block, order, scan.se, 0);
              && Valid() && ok == BlockSendable(t, dcTbl, acTbl, c, last, scan.se)
              && (ok ==> BlockLegal(c, last, scan.se) && Coded(t, BlockItems(dcTbl, acTbl, c, last, scan.se, rest))
                         && Goal(rest) == old(Goal(BlockItems(dcTbl, acTbl, c, last, scan.se, rest))))
    {
      ghost var c := Zig(block, order, scan.se, 0);
      AcCoded(t, acTbl, c, 1, 0, scan.se, rest);
      BlockCoded(t, dcTbl, acTbl, c, last, scan.se, rest);
      ok := EncodeDc(dcTbl, block[0] - last,
                     if AcSendable(t, acTbl, c, 1, 0, scan.se) then AcItems(acTbl, c, 1, 0, scan.se, rest) else rest);
      if ok {
        ok := EncodeAc(acTbl, block, order, rest);
      }
    }

    /** Flush the bit packer and write the marker. */
    method FinishSegment()
      requires Written()
      modifies w, `segs, `nextRestartNum
      ensures Written() && w.log == Nothing && Done() == old(Done() + [Padded(w.log)])
    {
      assert Expand(0);
      ghost var was, u := segs, [];
      u := w.EmitRestart(nextRestartNum);
      JoinedNext(was, u);
      SentAllNext(was, u);
      InByteNext(|was|);
      segs := was + [u];
      nextRestartNum := if nextRestartNum == 7 then 0 else nextRestartNum + 1;
    }

    /** Write a restart marker and reset the DC predictions. */
    method EmitRestart(ghost rest: Items)
      requires Valid() && Coded(t, rest)
      modifies this, w
      ensures Valid() && lastDcVal == scan.Zeros() && restartsToGo == old(restartsToGo)
      ensures Goal(rest) == old(Goal(Restart(rest)))
    {
      FinishSegment();
      lastDcVal := scan.Zeros();
    }

    function Zigs(mcu: seq<CoefBlock>, order: seq<nat>): (z: seq<Zigzag>)
      requires IsOrder(order, scan.se)
      ensures |z| == |mcu| && forall b :: 0 <= b < |mcu| ==> z[b] == Zig(mcu[b], order, scan.se, 0)
    {
      seq(|mcu|, b requires 0 <= b < |mcu| => Zig(mcu[b], order, scan.se, 0))
    }

    /** What will have been sent after the blocks b and on of an MCU and rest, if they can be sent. */
    ghost function McuGoal(z: seq<Zigzag>, b: nat, rest: Items): (goal: seq<Sent>)
      requires Valid() && scan.McuShaped(z) && b <= |z| && Coded(t, rest)
      reads this, w
    {
      McuCoded(scan, t, z, b, lastDcVal, rest);
      if McuSendable(scan, t, z, b, lastDcVal) then Goal(scan.McuItems(z, b, lastDcVal, rest)) else []
    }

    /** Block b of an MCU. */
    method EncodeBlock(block: CoefBlock, order: seq<nat>, b: nat, ghost z: seq<Zigzag>, ghost rest: Items)
      returns (ok: bool)
      requires Valid() && t.Usable() && Coded(t, rest) && IsOrder(order, scan.se)
      requires scan.McuShaped(z) && b < |z| && z[b] == Zig(block, order, scan.se, 0)
      modifies `lastDcVal, w
      ensures Valid()
      ensures McuSendable(scan, t, z, b, old(lastDcVal)) == (ok && McuSendable(scan, t, z, b + 1, lastDcVal))
      ensures scan.LastAfter(z, b, old(lastDcVal)) == scan.LastAfter(z, b + 1, lastDcVal)
      ensures ok ==> McuGoal(z, b + 1, rest) == old(McuGoal(z, b, rest))
    {
      var ci := scan.membership[b];
      ghost var last1 := lastDcVal[ci := z[b][0]];
      McuCoded(scan, t, z, b, lastDcVal, rest);
      McuCoded(scan, t, z, b + 1, last1, rest);
      ok := EncodeOneBlock(block, order, lastDcVal[ci], scan.dcTbl[ci], scan.acTbl[ci],
                           if McuSendable(scan, t, z, b + 1, last1) then scan.McuItems(z, b + 1, last1, rest)
                           else rest);
      lastDcVal := lastDcVal[ci := block[0]];
      assert lastDcVal == last1;
    }

    /** The blocks of an MCU; fails if one of them cannot be sent. */
    method EncodeBlocks(mcu: seq<CoefBlock>, order: seq<nat>, ghost rest: Items) returns (ok: bool)
      requires Valid() && t.Usable() && Coded(t, rest) && IsOrder(order, scan.se) && |mcu| == |scan.membership|
      modifies `lastDcVal, w
      ensures var z := Zigs(mcu, order);
              && Valid() && ok == McuSendable(scan, t, z, 0, old(lastDcVal))
              && (ok ==> Goal(rest) == old(McuGoal(z, 0, rest)) && lastDcVal == scan.LastAfter(z, 0, old(lastDcVal)))
    {
      ghost var z := Zigs(mcu, order);
      var blkn := 0;
      while blkn < |mcu|
        invariant blkn <= |mcu| && Valid()
        invariant McuSendable(scan, t, z, blkn, lastDcVal) == McuSendable(scan, t, z, 0, old(lastDcVal))
        invariant McuGoal(z, blkn, rest) == old(McuGoal(z, 0, rest))
        invariant scan.LastAfter(z, blkn, lastDcVal) == scan.LastAfter(z, 0, old(lastDcVal))
      {
        ok := EncodeBlock(mcu[blkn], order, blkn, z, rest);
        if !ok {
          return;
        }
        blkn := blkn + 1;
      }
      ok := true;
    }

    /** One MCU, with the restart marker that may be due before it. */
    method EncodeMcu(mcu: seq<CoefBlock>, order: seq<nat>, ghost rest: Items) returns (ok: bool)
      requires Valid() && t.Usable() && Coded(t, rest) && IsOrder(order, scan.se) && |mcu| == |scan.membership|
      modifies this, w
      ensures Valid()
      ensures var z, last := Zigs(mcu, order), scan.Restarted(old(lastDcVal), old(restartsToGo));
              && ok == McuSendable(scan, t, z, 0, last)
              && (ok ==> lastDcVal == scan.LastAfter(z, 0, last) && restartsToGo == scan.Left(old(restartsToGo)))
              && (ok ==> scan.McuLegal(z, 0, last) && Coded(t, scan.McuItems(z, 0, last, rest))
                         && var p := scan.McuItems(z, 0, last, rest);
                            Goal(rest) == old(Goal(if scan.Due(restartsToGo) then Restart(p) else p)))
    {
      ghost var z, last := Zigs(mcu, order), scan.Restarted(lastDcVal, restartsToGo);
      McuCoded(scan, t, z, 0, last, rest);
      if scan.interval != 0 {
        if restartsToGo == 0 {
          EmitRestart(if McuSendable(scan, t, z, 0, last) then scan.McuItems(z, 0, last, rest) else rest);
        }
      }
      ok := EncodeBlocks(mcu, order, rest);
      if ok && scan.interval != 0 {
        if restartsToGo == 0 {
          restartsToGo := scan.interval;
        }
        restartsToGo := restartsToGo - 1;
      }
    }

    /** Fill the last byte of the last segment. */
    method FinishPass()
      requires Valid()
      modifies this, w
      ensures Valid() && w.out == Joined(segs) + Stuff(w.data)
      ensures SentAll(segs) + [SentBytes(w.data)] == old(Goal(NoItem))
    {
      assert Expand(0);
      w.FlushBits();
    }
  }

  function ZigsOf(mcus: seq<seq<CoefBlock>>, order: seq<nat>, se: nat): (z: seq<seq<Zigzag>>)
    requires IsOrder(order, se)
    ensures |z| == |mcus| && forall i :: 0 <= i < |mcus| ==>
              |z[i]| == |mcus[i]| && forall b :: 0 <= b < |mcus[i]| ==> z[i][b] == Zig(mcus[i][b], order, se, 0)
  {
    seq(|mcus|,
        i requires 0 <= i < |mcus| => seq(|mcus[i]|, b requires 0 <= b < |mcus[i]| => Zig(mcus[i][b], order, se, 0)))
  }

  /** A whole scan; fails exactly if some coefficient is out of range or some symbol has no code.
      Otherwise the bytes are stuffed segments with restart markers between them, and the
      segments hold the codes of the scan, padded with ones. */
  method EncodeScan(scan: HuffScan, t: Tables, mcus: seq<seq<CoefBlock>>, order: seq<nat>)
    returns (ok: bool, out: seq<Byte>, ghost segs: seq<seq<Byte>>, ghost data: seq<Byte>)
    requires Tabled(scan, t) && t.Usable() && IsOrder(order, scan.se) && scan.Shaped(ZigsOf(mcus, order, scan.se))
    ensures var z := ZigsOf(mcus, order, scan.se);
            && ok == ScanSendable(scan, t, z, 0, scan.Zeros(), scan.interval)
            && (ok ==> out == Joined(segs) + Stuff(data))
            && (ok ==>
                  && scan.Legal(z, 0, scan.Zeros(), scan.interval)
                  && var p := scan.ScanItems(z, 0, scan.Zeros(), scan.interval);
                     Coded(t, p) && SentAll(segs) + [SentBytes(data)] == Deliver(t, [], Nothing, p))
  {
    ghost var z := ZigsOf(mcus, order, scan.se);
    ghost var sendable := ScanSendable(scan, t, z, 0, scan.Zeros(), scan.interval);
    ScanCoded(scan, t, z, 0, scan.Zeros(), scan.interval);
    ghost var goal := if sendable then Deliver(t, [], Nothing, scan.ScanItems(z, 0, scan.Zeros(), scan.interval))
                      else [];
    var e := new HuffmanEncoder(scan, t);
    out, segs, data := [], [], [];
    var i := 0;
    while i < |mcus|
      invariant i <= |z| && e.Valid() && e.scan == scan && e.t == t && fresh(e) && fresh(e.w)
      invariant sendable == ScanSendable(scan, t, z, i, e.lastDcVal, e.restartsToGo)
      invariant sendable ==>
                  && scan.Legal(z, i, e.lastDcVal, e.restartsToGo)
                  && Coded(t, scan.ScanItems(z, i, e.lastDcVal, e.restartsToGo))
      invariant sendable ==> e.Goal(scan.ScanItems(z, i, e.lastDcVal, e.restartsToGo)) == goal
    {
      ghost var last := scan.LastAfter(z[i], 0, scan.Restarted(e.lastDcVal, e.restartsToGo));
      ScanCoded(scan, t, z, i + 1, last, scan.Left(e.restartsToGo));
      assert e.Zigs(mcus[i], order) == z[i];
      ok := e.EncodeMcu(mcus[i], order,
                        if sendable then scan.ScanItems(z, i + 1, last, scan.Left(e.restartsToGo)) else NoItem);
      if !ok {
        return;
      }
      i := i + 1;
    }
    e.FinishPass();
    ok, out, segs, data := true, e.w.out, e.segs, e.w.data;
  }
}
