/** Coding of coefficient blocks: each routine codes exactly the plan of the statistical model. */
module ArithBlockEncoding {
  import opened AriTable
  import opened Numbers
  import opened IntervalCoder
  import opened Coefficients
  import opened ArithModel
  import opened ArithEncoding

  /** Figure F.8 from the bin st0 on: the category of v in unary. */
  method EncodeCategory(e: ArithEncoder, st0: Context, v: nat, m0: int, shifted: nat, ghost k0: nat, ghost rest: Plan)
    returns (st: Context, m: int, ghost k: nat)
    requires e.Valid() && k0 <= st0 && st0 - k0 + 29 < BINS && v < 0x1_0000 && Shr(v, k0) >= 1
    requires m0 == Shl(1, k0) && shifted == Shr(v, k0)
    modifies e
    ensures e.Valid() && Shr(v, k) >= 1 && Shr(v, k + 1) == 0 && m == Shl(1, k) && st + 14 < BINS
    ensures Extend(e.log, MagnitudeBits(st + 14, v, k, rest)) == old(Extend(e.log, Category(st0 - k0, v, k0, rest)))
  {
    st, m, k := st0, m0, k0;
    var v2 := shifted / 2;
    assert k <= 15 by { if k >= 16 { SixteenBits(v, k); } }
    while v2 != 0
      invariant e.Valid() && k <= 15 && st == st0 - k0 + k && m == Shl(1, k)
      invariant v2 == Shr(v, k + 1) && Shr(v, k) >= 1
      invariant Extend(e.log, Category(st0 - k0, v, k, rest)) == old(Extend(e.log, Category(st0 - k0, v, k0, rest)))
    {
      e.ArithEncode(st, 1);
      assert k + 1 <= 15 by { if k + 1 >= 16 { SixteenBits(v, k + 1); } }
      m := 2 * m;
      st := st + 1;
      k := k + 1;
      v2 := v2 / 2;
    }
    e.ArithEncode(st, 0);
  }

  /** Figure F.9: the bits of v below its first one. */
  method EncodeMagnitudeBits(e: ArithEncoder, st: Context, v: nat, m0: int, ghost k0: nat, ghost rest: Plan)
    requires e.Valid() && (m0 == Shl(1, k0) || (m0 == 0 && k0 == 0))
    modifies e
    ensures e.Valid() && Extend(e.log, rest) == old(Extend(e.log, MagnitudeBits(st, v, k0, rest)))
  {
    ghost var k := k0;
    var m := m0 / 2;
    while m != 0
      invariant e.Valid() && m == if k == 0 then 0 else Shl(1, k - 1)
      invariant Extend(e.log, MagnitudeBits(st, v, k, rest)) == old(Extend(e.log, MagnitudeBits(st, v, k0, rest)))
    {
      ShrIsDiv(v, k - 1);
      e.ArithEncode(st, v / m % 2);
      m := m / 2;
      k := k - 1;
    }
    assert k == 0 by { if k > 0 { ShrIsDiv(v, k - 1); } }
  }

  /** Figures F.8 and F.9 for the DC magnitude v; its category, as a power of two, is returned. */
  method EncodeDcMagnitude(e: ArithEncoder, tbl: Table, first: Context, v: nat, ghost rest: Plan)
    returns (m: int, st: Context, ghost k: nat)
    requires e.Valid() && v < 0x1_0000 && first + 14 < BINS
    modifies e
    ensures e.Valid() && m == Magnitude(v) && st + 14 < BINS && (m == Shl(1, k) || (m == 0 && k == 0))
    ensures Extend(e.log, MagnitudeBits(st + 14, v, k, rest)) == old(Extend(e.log, DcMagnitude(tbl, first, v, rest)))
  {
    m, st, k := 0, first, 0;
    if v != 0 {
      e.ArithEncode(st, 1);
      st, m, k := EncodeCategory(e, DcBin(tbl, 20), v, 1, v, 0, rest);
      MagnitudeIsTop(v, k);
    } else {
      e.ArithEncode(st, 0);
    }
  }

  /** Code the DC difference v0 and establish the conditioning category for the next block. */
  method EncodeDcDiff(e: ArithEncoder, tbl: Table, s0: DcContext, lower: nat, upper: nat, v0: int, ghost rest: Plan)
    returns (context: DcContext)
    requires e.Valid() && Abs(v0) < 0x1_0000
    modifies e
    ensures e.Valid() && Extend(e.log, rest) == old(Extend(e.log, DcPlan(tbl, s0, v0, rest)))
    ensures context == DcCategory(lower, upper, v0)
  {
    var st, v := DcBin(tbl, s0), v0;
    if v == 0 {
      e.ArithEncode(st, 0);
      context := 0;
    } else {
      e.ArithEncode(st, 1);
      if v > 0 {
        e.ArithEncode(st + 1, 0);
        st := st + 2;
        context := 4;
      } else {
        v := -v;
        e.ArithEncode(st + 1, 1);
        st := st + 3;
        context := 8;
      }
      v := v - 1;
      var m;
      ghost var k;
      m, st, k := EncodeDcMagnitude(e, tbl, st, v, rest);
      if m < Half(lower) {
        context := 0;
      } else if m > Half(upper) {
        context := context + 8;
      }
      EncodeMagnitudeBits(e, st + 14, v, m, k, rest);
    }
  }

  /** Figures F.8 and F.9 for the AC magnitude v at position k. */
  method EncodeAcMagnitude(e: ArithEncoder, tbl: Table, kx: nat, k: nat, v: nat, ghost rest: Plan)
    requires e.Valid() && 1 <= k <= 63 && v < 0x8000
    modifies e
    ensures e.Valid() && Extend(e.log, rest) == old(Extend(e.log, AcMagnitude(tbl, kx, k, v, rest)))
  {
    var st, m := AcBin(tbl, 3 * (k - 1) + 2), 0;
    ghost var n := 0;
    if v != 0 {
      e.ArithEncode(st, 1);
      m := 1;
      if v / 2 != 0 {
        e.ArithEncode(st, 1);
        assert Shr(v, 1) == v / 2;
        st, m, n := EncodeCategory(e, AcBin(tbl, if k <= kx then 189 else 217), v, 2 * m, v / 2, 1, rest);
      } else {
        e.ArithEncode(st, 0);
      }
    } else {
      e.ArithEncode(st, 0);
    }
    EncodeMagnitudeBits(e, st + 14, v, m, n, rest);
  }

  /** The last position up to start whose coefficient survives the shift al, or 0. */
  method FindEnd(block: CoefBlock, order: seq<nat>, se: nat, start: nat, al: nat) returns (ke: nat)
    requires IsOrder(order, se) && start <= se
    ensures ke <= start && forall j :: ke < j <= start ==> Shr(Abs(block[order[j]]), al) == 0
    ensures ke > 0 ==> Shr(Abs(block[order[ke]]), al) != 0
  {
    ke := start;
    while ke > 0
      invariant ke <= start && forall j :: ke < j <= start ==> Shr(Abs(block[order[j]]), al) == 0
    {
      if Shr(Abs(block[order[ke]]), al) != 0 {
        break;
      }
      ke := ke - 1;
    }
  }

  /** From a run of zeros at k0 to the coefficient that ends it, sign included. */
  method EncodeRun(e: ArithEncoder, tbl: Table, kx: nat, block: CoefBlock, order: seq<nat>, k0: nat, se: nat, al: nat,
                   ghost rest: Plan)
    returns (k: nat)
    requires e.Valid() && IsOrder(order, se) && 1 <= k0 <= se && !AllZero(Zig(block, order, se, al), k0, se)
    modifies e
    ensures e.Valid() && k0 <= k <= se && var c := Zig(block, order, se, al);
            && c[k] != 0
            && Extend(e.log, AcMagnitude(tbl, kx, k, Abs(c[k]) - 1, AcPlan(tbl, kx, c, k + 1, se, rest)))
               == old(Extend(e.log, AcRun(tbl, kx, c, k0, se, rest)))
  {
    ghost var c := Zig(block, order, se, al);
    k := k0;
    var st, v: Coef := AcBin(tbl, 3 * (k - 1)), block[order[k]];
    while Shr(Abs(v), al) == 0
      invariant e.Valid() && k0 <= k <= se && !AllZero(c, k, se) && st == AcBin(tbl, 3 * (k - 1))
      invariant v == block[order[k]]
      invariant Extend(e.log, AcRun(tbl, kx, c, k, se, rest)) == old(Extend(e.log, AcRun(tbl, kx, c, k0, se, rest)))
      decreases se - k
    {
      e.ArithEncode(st + 1, 0);
      st := st + 3;
      k := k + 1;
      v := block[order[k]];
    }
    e.ArithEncode(st + 1, 1);
    e.ArithEncode(FIXED_BIN, if v >= 0 then 0 else 1);
  }

  /** Figure F.5: code the coefficients of the band ss to se, transformed by al. */
  method EncodeAcBand(e: ArithEncoder, tbl: Table, kx: nat, block: CoefBlock, order: seq<nat>, ss: nat, se: nat,
                      al: nat, ghost rest: Plan)
    requires e.Valid() && IsOrder(order, se) && 1 <= ss <= se + 1
    modifies e
    ensures e.Valid()
    ensures Extend(e.log, rest) == old(Extend(e.log, AcPlan(tbl, kx, Zig(block, order, se, al), ss, se, rest)))
  {
    ghost var c := Zig(block, order, se, al);
    var ke := FindEnd(block, order, se, se, al);
    var k := ss;
    while k <= ke
      invariant e.Valid() && ss <= k <= se + 1
      invariant Extend(e.log, AcPlan(tbl, kx, c, k, se, rest)) == old(Extend(e.log, AcPlan(tbl, kx, c, ss, se, rest)))
    {
      e.ArithEncode(AcBin(tbl, 3 * (k - 1)), 0);
      k := EncodeRun(e, tbl, kx, block, order, k, se, al, rest);
      EncodeAcMagnitude(e, tbl, kx, k, Shr(Abs(block[order[k]]), al) - 1, AcPlan(tbl, kx, c, k + 1, se, rest));
      k := k + 1;
    }
    if k <= se {
      e.ArithEncode(AcBin(tbl, 3 * (k - 1)), 1);
    }
  }

  /** A coefficient that is not zero: its correction bit, or its sign if it is new. */
  method EncodeRefineOne(e: ArithEncoder, st: Context, v: Coef, al: nat, ghost next: Plan)
    requires e.Valid() && st + 2 < BINS && Shr(Abs(v), al) != 0
    modifies e
    ensures e.Valid() && Extend(e.log, next) == old(Extend(e.log, RefineOne(st, Transform(v, al), next)))
  {
    var w := Shr(Abs(v), al);
    if w / 2 != 0 {
      e.ArithEncode(st + 2, w % 2);
    } else {
      e.ArithEncode(st + 1, 1);
      e.ArithEncode(FIXED_BIN, if v >= 0 then 0 else 1);
    }
  }

  /** Zeros from position k0 on and the next coefficient, refined or newly nonzero, at position k. */
  method EncodeRefineRun(e: ArithEncoder, tbl: Table, block: CoefBlock, order: seq<nat>, k0: nat, se: nat, al: nat,
                         ghost rest: Plan)
    returns (k: nat)
    requires e.Valid() && IsOrder(order, se) && 1 <= k0 <= se && !AllZero(Zig(block, order, se, al), k0, se)
    modifies e
    ensures e.Valid() && k0 <= k <= se && var c := Zig(block, order, se, al);
            && c[k] != 0
            && Extend(e.log, RefinePlan(tbl, c, k + 1, se, rest)) == old(Extend(e.log, RefineRun(tbl, c, k0, se, rest)))
  {
    ghost var c := Zig(block, order, se, al);
    k := k0;
    var st, v: Coef := AcBin(tbl, 3 * (k - 1)), block[order[k]];
    while Shr(Abs(v), al) == 0
      invariant e.Valid() && k0 <= k <= se && !AllZero(c, k, se) && st == AcBin(tbl, 3 * (k - 1))
      invariant v == block[order[k]]
      invariant Extend(e.log, RefineRun(tbl, c, k, se, rest)) == old(Extend(e.log, RefineRun(tbl, c, k0, se, rest)))
      decreases se - k
    {
      e.ArithEncode(st + 1, 0);
      st := st + 3;
      k := k + 1;
      v := block[order[k]];
    }
    EncodeRefineOne(e, st, v, al, RefinePlan(tbl, c, k + 1, se, rest));
  }

  lemma PreviousEnd(block: CoefBlock, order: seq<nat>, ss: nat, se: nat, ke: nat, kex: nat, al: nat)
    requires IsOrder(order, se) && 1 <= ss && kex <= ke <= se
    requires forall j :: ke < j <= se ==> Shr(Abs(block[order[j]]), al) == 0
    requires forall j :: kex < j <= ke ==> Shr(Abs(block[order[j]]), al + 1) == 0
    requires kex > 0 ==> Shr(Abs(block[order[kex]]), al + 1) != 0
    ensures IsPreviousEnd(kex, Zig(block, order, se, al), ss, se)
  {
  }

  /** Figure G.10: code bit plane al of the band ss to se; plane ah was coded before. */
  method EncodeRefineBand(e: ArithEncoder, tbl: Table, block: CoefBlock, order: seq<nat>, ss: nat, se: nat, ah: nat,
                          al: nat, ghost rest: Plan)
    requires e.Valid() && IsOrder(order, se) && 1 <= ss <= se && ah == al + 1
    modifies e
    ensures e.Valid()
    ensures Extend(e.log, rest) == old(Extend(e.log, RefinePlan(tbl, Zig(block, order, se, al), ss, se, rest)))
  {
    ghost var c := Zig(block, order, se, al);
    var ke := FindEnd(block, order, se, se, al);
    var kex := FindEnd(block, order, se, ke, ah);
    PreviousEnd(block, order, ss, se, ke, kex, al);
    var k := ss;
    while k <= ke
      invariant e.Valid() && ss <= k <= se + 1 && AllZero(c, ke + 1, se) && (ke > 0 ==> c[ke] != 0)
      invariant Extend(e.log, RefinePlan(tbl, c, k, se, rest)) == old(Extend(e.log, RefinePlan(tbl, c, ss, se, rest)))
    {
      if k > kex {
        e.ArithEncode(AcBin(tbl, 3 * (k - 1)), 0);
      }
      k := EncodeRefineRun(e, tbl, block, order, k, se, al, rest);
      k := k + 1;
    }
    if k <= se {
      e.ArithEncode(AcBin(tbl, 3 * (k - 1)), 1);
    }
  }
}
