/**
 What the plans of the statistical model amount to: the conditioning of DC differences by their size,
 and the lists of decisions of sections F.1.4 and G.1.3 of ITU-T T.81, each written out in full.
 */
module ArithDecisions {
  import opened AriTable
  import opened Numbers
  import opened IntervalCoder
  import opened Coefficients
  import opened ArithModel

  // ----- conditioning -----

  lemma {:induction false} MagnitudeBounds(sz: nat, k: nat)
    requires sz > 0
    ensures Magnitude(sz) < Shl(1, k) <==> sz < Shl(1, k)
    decreases k
  {
    if sz == 1 {
      ShlGrowsOne(k);
    } else if k > 0 {
      MagnitudeBounds(sz / 2, k - 1);
    } else {
      MagnitudePositive(sz);
    }
  }

  lemma {:induction false} ShlGrowsOne(k: nat)
    ensures Shl(1, k) >= 1 && (k > 0 ==> Shl(1, k) >= 2)
  {
    if k > 0 {
      ShlGrowsOne(k - 1);
    }
  }

  lemma {:induction false} MagnitudePositive(sz: nat)
    requires sz > 0
    ensures Magnitude(sz) >= 1
  {
    if sz > 1 {
      MagnitudePositive(sz / 2);
    }
  }

  lemma {:induction false} HalfIs(lower: nat)
    ensures Half(lower) == Shl(1, lower) / 2
  {
    if lower > 0 {
      assert Shl(1, lower) == 2 * Shl(1, lower - 1);
    }
  }

  lemma {:induction false} BelowHalf(lower: nat, sz: nat)
    requires sz > 0
    ensures Magnitude(sz) < Half(lower) <==> sz + 1 <= Half(lower)
  {
    MagnitudePositive(sz);
    if lower > 0 {
      MagnitudeBounds(sz, lower - 1);
    }
  }

  lemma {:induction false} AboveHalf(upper: nat, sz: nat)
    requires sz > 0
    ensures Magnitude(sz) > Half(upper) <==> sz + 1 > Shl(1, upper)
  {
    MagnitudeIsPower(sz, upper);
    MagnitudeBounds(sz, upper);
  }

  /** The intervals of section F.1.4.4.1.2: a difference is zero or small, up to half of 2^L; medium, up to
      2^U; or large. */
  lemma {:induction false} ConditioningIntervals(lower: nat, upper: nat, v: int)
    requires lower <= upper
    ensures DcCategory(lower, upper, v)
         == if Abs(v) <= Shl(1, lower) / 2 then 0
            else if Abs(v) <= Shl(1, upper) then if v > 0 then 4 else 8
            else if v > 0 then 12 else 16
  {
    ShlGrowsOne(upper);
    HalfIs(lower);
    if Abs(v) > 1 {
      BelowHalf(lower, Abs(v) - 1);
      AboveHalf(upper, Abs(v) - 1);
    } else {
      SmallCategory(lower, upper, v);
    }
    ShlMonotone(lower, upper);
  }

  lemma {:induction false} SmallCategory(lower: nat, upper: nat, v: int)
    requires Abs(v) <= 1
    ensures DcCategory(lower, upper, v) == if Abs(v) <= Shl(1, lower) / 2 then 0 else if v > 0 then 4 else 8
  {
    ShlGrowsOne(lower);
    if lower > 0 {
      ShlGrowsOne(lower - 1);
    }
    if upper > 0 {
      ShlGrowsOne(upper - 1);
    }
  }

  lemma {:induction false} ShlMonotone(i: nat, j: nat)
    requires i <= j
    ensures Shl(1, i) <= Shl(1, j)
    decreases j
  {
    if i < j {
      ShlMonotone(i, j - 1);
      ShlGrowsOne(j - 1);
    }
  }

  /** A magnitude of at least 2^k is more than half of it, and no other one is. */
  lemma {:induction false} MagnitudeIsPower(sz: nat, k: nat)
    requires sz > 0
    ensures Magnitude(sz) > Half(k) <==> Magnitude(sz) >= Shl(1, k)
    decreases sz
  {
    if sz == 1 {
      ShlGrowsOne(k);
      if k > 0 {
        ShlGrowsOne(k - 1);
      }
    } else if k > 0 {
      MagnitudeIsPower(sz / 2, k - 1);
      if k == 1 {
        MagnitudePositive(sz / 2);
      }
    } else {
      MagnitudePositive(sz);
    }
  }

  // ----- lists of decisions -----

  /** The decisions ds, and then rest. */
  function Listed(ds: seq<Decision>, rest: Plan): (p: Plan) {
    if ds == [] then rest else Next(ds[0], Listed(ds[1..], rest))
  }

  lemma {:induction false} ListedBoth(a: seq<Decision>, b: seq<Decision>, rest: Plan)
    ensures Listed(a + b, rest) == Listed(a, Listed(b, rest))
    decreases |a|
  {
    if a == [] {
      assert a + b == b;
    } else {
      assert (a + b)[1..] == a[1..] + b;
      ListedBoth(a[1..], b, rest);
    }
  }

  lemma {:induction false} ListedOne(d: Decision, ds: seq<Decision>, rest: Plan)
    ensures Listed([d] + ds, rest) == Next(d, Listed(ds, rest)) && Listed([d], rest) == Next(d, rest)
  {
    assert ([d] + ds)[1..] == ds;
  }

  lemma {:induction false} ListedTwo(a: Decision, b: Decision, rest: Plan)
    ensures Listed([a, b], rest) == Next(a, Next(b, rest))
  {
    assert [a, b] == [a] + [b];
    ListedOne(a, [b], rest);
    ListedOne(b, [], rest);
  }

  lemma {:induction false} ListedThree(a: Decision, b: Decision, c: Decision, rest: Plan)
    ensures Listed([a, b, c], rest) == Next(a, Next(b, Next(c, rest)))
  {
    assert [a, b, c] == [a] + [b, c];
    ListedOne(a, [b, c], rest);
    ListedTwo(b, c, rest);
  }

  // ----- sizes -----

  /** n decisions for one, in successive bins. */
  function Ones(st: nat, n: nat): (ds: seq<Decision>)
    requires st + n <= BINS
  {
    seq(n, j requires 0 <= j < n => Decision(st + j, 1))
  }

  /** The n low bits of sz, highest first, in one bin. */
  function LowBits(ctx: Context, sz: nat, n: nat): (ds: seq<Decision>) {
    seq(n, j requires 0 <= j < n => Decision(ctx, Shr(sz, n - 1 - j) % 2))
  }

  /** The number of bits of sz below its first one. */
  function TopBit(sz: nat): (n: nat) {
    if sz <= 1 then 0 else 1 + TopBit(sz / 2)
  }

  lemma {:induction false} TopBitIs(sz: nat)
    requires 0 < sz < 0x1_0000
    ensures Shr(sz, TopBit(sz)) == 1 && TopBit(sz) <= 15
  {
    if sz > 1 {
      TopBitIs(sz / 2);
      ShrShr(sz, 1, TopBit(sz / 2));
      assert Shr(sz, 1) == sz / 2;
    }
    if TopBit(sz) > 15 {
      SixteenBits(sz, TopBit(sz));
    }
  }

  /** The size sz in the bins from st + k on: one for each bit below the first one but for the first k, then
      zero, each in a bin of its own; and the bits below the first one in the bin 14 further on. */
  function SizeList(st: nat, sz: nat, k: nat): (ds: seq<Decision>)
    requires st + 29 < BINS && 0 < sz < 0x1_0000 && k <= TopBit(sz)
  {
    TopBitIs(sz);
    var n := TopBit(sz);
    Ones(st + k, n - k) + [Decision(st + n, 0)] + LowBits(st + n + 14, sz, n)
  }

  lemma {:induction false} LowBitsListed(ctx: Context, sz: nat, n: nat, rest: Plan)
    ensures MagnitudeBits(ctx, sz, n, rest) == Listed(LowBits(ctx, sz, n), rest)
    decreases n
  {
    if n > 0 {
      LowBitsListed(ctx, sz, n - 1, rest);
      assert LowBits(ctx, sz, n) == [Decision(ctx, Shr(sz, n - 1) % 2)] + LowBits(ctx, sz, n - 1);
      ListedOne(Decision(ctx, Shr(sz, n - 1) % 2), LowBits(ctx, sz, n - 1), rest);
    }
  }

  lemma {:induction false} BitsAbove(sz: nat, k: nat, n: nat)
    requires k <= n && Shr(sz, n) >= 1
    ensures Shr(sz, k) >= 1
    decreases n
  {
    if k < n {
      BitsAbove(sz, k, n - 1);
    }
  }

  lemma {:induction false} OnesListed(st: nat, sz: nat, k: nat, n: nat, rest: Plan)
    requires st + 29 < BINS && sz < 0x1_0000 && k <= n <= 15 && Shr(sz, n) == 1
    ensures Shr(sz, k) >= 1 && Category(st, sz, k, rest) == Listed(Ones(st + k, n - k), Category(st, sz, n, rest))
    decreases n - k
  {
    BitsAbove(sz, k, n);
    if k < n {
      BitsAbove(sz, k + 1, n);
      OnesListed(st, sz, k + 1, n, rest);
      assert Ones(st + k, n - k) == [Decision(st + k, 1)] + Ones(st + k + 1, n - (k + 1));
      ListedOne(Decision(st + k, 1), Ones(st + k + 1, n - (k + 1)), Category(st, sz, n, rest));
    }
  }

  lemma {:induction false} SizeListed(st: nat, sz: nat, k: nat, rest: Plan)
    requires st + 29 < BINS && 0 < sz < 0x1_0000 && k <= TopBit(sz)
    ensures Shr(sz, k) >= 1 && Category(st, sz, k, rest) == Listed(SizeList(st, sz, k), rest)
  {
    TopBitIs(sz);
    var n := TopBit(sz);
    OnesListed(st, sz, k, n, rest);
    LowBitsListed(st + n + 14, sz, n, rest);
    var bits := LowBits(st + n + 14, sz, n);
    ListedOne(Decision(st + n, 0), [], Listed(bits, rest));
    ListedBoth(Ones(st + k, n - k) + [Decision(st + n, 0)], bits, rest);
    ListedBoth(Ones(st + k, n - k), [Decision(st + n, 0)], Listed(bits, rest));
  }

  // ----- DC differences -----

  /** The difference v conditioned by s0: zero or not, its sign, and its size less one. */
  function DcList(tbl: Table, s0: DcContext, v: int): (ds: seq<Decision>)
    requires Abs(v) < 0x1_0000
  {
    var b, sign := DcBin(tbl, 0), if v < 0 then 1 else 0;
    if v == 0 then [Decision(b + s0, 0)]
    else
      [Decision(b + s0, 1), Decision(b + s0 + 1, sign), Decision(b + s0 + 2 + sign, if Abs(v) > 1 then 1 else 0)]
      + if Abs(v) > 1 then SizeList(b + 20, Abs(v) - 1, 0) else []
  }

  /** Figures F.4 to F.9 with the bins of Table F.4. */
  lemma {:induction false} DcListed(tbl: Table, s0: DcContext, v: int, rest: Plan)
    requires Abs(v) < 0x1_0000
    ensures DcPlan(tbl, s0, v, rest) == Listed(DcList(tbl, s0, v), rest)
  {
    var b, sign: Bit := DcBin(tbl, 0), if v < 0 then 1 else 0;
    if v == 0 {
      ListedOne(Decision(b + s0, 0), [], rest);
    } else {
      var ds := if Abs(v) > 1 then SizeList(b + 20, Abs(v) - 1, 0) else [];
      if Abs(v) > 1 {
        SizeListed(b + 20, Abs(v) - 1, 0, rest);
      }
      var more: Bit := if Abs(v) > 1 then 1 else 0;
      ListedThree(Decision(b + s0, 1), Decision(b + s0 + 1, sign), Decision(b + s0 + 2 + sign, more), Listed(ds, rest));
      ListedBoth([Decision(b + s0, 1), Decision(b + s0 + 1, sign), Decision(b + s0 + 2 + sign, more)], ds, rest);
    }
  }

  // ----- AC coefficients -----

  /** The first position from k on with a nonzero coefficient. */
  function NextNonzero(c: Zigzag, k: nat, se: nat): (m: nat)
    requires k <= se < |c| && !AllZero(c, k, se)
    ensures k <= m <= se && c[m] != 0 && forall j :: k <= j < m ==> c[j] == 0
    decreases se - k
  {
    if c[k] != 0 then k else NextNonzero(c, k + 1, se)
  }

  /** The zeros at the positions k to m - 1, each in the second bin of its position. */
  function ZerosList(tbl: Table, k: nat, m: nat): (ds: seq<Decision>)
    requires 1 <= k <= m <= 63
  {
    seq(m - k, j requires 0 <= j < m - k => Decision(AcBin(tbl, 3 * (k + j - 1) + 1), 0))
  }

  /** The size less one of the coefficient v at position m. */
  function AcSizeList(tbl: Table, kx: nat, m: nat, v: Coef): (ds: seq<Decision>)
    requires 1 <= m <= 63 && v != 0
  {
    var x := AcBin(tbl, 3 * (m - 1) + 2);
    if Abs(v) == 1 then [Decision(x, 0)]
    else if Abs(v) == 2 then [Decision(x, 1), Decision(x, 0)]
    else [Decision(x, 1), Decision(x, 1)] + SizeList(AcBin(tbl, if m <= kx then 188 else 216), Abs(v) - 1, 1)
  }

  /** Not zero, the sign, and the size. */
  function AcValueList(tbl: Table, kx: nat, m: nat, v: Coef): (ds: seq<Decision>)
    requires 1 <= m <= 63 && v != 0
  {
    [Decision(AcBin(tbl, 3 * (m - 1) + 1), 1), Decision(FIXED_BIN, if v < 0 then 1 else 0)]
    + AcSizeList(tbl, kx, m, v)
  }

  /** No end of block at position k, zeros up to position m, and the coefficient there. */
  function AcStep(tbl: Table, kx: nat, c: Zigzag, k: nat, m: nat, next: Plan): (p: Plan)
    requires 1 <= k <= m <= 63 && m < |c| && c[m] != 0
  {
    Listed([Decision(AcBin(tbl, 3 * (k - 1)), 0)],
           Listed(ZerosList(tbl, k, m), Listed(AcValueList(tbl, kx, m, c[m]), next)))
  }

  /** A band from position k on: the end of block; or its absence, the zeros before the next coefficient,
      that coefficient, and the band after it. */
  function AcWritten(tbl: Table, kx: nat, c: Zigzag, k: nat, se: nat, rest: Plan): (p: Plan)
    requires 1 <= k <= se + 1 && se < |c|
    decreases se + 1 - k
  {
    if k > se then rest
    else if AllZero(c, k, se) then Listed([Decision(AcBin(tbl, 3 * (k - 1)), 1)], rest)
    else
      var m := NextNonzero(c, k, se);
      AcStep(tbl, kx, c, k, m, AcWritten(tbl, kx, c, m + 1, se, rest))
  }

  lemma {:induction false} AcSizeListed(tbl: Table, kx: nat, m: nat, v: Coef, rest: Plan)
    requires 1 <= m <= 63 && v != 0
    ensures Abs(v) <= 0x8000 && AcMagnitude(tbl, kx, m, Abs(v) - 1, rest) == Listed(AcSizeList(tbl, kx, m, v), rest)
  {
    var x, sz := AcBin(tbl, 3 * (m - 1) + 2), Abs(v) - 1;
    if sz == 0 {
      ListedOne(Decision(x, 0), [], rest);
    } else if sz == 1 {
      ListedTwo(Decision(x, 1), Decision(x, 0), rest);
    } else {
      var st := AcBin(tbl, if m <= kx then 188 else 216);
      SizeListed(st, sz, 1, rest);
      ListedTwo(Decision(x, 1), Decision(x, 1), Listed(SizeList(st, sz, 1), rest));
      ListedBoth([Decision(x, 1), Decision(x, 1)], SizeList(st, sz, 1), rest);
    }
  }

  lemma {:induction false} AcValueListed(tbl: Table, kx: nat, c: Zigzag, m: nat, se: nat, rest: Plan)
    requires 1 <= m <= se < |c| && c[m] != 0
    ensures AcRun(tbl, kx, c, m, se, rest) == Listed(AcValueList(tbl, kx, m, c[m]), AcPlan(tbl, kx, c, m + 1, se, rest))
  {
    var p, sign: Bit := AcPlan(tbl, kx, c, m + 1, se, rest), if c[m] < 0 then 1 else 0;
    var first := Decision(AcBin(tbl, 3 * (m - 1) + 1), 1);
    AcSizeListed(tbl, kx, m, c[m], p);
    ListedTwo(first, Decision(FIXED_BIN, sign), Listed(AcSizeList(tbl, kx, m, c[m]), p));
    ListedBoth([first, Decision(FIXED_BIN, sign)], AcSizeList(tbl, kx, m, c[m]), p);
  }

  lemma {:induction false} AcZerosListed(tbl: Table, kx: nat, c: Zigzag, k: nat, m: nat, se: nat, rest: Plan)
    requires 1 <= k <= m <= se < |c| && c[m] != 0 && forall j :: k <= j < m ==> c[j] == 0
    ensures !AllZero(c, k, se)
    ensures AcRun(tbl, kx, c, k, se, rest) == Listed(ZerosList(tbl, k, m), AcRun(tbl, kx, c, m, se, rest))
    decreases m - k
  {
    if k < m {
      var d := Decision(AcBin(tbl, 3 * (k - 1) + 1), 0);
      AcZerosListed(tbl, kx, c, k + 1, m, se, rest);
      assert ZerosList(tbl, k, m) == [d] + ZerosList(tbl, k + 1, m);
      ListedOne(d, ZerosList(tbl, k + 1, m), AcRun(tbl, kx, c, m, se, rest));
    }
  }

  lemma {:induction false} AcParts(tbl: Table, kx: nat, c: Zigzag, k: nat, m: nat, se: nat, rest: Plan)
    requires 1 <= k <= m <= se < |c| && c[m] != 0 && forall j :: k <= j < m ==> c[j] == 0
    ensures AcPlan(tbl, kx, c, k, se, rest)
         == AcStep(tbl, kx, c, k, m, AcPlan(tbl, kx, c, m + 1, se, rest))
  {
    AcValueListed(tbl, kx, c, m, se, rest);
    AcZerosListed(tbl, kx, c, k, m, se, rest);
    ListedOne(Decision(AcBin(tbl, 3 * (k - 1)), 0), [], Listed(ZerosList(tbl, k, m), AcRun(tbl, kx, c, m, se, rest)));
  }

  /** Figure F.5 with the bins of Table F.5. */
  lemma {:induction false} AcListed(tbl: Table, kx: nat, c: Zigzag, k: nat, se: nat, rest: Plan)
    requires 1 <= k <= se + 1 && se < |c|
    ensures AcPlan(tbl, kx, c, k, se, rest) == AcWritten(tbl, kx, c, k, se, rest)
    decreases se + 1 - k
  {
    if k <= se && !AllZero(c, k, se) {
      var m := NextNonzero(c, k, se);
      AcListed(tbl, kx, c, m + 1, se, rest);
      AcParts(tbl, kx, c, k, m, se, rest);
    } else {
      AcEndListed(tbl, kx, c, k, se, rest);
    }
  }

  lemma {:induction false} AcEndListed(tbl: Table, kx: nat, c: Zigzag, k: nat, se: nat, rest: Plan)
    requires 1 <= k <= se + 1 && se < |c| && (k > se || AllZero(c, k, se))
    ensures AcPlan(tbl, kx, c, k, se, rest) == AcWritten(tbl, kx, c, k, se, rest)
  {
    if k <= se {
      ListedOne(Decision(AcBin(tbl, 3 * (k - 1)), 1), [], rest);
    }
  }

  // ----- refinement of AC coefficients -----

  /** The coefficient v at position m: its last bit if it was nonzero before, else that it is new, and its
      sign. */
  function RefineValueList(tbl: Table, m: nat, v: Coef): (ds: seq<Decision>)
    requires 1 <= m <= 63 && v != 0
  {
    var st := AcBin(tbl, 3 * (m - 1));
    if Abs(v) >= 2 then [Decision(st + 2, Abs(v) % 2)]
    else [Decision(st + 1, 1), Decision(FIXED_BIN, if v < 0 then 1 else 0)]
  }

  /** That the band goes on, unless a coefficient that was nonzero before comes later and tells so. */
  function GoesOnList(tbl: Table, c: Zigzag, k: nat, se: nat): (ds: seq<Decision>)
    requires 1 <= k <= se < |c|
  {
    if exists j :: k <= j <= se && Abs(c[j]) >= 2 then [] else [Decision(AcBin(tbl, 3 * (k - 1)), 0)]
  }

  /** What says that the band goes on at position k, zeros up to position m, and the coefficient there. */
  function RefineStep(tbl: Table, c: Zigzag, k: nat, m: nat, se: nat, next: Plan): (p: Plan)
    requires 1 <= k <= m <= se < |c| && c[m] != 0
  {
    Listed(GoesOnList(tbl, c, k, se),
           Listed(ZerosList(tbl, k, m), Listed(RefineValueList(tbl, m, c[m]), next)))
  }

  /** A band from position k on: the end of block; or the zeros before the next coefficient, that
      coefficient, and the band after it. */
  function RefineWritten(tbl: Table, c: Zigzag, k: nat, se: nat, rest: Plan): (p: Plan)
    requires 1 <= k <= se + 1 && se < |c|
    decreases se + 1 - k
  {
    if k > se then rest
    else if AllZero(c, k, se) then Listed([Decision(AcBin(tbl, 3 * (k - 1)), 1)], rest)
    else
      var m := NextNonzero(c, k, se);
      RefineStep(tbl, c, k, m, se, RefineWritten(tbl, c, m + 1, se, rest))
  }

  lemma {:induction false} RefineValueListed(tbl: Table, m: nat, v: Coef, rest: Plan)
    requires 1 <= m <= 63 && v != 0
    ensures RefineOne(AcBin(tbl, 3 * (m - 1)), v, rest) == Listed(RefineValueList(tbl, m, v), rest)
  {
    var st, sign: Bit := AcBin(tbl, 3 * (m - 1)), if v < 0 then 1 else 0;
    if Abs(v) >= 2 {
      ListedOne(Decision(st + 2, Abs(v) % 2), [], rest);
    } else {
      ListedTwo(Decision(st + 1, 1), Decision(FIXED_BIN, sign), rest);
    }
  }

  lemma {:induction false} RefineZerosListed(tbl: Table, c: Zigzag, k: nat, m: nat, se: nat, rest: Plan)
    requires 1 <= k <= m <= se < |c| && c[m] != 0 && forall j :: k <= j < m ==> c[j] == 0
    ensures !AllZero(c, k, se)
    ensures RefineRun(tbl, c, k, se, rest) == Listed(ZerosList(tbl, k, m), RefineRun(tbl, c, m, se, rest))
    decreases m - k
  {
    if k < m {
      var d := Decision(AcBin(tbl, 3 * (k - 1) + 1), 0);
      RefineZerosListed(tbl, c, k + 1, m, se, rest);
      assert ZerosList(tbl, k, m) == [d] + ZerosList(tbl, k + 1, m);
      ListedOne(d, ZerosList(tbl, k + 1, m), RefineRun(tbl, c, m, se, rest));
    }
  }

  lemma {:induction false} GoesOnListed(tbl: Table, c: Zigzag, k: nat, se: nat, rest: Plan)
    requires 1 <= k <= se < |c| && !AllZero(c, k, se)
    ensures RefinePlan(tbl, c, k, se, rest) == Listed(GoesOnList(tbl, c, k, se), RefineRun(tbl, c, k, se, rest))
  {
    assert AllNew(c, k, se) <==> !exists j :: k <= j <= se && Abs(c[j]) >= 2;
    ListedOne(Decision(AcBin(tbl, 3 * (k - 1)), 0), [], RefineRun(tbl, c, k, se, rest));
  }

  lemma {:induction false} RefineParts(tbl: Table, c: Zigzag, k: nat, m: nat, se: nat, rest: Plan)
    requires 1 <= k <= m <= se < |c| && c[m] != 0 && forall j :: k <= j < m ==> c[j] == 0
    ensures RefinePlan(tbl, c, k, se, rest)
         == RefineStep(tbl, c, k, m, se, RefinePlan(tbl, c, m + 1, se, rest))
  {
    RefineZerosListed(tbl, c, k, m, se, rest);
    GoesOnListed(tbl, c, k, se, rest);
    RefineValueListed(tbl, m, c[m], RefinePlan(tbl, c, m + 1, se, rest));
  }

  /** Figure G.10. */
  lemma {:induction false} RefineListed(tbl: Table, c: Zigzag, k: nat, se: nat, rest: Plan)
    requires 1 <= k <= se + 1 && se < |c|
    ensures RefinePlan(tbl, c, k, se, rest) == RefineWritten(tbl, c, k, se, rest)
    decreases se + 1 - k
  {
    if k <= se && !AllZero(c, k, se) {
      var m := NextNonzero(c, k, se);
      RefineListed(tbl, c, m + 1, se, rest);
      RefineParts(tbl, c, k, m, se, rest);
    } else {
      RefineEndListed(tbl, c, k, se, rest);
    }
  }

  lemma {:induction false} RefineEndListed(tbl: Table, c: Zigzag, k: nat, se: nat, rest: Plan)
    requires 1 <= k <= se + 1 && se < |c| && (k > se || AllZero(c, k, se))
    ensures RefinePlan(tbl, c, k, se, rest) == RefineWritten(tbl, c, k, se, rest)
  {
    if k <= se {
      ListedOne(Decision(AcBin(tbl, 3 * (k - 1)), 1), [], rest);
    }
  }
}
