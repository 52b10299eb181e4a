/**
 The statistical model of sections F.1.4 and G.1.3 of ITU-T T.81: which binary decisions, in which
 bins, stand for a DC difference, for the AC coefficients of a block and for a refinement scan.
 The encoder emits exactly these lists and the decoder inverts them.
 */
module ArithModel {
  import opened AriTable
  import opened Numbers
  import opened IntervalCoder
  import opened Coefficients

  // ----- nonzero values -----

  function SignBit(v: int): (b: Bit) {
    if v < 0 then 1 else 0
  }

  // Every plan below takes the plan for what follows, so that plans are built front to back.

  /** The k low bits of sz, highest first, all in one bin. */
  function MagnitudeBits(ctx: Context, sz: nat, k: nat, rest: Plan): (p: Plan) {
    if k == 0 then rest else Next(Decision(ctx, Shr(sz, k - 1) % 2), MagnitudeBits(ctx, sz, k - 1, rest))
  }

  lemma {:induction false} SixteenBits(sz: nat, k: nat)
    requires sz < 0x1_0000 && k >= 16
    ensures Shr(sz, k) == 0
  {
    if k == 16 {
      ShlOctet(1, 8);
      Shl8(1);
      ShrZero(sz, 16);
    } else {
      SixteenBits(sz, k - 1);
    }
  }

  /** The category of sz in unary from 2^k on, in successive bins; then the bits below its first
      one, in the bin 14 further on. */
  function Category(st: nat, sz: nat, k: nat, rest: Plan): (p: Plan)
    requires st + 29 < BINS && sz < 0x1_0000 && Shr(sz, k) >= 1
    decreases Shr(sz, k)
  {
    assert k <= 15 by { if k >= 16 { SixteenBits(sz, k); } }
    if Shr(sz, k + 1) == 0 then Next(Decision(st + k, 0), MagnitudeBits(st + k + 14, sz, k, rest))
    else Next(Decision(st + k, 1), Category(st, sz, k + 1, rest))
  }

  // ----- DC differences -----

  type DcContext = i: nat | i <= 16

  /** The largest power of two in sz, or 0. */
  function Magnitude(sz: nat): (m: nat) {
    if sz <= 1 then sz else 2 * Magnitude(sz / 2)
  }

  lemma MagnitudeIsTop(sz: nat, k: nat)
    requires Shr(sz, k) >= 1 && Shr(sz, k + 1) == 0
    ensures Magnitude(sz) == Shl(1, k)
  {
    if k == 0 {
      assert Shr(sz, 1) == sz / 2;
    } else {
      ShrShr(sz, 1, k - 1);
      ShrShr(sz, 1, k);
      assert Shr(sz, 1) == sz / 2;
      MagnitudeIsTop(sz / 2, k - 1);
      ShrIsDiv(sz, k - 1);
    }
  }

  /** (1 << bound) >> 1, the form in which conditioning bounds are compared. */
  function Half(bound: nat): (h: int) {
    if bound == 0 then 0 else Shl(1, bound - 1)
  }

  /** Table F.4: the conditioning category that a difference v leaves for the next block. */
  function DcCategory(lower: nat, upper: nat, v: int): (ctx: DcContext) {
    if v == 0 then 0
    else
      var m := Magnitude(Abs(v) - 1);
      if m < Half(lower) then 0
      else if m > Half(upper) then if v > 0 then 12 else 16
      else if v > 0 then 4 else 8
  }

  /** Figures F.8 and F.9 for a DC magnitude, less one; first is its first bin. */
  function DcMagnitude(tbl: Table, first: Context, sz: nat, rest: Plan): (p: Plan)
    requires sz < 0x1_0000
  {
    if sz == 0 then Next(Decision(first, 0), rest)
    else Next(Decision(first, 1), Category(DcBin(tbl, 20), sz, 0, rest))
  }

  /** Sign and magnitude of the nonzero DC difference v. */
  function DcNonzero(tbl: Table, s0: DcContext, v: int, rest: Plan): (p: Plan)
    requires 1 <= Abs(v) < 0x1_0000
  {
    var first := DcBin(tbl, s0 + 2 + SignBit(v));
    Next(Decision(DcBin(tbl, s0 + 1), SignBit(v)), DcMagnitude(tbl, first, Abs(v) - 1, rest))
  }

  /** Figures F.4 to F.9 for a DC difference, conditioned by the category s0. */
  function DcPlan(tbl: Table, s0: DcContext, v: int, rest: Plan): (p: Plan)
    requires Abs(v) < 0x1_0000
  {
    if v == 0 then Next(Decision(DcBin(tbl, s0), 0), rest)
    else Next(Decision(DcBin(tbl, s0), 1), DcNonzero(tbl, s0, v, rest))
  }

  // ----- AC coefficients -----

  predicate AllZero(c: Zigzag, k: nat, se: nat)
    requires se < |c|
  {
    forall j :: k <= j <= se ==> c[j] == 0
  }

  /** Figures F.8 and F.9 for an AC magnitude, less one, at position k. */
  function AcMagnitude(tbl: Table, kx: nat, k: nat, sz: nat, rest: Plan): (p: Plan)
    requires 1 <= k <= 63 && sz < 0x8000
  {
    var st := AcBin(tbl, 3 * (k - 1) + 2);
    if sz == 0 then Next(Decision(st, 0), rest)
    else if sz == 1 then Next(Decision(st, 1), Next(Decision(st, 0), rest))
    else
      Next(Decision(st, 1), Next(Decision(st, 1), Category(AcBin(tbl, if k <= kx then 188 else 216), sz, 1, rest)))
  }

  /** Figure F.5 from position k on: an end-of-block decision, unless the band is complete. */
  function AcPlan(tbl: Table, kx: nat, c: Zigzag, k: nat, se: nat, rest: Plan): (p: Plan)
    requires 1 <= k <= se + 1 && se < |c|
    decreases se + 1 - k, 1
  {
    if k > se then rest
    else if AllZero(c, k, se) then Next(Decision(AcBin(tbl, 3 * (k - 1)), 1), rest)
    else Next(Decision(AcBin(tbl, 3 * (k - 1)), 0), AcRun(tbl, kx, c, k, se, rest))
  }

  /** A run of zeros up to a nonzero coefficient, and what follows it. */
  function AcRun(tbl: Table, kx: nat, c: Zigzag, k: nat, se: nat, rest: Plan): (p: Plan)
    requires 1 <= k <= se < |c| && !AllZero(c, k, se)
    decreases se + 1 - k, 0
  {
    var st := AcBin(tbl, 3 * (k - 1) + 1);
    if c[k] == 0 then Next(Decision(st, 0), AcRun(tbl, kx, c, k + 1, se, rest))
    else Next(Decision(st, 1), AcValue(tbl, kx, c, k, se, rest))
  }

  /** Sign and magnitude of the nonzero coefficient at position k, and what follows it. */
  function AcValue(tbl: Table, kx: nat, c: Zigzag, k: nat, se: nat, rest: Plan): (p: Plan)
    requires 1 <= k <= se < |c| && c[k] != 0
    decreases se + 1 - k, 0, 0
  {
    Next(Decision(FIXED_BIN, SignBit(c[k])),
         AcMagnitude(tbl, kx, k, Abs(c[k]) - 1, AcPlan(tbl, kx, c, k + 1, se, rest)))
  }

  // ----- refinement of AC coefficients -----

  /** No coefficient from k on was nonzero before the bit plane being coded. */
  predicate AllNew(c: Zigzag, k: nat, se: nat)
    requires se < |c|
  {
    forall j :: k <= j <= se ==> Abs(c[j]) <= 1
  }

  /** Figure G.10 from position k on: past the previous end of block there is an end-of-block
      decision, before it there is none. */
  function RefinePlan(tbl: Table, c: Zigzag, k: nat, se: nat, rest: Plan): (p: Plan)
    requires 1 <= k <= se + 1 && se < |c|
    decreases se + 1 - k, 1
  {
    var st := if k <= se then AcBin(tbl, 3 * (k - 1)) else 0;
    if k > se then rest
    else if AllZero(c, k, se) then Next(Decision(st, 1), rest)
    else if AllNew(c, k, se) then Next(Decision(st, 0), RefineRun(tbl, c, k, se, rest))
    else RefineRun(tbl, c, k, se, rest)
  }

  /** A correction bit for a coefficient that was nonzero before, a sign for a new one. */
  function RefineRun(tbl: Table, c: Zigzag, k: nat, se: nat, rest: Plan): (p: Plan)
    requires 1 <= k <= se < |c| && !AllZero(c, k, se)
    decreases se + 1 - k, 0
  {
    var st := AcBin(tbl, 3 * (k - 1));
    if c[k] == 0 then RefineOne(st, 0, RefineRun(tbl, c, k + 1, se, rest))
    else RefineOne(st, c[k], RefinePlan(tbl, c, k + 1, se, rest))
  }

  /** One coefficient of a refinement scan, with transformed value v, in the bins at st. */
  function RefineOne(st: Context, v: Coef, next: Plan): (p: Plan)
    requires st + 2 < BINS
  {
    if v == 0 then Next(Decision(st + 1, 0), next)
    else if Abs(v) >= 2 then Next(Decision(st + 2, Abs(v) % 2), next)
    else Next(Decision(st + 1, 1), Next(Decision(FIXED_BIN, SignBit(v)), next))
  }

  /** kex marks the previous end of block of the band: no coefficient after it was nonzero. */
  ghost predicate IsPreviousEnd(kex: nat, c: Zigzag, ss: nat, se: nat)
    requires se < |c|
  {
    forall k :: ss <= k <= se ==> (k > kex <==> AllNew(c, k, se))
  }

  /** v / 2, rounding towards zero. */
  function HalfTowardsZero(v: int): (h: int) {
    if v < 0 then -(-v / 2) else v / 2
  }

  /** What a decoder holds for the transformed coefficient v before bit plane al is sent. */
  function Previous(v: int, al: nat): (r: int) {
    Shl(HalfTowardsZero(v), al + 1)
  }

  /** What bit plane al adds to it. */
  function Correction(v: int, al: nat): (r: int) {
    if v % 2 == 0 then 0 else if v < 0 then Shl(-1, al) else Shl(1, al)
  }

  lemma ShlSign(v: int, k: nat)
    ensures Shl(v, k) == 0 <==> v == 0
    ensures Shl(v, k) < 0 <==> v < 0
  {
    ShlAdd(0, 0, k);
    ShlOrder(0, v, k);
    ShlOrder(v, 0, k);
  }

  lemma PreviousRefined(v: int, al: nat)
    ensures Previous(v, al) == 0 <==> Abs(v) <= 1
    ensures Previous(v, al) < 0 ==> v < 0
    ensures Previous(v, al) > 0 ==> v > 0
    ensures Shl(v, al) == Previous(v, al) + Correction(v, al)
  {
    var h := HalfTowardsZero(v);
    ShlSign(h, al + 1);
    ShlShl(h, 1, al);
    assert Shl(h, 1) == 2 * h;
    var r := if v % 2 == 0 then 0 else if v < 0 then -1 else 1;
    assert v == 2 * h + r;
    ShlAdd(2 * h, r, al);
    ShlSign(0, al);
  }

  // ----- which bins a decoder touches -----

  /** Every decision made since base was made with one of the n bins at area, or the fixed bin. */
  predicate Confined(h: History, base: History, area: nat, n: nat) {
    h == base ||
    (h.Then? && (area <= h.d.ctx < area + n || h.d.ctx == FIXED_BIN) && Confined(h.past, base, area, n))
  }

  lemma {:induction false} ConfinedTrans(h2: History, h1: History, h0: History, area: nat, n: nat)
    requires Confined(h2, h1, area, n) && Confined(h1, h0, area, n)
    ensures Confined(h2, h0, area, n)
  {
    if h2 != h1 {
      ConfinedTrans(h2.past, h1, h0, area, n);
    }
  }
}
