/**
 Decoding of coefficient blocks. Each routine works on any data whatsoever; a ghost argument names
 the value that the data may be known to hold, and the contract says it is then what comes out.
 */
module ArithBlockDecoding {
  import opened AriTable
  import opened Numbers
  import opened IntervalCoder
  import opened Coefficients
  import opened ArithModel
  import opened ArithDecoding

  /** Whether the category is more than k. */
  method DecodeCategoryBit(d: ArithDecoder, st: Context, ghost first: Context, ghost k: nat, ghost v: nat,
                           ghost rest: Plan, ghost area: nat, ghost n: nat)
    returns (bit: int)
    requires d.Valid() && d.ct != -1 && k <= 14 && st == first + k && area <= st && st + 14 < area + n
    requires area + n < BINS && first + 29 < BINS && v < 0x1_0000
    modifies d
    ensures d.Valid() && d.ct != -1 && 0 <= bit <= 1 && Confined(d.log, old(d.log), area, n)
    ensures Shr(v, k) >= 1 && old(Extend(d.log, Category(first, v, k, rest))) == d.expected ==>
              if bit == 0 then
                v < 0x8000 && Shr(v, k) == 1 && Extend(d.log, MagnitudeBits(st + 14, v, k, rest)) == d.expected
              else Shr(v, k + 1) >= 1 && Extend(d.log, Category(first, v, k + 1, rest)) == d.expected
  {
    ghost var exp := Shr(v, k) >= 1 && Extend(d.log, Category(first, v, k, rest)) == d.expected;
    ghost var more := Shr(v, k + 1) != 0;
    bit := d.ArithDecode(st, if more then 1 else 0,
                         if !more || Shr(v, k) < 1 then MagnitudeBits(st + 14, v, k, rest)
                         else Category(first, v, k + 1, rest));
    if bit == 0 && exp {
      Below(v, k);
    }
  }

  /** Figure F.23 from the bin st0 on: the category, as a power of two, of a magnitude less one. */
  method DecodeCategory(d: ArithDecoder, st0: Context, m0: int, ghost k0: nat, ghost v: nat, ghost rest: Plan,
                        ghost area: nat, ghost n: nat)
    returns (ok: bool, st: Context, m: int, ghost k: nat)
    requires d.Valid() && d.ct != -1 && k0 <= 1 && m0 == Shl(1, k0)
    requires k0 <= st0 && area + k0 <= st0 && st0 - k0 + 29 <= area + n && area + n < BINS
    requires v < 0x1_0000 && Shr(v, k0) >= 1
    modifies d
    ensures d.Valid() && ok == (d.ct != -1) && Confined(d.log, old(d.log), area, n)
    ensures ok ==> k0 <= k <= 14 && st == st0 - k0 + k && m == Shl(1, k)
    ensures old(Extend(d.log, Category(st0 - k0, v, k0, rest))) == d.expected ==>
              if v < 0x8000 then ok && Shr(v, k) == 1 && Extend(d.log, MagnitudeBits(st + 14, v, k, rest)) == d.expected
              else !ok
  {
    st, m, k, ok := st0, m0, k0, true;
    ghost var exp := Extend(d.log, Category(st0 - k0, v, k0, rest)) == d.expected;
    while true
      invariant d.Valid() && d.ct != -1 && Confined(d.log, old(d.log), area, n)
      invariant k0 <= k <= 14 && st == st0 - k0 + k && m == Shl(1, k)
      invariant exp ==> Shr(v, k) >= 1 && Extend(d.log, Category(st0 - k0, v, k, rest)) == d.expected
      decreases 15 - k
    {
      ghost var h := d.log;
      var bit := DecodeCategoryBit(d, st, st0 - k0, k, v, rest, area, n);
      ConfinedTrans(d.log, h, old(d.log), area, n);
      if bit == 0 {
        return;
      }
      m := 2 * m;
      if m == 0x8000 {
        if exp {
          AtLeast(v, k + 1);
        }
        d.ct := -1;
        ok := false;
        return;
      }
      PowerBelow(k);
      st := st + 1;
      k := k + 1;
    }
  }

  lemma PowerBelow(k: nat)
    requires k <= 14 && Shl(1, k + 1) != 0x8000
    ensures k <= 13
  {
    PowersUpTo15();
  }

  lemma Below(v: nat, k: nat)
    requires Shr(v, k) >= 1 && Shr(v, k + 1) == 0 && k <= 14
    ensures v < 0x8000
  {
    PowersUpTo15();
    ShrShl(v, k + 1);
    ShlAdd(0, 0, k + 1);
    if k < 14 {
      ShlGrows(k + 1, 15);
    }
  }

  lemma AtLeast(v: nat, k: nat)
    requires Shr(v, k) >= 1 && Shl(1, k) == 0x8000
    ensures v >= 0x8000
  {
    ShrShl(v, k);
    ShlOrder(1, Shr(v, k), k);
  }

  lemma {:induction false} ShlGrows(i: nat, j: nat)
    requires i <= j
    ensures 1 <= Shl(1, i) <= Shl(1, j)
    decreases j
  {
    if i < j {
      ShlGrows(i, j - 1);
    } else if j > 0 {
      ShlGrows(j - 1, j - 1);
    }
  }

  /** Figure F.24: the bits of a magnitude below its first one. */
  method DecodeMagnitudeBits(d: ArithDecoder, st: Context, m0: int, ghost k0: nat, ghost v: nat, ghost rest: Plan,
                             ghost area: nat, ghost n: nat)
    returns (r: int)
    requires d.Valid() && d.ct != -1 && area <= st < area + n
    requires m0 == Shl(1, k0) || (m0 == 0 && k0 == 0)
    modifies d
    ensures d.Valid() && d.ct != -1 && Confined(d.log, old(d.log), area, n)
    ensures m0 <= r && (r == 0 || r < 2 * m0)
    ensures && old(Extend(d.log, MagnitudeBits(st, v, k0, rest))) == d.expected
            && Shr(v, k0) == (if m0 == 0 then 0 else 1) ==>
              r == v && Extend(d.log, rest) == d.expected
  {
    ghost var exp := && Extend(d.log, MagnitudeBits(st, v, k0, rest)) == d.expected
                     && Shr(v, k0) == if m0 == 0 then 0 else 1;
    ShlGrows(k0, k0);
    r := m0;
    ghost var k := k0;
    var m := m0 / 2;
    while m != 0
      invariant d.Valid() && d.ct != -1 && Confined(d.log, old(d.log), area, n)
      invariant m == if k == 0 then 0 else Shl(1, k - 1)
      invariant m0 <= r && (m0 == 0 ==> r == 0) && (m0 > 0 ==> r <= 2 * m0 - Shl(1, k))
      invariant exp ==> r == Shl(Shr(v, k), k) && Extend(d.log, MagnitudeBits(st, v, k, rest)) == d.expected
      decreases k
    {
      var bit := d.ArithDecode(st, Shr(v, k - 1) % 2, MagnitudeBits(st, v, k - 1, rest));
      NextBit(v, k);
      ShlGrows(k - 1, k - 1);
      if bit == 1 {
        r := r + m;  // the bit m is still clear in r
      }
      m := m / 2;
      k := k - 1;
    }
    assert k == 0 by { if k > 0 { ShlGrows(k - 1, k - 1); } }
  }

  lemma NextBit(v: nat, k: nat)
    requires k > 0
    ensures Shl(Shr(v, k - 1), k - 1) == Shl(Shr(v, k), k) + if Shr(v, k - 1) % 2 == 1 then Shl(1, k - 1) else 0
  {
    var w := Shr(v, k - 1);
    ShlShl(w / 2, 1, k - 1);
    ShlAdd(2 * (w / 2), w % 2, k - 1);
    ShlAdd(0, 0, k - 1);
    assert Shl(w / 2, 1) == 2 * (w / 2);
  }

  /** Figure F.23 for a DC magnitude, less one; m is its category as a power of two, or 0. */
  method DecodeDcMagnitude(d: ArithDecoder, tbl: Table, first: Context, ghost v: nat, ghost rest: Plan)
    returns (ok: bool, m: int, st: Context, ghost k: nat)
    requires d.Valid() && d.ct != -1 && v < 0x1_0000 && DcBin(tbl, 0) <= first < DcBin(tbl, 20)
    modifies d
    ensures d.Valid() && ok == (d.ct != -1) && Confined(d.log, old(d.log), DcBin(tbl, 0), 49)
    ensures ok ==> DcBin(tbl, 0) <= st < DcBin(tbl, 35) && k <= 14 && (m == Shl(1, k) || (m == 0 && k == 0))
    ensures old(Extend(d.log, DcMagnitude(tbl, first, v, rest))) == d.expected ==>
              if v < 0x8000 then
                && ok && m == Magnitude(v) && Shr(v, k) == (if m == 0 then 0 else 1)
                && Extend(d.log, MagnitudeBits(st + 14, v, k, rest)) == d.expected
              else !ok
  {
    ok, m, st, k := true, 0, first, 0;
    ghost var v1 := if v == 0 then 1 else v;
    var bit := d.ArithDecode(st, if v == 0 then 0 else 1,
                             if v == 0 then rest else Category(DcBin(tbl, 20), v1, 0, rest));
    if bit != 0 {
      ghost var h := d.log;
      ok, st, m, k := DecodeCategory(d, DcBin(tbl, 20), 1, 0, v1, rest, DcBin(tbl, 0), 49);
      ConfinedTrans(d.log, h, old(d.log), DcBin(tbl, 0), 49);
      ShlGrows(k, k);
      if ok && Shr(v, k) == 1 {
        MagnitudeIsTop(v, k);
      }
    }
  }

  /** The size of a nonzero DC difference, and the leading bit m of its magnitude. */
  method DecodeDcSize(d: ArithDecoder, tbl: Table, first: Context, ghost sz: nat, ghost rest: Plan)
    returns (ok: bool, m: int, v: int)
    requires d.Valid() && d.ct != -1 && sz < 0x1_0000 && DcBin(tbl, 0) <= first < DcBin(tbl, 20)
    modifies d
    ensures d.Valid() && ok == (d.ct != -1) && Confined(d.log, old(d.log), DcBin(tbl, 0), 49)
    ensures ok ==> 1 <= v <= 0x8000
    ensures old(Extend(d.log, DcMagnitude(tbl, first, sz, rest))) == d.expected ==>
              if sz < 0x8000 then ok && m == Magnitude(sz) && v == sz + 1 && Extend(d.log, rest) == d.expected else !ok
  {
    ghost var area, h := DcBin(tbl, 0), d.log;
    var st;
    ghost var k;
    v := 0;
    ok, m, st, k := DecodeDcMagnitude(d, tbl, first, sz, rest);
    if !ok {
      return;
    }
    ghost var h1 := d.log;
    v := DecodeMagnitudeBits(d, st + 14, m, k, sz, rest, area, 49);
    ConfinedTrans(d.log, h1, h, area, 49);
    PowersUpTo15();
    ShlGrows(k, 14);
    v := v + 1;
  }

  /** The conditioning category of a nonzero difference, from its sign and leading magnitude bit. */
  method ConditionOf(m: int, sign: int, lower: nat, upper: nat) returns (context: DcContext)
    requires 0 <= sign <= 1
    ensures forall v :: v != 0 && Magnitude(Abs(v) - 1) == m && SignBit(v) == sign ==>
              context == DcCategory(lower, upper, v)
  {
    if m < Half(lower) {
      context := 0;
    } else if m > Half(upper) {
      context := 12 + sign * 4;
    } else {
      context := 4 + sign * 4;
    }
  }

  /** The sign, magnitude and conditioning category of a nonzero DC difference. */
  method DecodeDcNonzero(d: ArithDecoder, tbl: Table, s0: DcContext, lower: nat, upper: nat, ghost v0: int,
                         ghost rest: Plan)
    returns (ok: bool, v: int, context: DcContext)
    requires d.Valid() && d.ct != -1 && 1 <= Abs(v0) < 0x1_0000
    modifies d
    ensures d.Valid() && ok == (d.ct != -1) && Confined(d.log, old(d.log), DcBin(tbl, 0), 49)
    ensures ok ==> Abs(v) <= 0x8000
    ensures old(Extend(d.log, DcNonzero(tbl, s0, v0, rest))) == d.expected ==>
              if Abs(v0) <= 0x8000 then
                ok && v == v0 && context == DcCategory(lower, upper, v0) && Extend(d.log, rest) == d.expected
              else !ok
  {
    ghost var area, h, sz := DcBin(tbl, 0), d.log, Abs(v0) - 1;
    var st := DcBin(tbl, s0);
    v, context := 0, 0;
    var sign: int := d.ArithDecode(st + 1, SignBit(v0), DcMagnitude(tbl, st + 2 + SignBit(v0), sz, rest));
    st := st + 2 + sign;
    var m;
    ghost var h1 := d.log;
    ok, m, v := DecodeDcSize(d, tbl, st, sz, rest);
    ConfinedTrans(d.log, h1, h, area, 49);
    if !ok {
      return;
    }
    context := ConditionOf(m, sign, lower, upper);
    if sign == 1 {
      v := -v;
    }
  }

  /** Decode a DC difference and establish the conditioning category for the next block. */
  method DecodeDcDiff(d: ArithDecoder, tbl: Table, s0: DcContext, lower: nat, upper: nat, ghost v0: int,
                      ghost rest: Plan)
    returns (ok: bool, v: int, context: DcContext)
    requires d.Valid() && d.ct != -1 && Abs(v0) < 0x1_0000
    modifies d
    ensures d.Valid() && ok == (d.ct != -1) && Confined(d.log, old(d.log), DcBin(tbl, 0), 49)
    ensures ok ==> Abs(v) <= 0x8000
    ensures old(Extend(d.log, DcPlan(tbl, s0, v0, rest))) == d.expected ==>
              if Abs(v0) <= 0x8000 then
                ok && v == v0 && context == DcCategory(lower, upper, v0) && Extend(d.log, rest) == d.expected
              else !ok
  {
    ok, v, context := true, 0, 0;
    ghost var v1 := if v0 == 0 then 1 else v0;
    var bit := d.ArithDecode(DcBin(tbl, s0), if v0 == 0 then 0 else 1,
                             if v0 == 0 then rest else DcNonzero(tbl, s0, v1, rest));
    if bit != 0 {
      ghost var h := d.log;
      ok, v, context := DecodeDcNonzero(d, tbl, s0, lower, upper, v1, rest);
      ConfinedTrans(d.log, h, old(d.log), DcBin(tbl, 0), 49);
    }
  }

  /** Figures F.23 and F.24 for the AC magnitude at position k; sz is the value it may hold, less one. */
  method DecodeAcMagnitude(d: ArithDecoder, tbl: Table, kx: nat, k: nat, ghost sz: nat, ghost rest: Plan)
    returns (ok: bool, v: int)
    requires d.Valid() && d.ct != -1 && 1 <= k <= 63 && sz < 0x8000
    modifies d
    ensures d.Valid() && ok == (d.ct != -1) && Confined(d.log, old(d.log), AcBin(tbl, 0), 245)
    ensures ok ==> 1 <= v <= 0x8000
    ensures old(Extend(d.log, AcMagnitude(tbl, kx, k, sz, rest))) == d.expected ==>
              ok && v == sz + 1 && Extend(d.log, rest) == d.expected
  {
    ghost var area, h, x := AcBin(tbl, 0), d.log, AcBin(tbl, if k <= kx then 188 else 216);
    var st, m := AcBin(tbl, 3 * (k - 1) + 2), 0;
    ghost var n, h1 := 0, h;
    ghost var sz1 := if sz < 2 then 2 else sz;
    assert Shr(sz1, 1) == sz1 / 2;
    ok, v := true, 0;
    var bit := d.ArithDecode(st, if sz == 0 then 0 else 1,
                             if sz == 0 then rest
                             else if sz == 1 then Next(Decision(st, 0), rest)
                             else Next(Decision(st, 1), Category(x, sz1, 1, rest)));
    if bit != 0 {
      m := 1;
      bit := d.ArithDecode(st, if sz <= 1 then 0 else 1, if sz <= 1 then rest else Category(x, sz1, 1, rest));
      if bit != 0 {
        h1 := d.log;
        ok, st, m, n := DecodeCategory(d, AcBin(tbl, if k <= kx then 189 else 217), 2 * m, 1, sz1, rest, area, 245);
        ConfinedTrans(d.log, h1, h, area, 245);
        if !ok {
          return;
        }
      }
    }
    h1 := d.log;
    v := DecodeMagnitudeBits(d, st + 14, m, n, sz, rest, area, 245);
    ConfinedTrans(d.log, h1, h, area, 245);
    PowersUpTo15();
    ShlGrows(n, 14);
    v := v + 1;
  }

  /** A run of zeros from position k0 on and the nonzero coefficient that ends it, at position k. */
  method DecodeRun(d: ArithDecoder, tbl: Table, kx: nat, k0: nat, se: nat, ghost c: Zigzag, ghost rest: Plan)
    returns (ok: bool, k: nat)
    requires d.Valid() && d.ct != -1 && 1 <= k0 <= se < |c|
    modifies d
    ensures d.Valid() && ok == (d.ct != -1) && Confined(d.log, old(d.log), AcBin(tbl, 0), 245)
    ensures ok ==> k0 <= k <= se
    ensures !AllZero(c, k0, se) && old(Extend(d.log, AcRun(tbl, kx, c, k0, se, rest))) == d.expected ==>
              && ok
              && c[k] != 0
              && (forall j :: k0 <= j < k ==> c[j] == 0)
              && Extend(d.log, AcValue(tbl, kx, c, k, se, rest)) == d.expected
  {
    ghost var exp := !AllZero(c, k0, se) && Extend(d.log, AcRun(tbl, kx, c, k0, se, rest)) == d.expected;
    k, ok := k0, true;
    var st := AcBin(tbl, 3 * (k - 1));
    while true
      invariant d.Valid() && d.ct != -1 && Confined(d.log, old(d.log), AcBin(tbl, 0), 245)
      invariant k0 <= k <= se && st == AcBin(tbl, 3 * (k - 1))
      invariant exp ==>
                  && !AllZero(c, k, se)
                  && (forall j :: k0 <= j < k ==> c[j] == 0)
                  && Extend(d.log, AcRun(tbl, kx, c, k, se, rest)) == d.expected
      decreases se - k
    {
      var bit := d.ArithDecode(st + 1, if c[k] == 0 then 0 else 1,
                               if AllZero(c, k, se) then rest
                               else if c[k] == 0 then AcRun(tbl, kx, c, k + 1, se, rest)
                               else AcValue(tbl, kx, c, k, se, rest));
      if bit != 0 {
        return;
      }
      st := st + 3;
      k := k + 1;
      if k > se {
        d.ct := -1;
        ok := false;
        return;
      }
    }
  }

  /** The next nonzero coefficient from position k0 on: its position and value. */
  method DecodeCoefficient(d: ArithDecoder, tbl: Table, kx: nat, k0: nat, se: nat, ghost c: Zigzag, ghost rest: Plan)
    returns (ok: bool, k: nat, v: int)
    requires d.Valid() && d.ct != -1 && 1 <= k0 <= se < |c|
    modifies d
    ensures d.Valid() && ok == (d.ct != -1) && Confined(d.log, old(d.log), AcBin(tbl, 0), 245)
    ensures ok ==> k0 <= k <= se
    ensures !AllZero(c, k0, se) && old(Extend(d.log, AcRun(tbl, kx, c, k0, se, rest))) == d.expected ==>
              && ok
              && v == c[k]
              && (forall j :: k0 <= j < k ==> c[j] == 0)
              && Extend(d.log, AcPlan(tbl, kx, c, k + 1, se, rest)) == d.expected
  {
    ghost var h, area := d.log, AcBin(tbl, 0);
    v := 0;
    ok, k := DecodeRun(d, tbl, kx, k0, se, c, rest);
    if !ok {
      return;
    }
    ghost var sz := if c[k] == 0 then 0 else Abs(c[k]) - 1;
    ghost var next := AcPlan(tbl, kx, c, k + 1, se, rest);
    var sign := d.ArithDecode(FIXED_BIN, SignBit(c[k]), AcMagnitude(tbl, kx, k, sz, next));
    ghost var h1 := d.log;
    ok, v := DecodeAcMagnitude(d, tbl, kx, k, sz, next);
    ConfinedTrans(d.log, h1, h, area, 245);
    if sign == 1 {
      v := -v;
    }
  }

  /** Up to position k the band of block holds c scaled by al; from k on it is zero. */
  ghost predicate DecodedTo(block: CoefBlock, order: seq<nat>, c: Zigzag, ss: nat, k: nat, se: nat, al: nat)
    requires IsOrder(order, se) && |c| == se + 1
  {
    forall j :: ss <= j <= se ==> block[order[j]] == if j < k then ToCoef(Shl(c[j], al)) else 0
  }

  lemma CoefficientStored(block: CoefBlock, order: seq<nat>, c: Zigzag, ss: nat, k0: nat, k: nat, se: nat, al: nat)
    requires IsOrder(order, se) && |c| == se + 1 && ss <= k0 <= k <= se && DecodedTo(block, order, c, ss, k0, se, al)
    requires forall j :: k0 <= j < k ==> c[j] == 0
    ensures DecodedTo(block[order[k] := ToCoef(Shl(c[k], al))], order, c, ss, k + 1, se, al)
  {
    ZeroShift(al);
  }

  lemma BandEnded(block: CoefBlock, order: seq<nat>, c: Zigzag, ss: nat, k: nat, se: nat, al: nat)
    requires IsOrder(order, se) && |c| == se + 1 && ss <= k <= se + 1 && DecodedTo(block, order, c, ss, k, se, al)
    requires AllZero(c, k, se)
    ensures DecodedTo(block, order, c, ss, se + 1, se, al)
  {
    ZeroShift(al);
  }

  /** Only the band of the block has changed. */
  ghost predicate SameOutside(block: CoefBlock, before: CoefBlock, order: seq<nat>, ss: nat, se: nat)
    requires IsOrder(order, se)
  {
    forall i :: 0 <= i < 64 && (forall k :: ss <= k <= se ==> order[k] != i) ==> block[i] == before[i]
  }

  lemma StoredInside(block: CoefBlock, before: CoefBlock, order: seq<nat>, ss: nat, se: nat, k: nat, v: Coef)
    requires IsOrder(order, se) && ss <= k <= se && SameOutside(block, before, order, ss, se)
    ensures SameOutside(block[order[k] := v], before, order, ss, se)
  {
  }

  /** Figure F.20: decode the coefficients of the band ss to se and store them, scaled by al. If
      the band was zero beforehand it then holds the coefficients c that the data may hold. */
  method DecodeAcBand(d: ArithDecoder, tbl: Table, kx: nat, block: array<Coef>, order: seq<nat>, ss: nat, se: nat,
                      al: nat, ghost c: Zigzag, ghost rest: Plan)
    returns (ok: bool)
    requires d.Valid() && d.ct != -1 && IsOrder(order, se) && 1 <= ss <= se + 1 && |c| == se + 1 && block.Length == 64
    modifies d, block
    ensures d.Valid() && ok == (d.ct != -1) && Confined(d.log, old(d.log), AcBin(tbl, 0), 245)
    ensures SameOutside(block[..], old(block[..]), order, ss, se)
    ensures old(&& DecodedTo(block[..], order, c, ss, ss, se, al)
                && Extend(d.log, AcPlan(tbl, kx, c, ss, se, rest)) == d.expected) ==>
              ok && Extend(d.log, rest) == d.expected && DecodedTo(block[..], order, c, ss, se + 1, se, al)
  {
    ghost var h, area := d.log, AcBin(tbl, 0);
    ghost var exp := && DecodedTo(block[..], order, c, ss, ss, se, al)
                     && Extend(d.log, AcPlan(tbl, kx, c, ss, se, rest)) == d.expected;
    var k := ss;
    ok := true;
    while k <= se
      invariant d.Valid() && ok && d.ct != -1 && Confined(d.log, h, area, 245) && ss <= k <= se + 1
      invariant SameOutside(block[..], old(block[..]), order, ss, se)
      invariant exp ==>
                  && Extend(d.log, AcPlan(tbl, kx, c, k, se, rest)) == d.expected
                  && DecodedTo(block[..], order, c, ss, k, se, al)
    {
      ghost var none, k0 := AllZero(c, k, se), k;
      var bit := d.ArithDecode(AcBin(tbl, 3 * (k - 1)), if none then 1 else 0,
                               if none then rest else AcRun(tbl, kx, c, k, se, rest));
      if bit != 0 {
        if exp {
          BandEnded(block[..], order, c, ss, k, se, al);
        }
        return;
      }
      ghost var h1 := d.log;
      var v;
      ok, k, v := DecodeCoefficient(d, tbl, kx, k, se, c, rest);
      ConfinedTrans(d.log, h1, h, area, 245);
      if !ok {
        return;
      }
      if exp {
        CoefficientStored(block[..], order, c, ss, k0, k, se, al);
      }
      StoredInside(block[..], old(block[..]), order, ss, se, k, ToCoef(Shl(v, al)));
      block[order[k]] := ToCoef(Shl(v, al));
      k := k + 1;
    }
  }

  lemma {:induction false} ZeroShift(k: nat)
    ensures Shl(0, k) == 0
  {
    if k > 0 {
      ZeroShift(k - 1);
    }
  }

  /** One coefficient of a refinement scan: corrected if it is nonzero, else perhaps newly nonzero. */
  method DecodeRefineOne(d: ArithDecoder, st: Context, coef: Coef, al: nat, ghost c: Coef, ghost next: Plan,
                         ghost area: nat, ghost n: nat)
    returns (done: bool, v: int)
    requires d.Valid() && d.ct != -1 && area <= st && st + 2 < area + n && area + n < BINS
    modifies d
    ensures d.Valid() && d.ct != -1 && Confined(d.log, old(d.log), area, n)
    ensures coef == Previous(c, al) && old(Extend(d.log, RefineOne(st, c, next))) == d.expected ==>
              done == (c != 0) && v == Shl(c, al) && Extend(d.log, next) == d.expected
  {
    var p1, m1 := Shl(1, al), Shl(-1, al);
    PreviousRefined(c, al);
    done, v := true, coef;
    if coef != 0 {
      var bit := d.ArithDecode(st + 2, Abs(c) % 2, next);
      if bit != 0 {
        v := if v < 0 then v + m1 else v + p1;
      }
    } else {
      var bit := d.ArithDecode(st + 1, if c == 0 then 0 else 1,
                               if c == 0 then next else Next(Decision(FIXED_BIN, SignBit(c)), next));
      if bit != 0 {
        var sign := d.ArithDecode(FIXED_BIN, SignBit(c), next);
        v := if sign != 0 then m1 else p1;
      } else {
        done := false;
        ShlSign(c, al);
      }
    }
  }

  /** The block holds the bit planes above al of the coefficients c, from position k on. */
  ghost predicate HoldsPlanes(block: array<Coef>, order: seq<nat>, c: Zigzag, k: nat, se: nat, al: nat)
    requires IsOrder(order, se) && |c| == se + 1 && block.Length == 64
    reads block
  {
    forall j :: k <= j <= se ==> block[order[j]] == Previous(c[j], al)
  }

  /** The coefficient at position k, in a run of zeros. */
  method DecodeRefineAt(d: ArithDecoder, tbl: Table, st: Context, coef: Coef, ghost k: nat, ghost se: nat, al: nat,
                        ghost c: Zigzag, ghost rest: Plan)
    returns (done: bool, v: int)
    requires d.Valid() && d.ct != -1 && 1 <= k <= se <= 63 && |c| == se + 1
    requires st == AcBin(tbl, 3 * (k - 1))
    modifies d
    ensures d.Valid() && d.ct != -1 && Confined(d.log, old(d.log), AcBin(tbl, 0), 245)
    ensures && !AllZero(c, k, se) && coef == Previous(c[k], al)
            && old(Extend(d.log, RefineRun(tbl, c, k, se, rest))) == d.expected ==>
              && done == (c[k] != 0) && v == Shl(c[k], al)
              && if done then Extend(d.log, RefinePlan(tbl, c, k + 1, se, rest)) == d.expected
                 else !AllZero(c, k + 1, se) && Extend(d.log, RefineRun(tbl, c, k + 1, se, rest)) == d.expected
  {
    ghost var next := if AllZero(c, k, se) then rest
                      else if c[k] == 0 then RefineRun(tbl, c, k + 1, se, rest)
                      else RefinePlan(tbl, c, k + 1, se, rest);
    done, v := DecodeRefineOne(d, st, coef, al, c[k], next, AcBin(tbl, 0), 245);
  }

  /** Zeros from position k0 on, and the next coefficient at position k: its new value. */
  method DecodeRefineRun(d: ArithDecoder, tbl: Table, block: array<Coef>, order: seq<nat>, k0: nat, se: nat, al: nat,
                         ghost c: Zigzag, ghost rest: Plan)
    returns (ok: bool, k: nat, v: int)
    requires d.Valid() && d.ct != -1 && IsOrder(order, se) && 1 <= k0 <= se && |c| == se + 1 && block.Length == 64
    modifies d
    ensures d.Valid() && ok == (d.ct != -1) && Confined(d.log, old(d.log), AcBin(tbl, 0), 245)
    ensures ok ==> k0 <= k <= se
    ensures && !AllZero(c, k0, se)
            && HoldsPlanes(block, order, c, k0, se, al)
            && old(Extend(d.log, RefineRun(tbl, c, k0, se, rest))) == d.expected ==>
              && ok && v == Shl(c[k], al) && (forall j :: k0 <= j < k ==> c[j] == 0)
              && Extend(d.log, RefinePlan(tbl, c, k + 1, se, rest)) == d.expected
  {
    ghost var h, area := d.log, AcBin(tbl, 0);
    ghost var exp := && !AllZero(c, k0, se)
                     && HoldsPlanes(block, order, c, k0, se, al)
                     && Extend(d.log, RefineRun(tbl, c, k0, se, rest)) == d.expected;
    k, ok := k0, true;
    var st := AcBin(tbl, 3 * (k - 1));
    while true
      invariant d.Valid() && d.ct != -1 && Confined(d.log, h, area, 245)
      invariant k0 <= k <= se && st == AcBin(tbl, 3 * (k - 1))
      invariant exp ==>
                  && !AllZero(c, k, se)
                  && (forall j :: k0 <= j < k ==> c[j] == 0)
                  && Extend(d.log, RefineRun(tbl, c, k, se, rest)) == d.expected
      decreases se - k
    {
      ghost var h1 := d.log;
      var done;
      done, v := DecodeRefineAt(d, tbl, st, block[order[k]], k, se, al, c, rest);
      ConfinedTrans(d.log, h1, h, area, 245);
      if done {
        return;
      }
      st := st + 3;
      k := k + 1;
      if k > se {
        d.ct := -1;
        ok := false;
        return;
      }
    }
  }

  /** The last position with a nonzero coefficient, or 0. */
  method FindNonzero(block: array<Coef>, order: seq<nat>, se: nat) returns (kex: nat)
    requires IsOrder(order, se) && block.Length == 64
    ensures kex <= se && (forall j :: kex < j <= se ==> block[order[j]] == 0) && (kex > 0 ==> block[order[kex]] != 0)
  {
    kex := se;
    while kex > 0
      invariant kex <= se && forall j :: kex < j <= se ==> block[order[j]] == 0
    {
      if block[order[kex]] != 0 {
        break;
      }
      kex := kex - 1;
    }
  }

  lemma PreviousEnd(block: array<Coef>, order: seq<nat>, c: Zigzag, ss: nat, se: nat, al: nat, kex: nat)
    requires IsOrder(order, se) && 1 <= ss <= se && |c| == se + 1 && block.Length == 64
    requires HoldsPlanes(block, order, c, ss, se, al)
    requires kex <= se && (forall j :: kex < j <= se ==> block[order[j]] == 0) && (kex > 0 ==> block[order[kex]] != 0)
    ensures IsPreviousEnd(kex, c, ss, se)
  {
    forall j | ss <= j <= se ensures block[order[j]] == 0 <==> Abs(c[j]) <= 1 {
      PreviousRefined(c[j], al);
    }
  }

  /** The end-of-block decision, if there is one at k, and otherwise the next coefficient. */
  method DecodeRefineNext(d: ArithDecoder, tbl: Table, block: array<Coef>, order: seq<nat>, k0: nat, kex: nat, se: nat,
                          al: nat, ghost c: Zigzag, ghost rest: Plan)
    returns (ok: bool, eob: bool, k: nat, v: int)
    requires d.Valid() && d.ct != -1 && IsOrder(order, se) && 1 <= k0 <= se && |c| == se + 1 && block.Length == 64
    modifies d
    ensures d.Valid() && ok == (d.ct != -1) && Confined(d.log, old(d.log), AcBin(tbl, 0), 245)
    ensures ok ==> k0 <= k <= se
    ensures && (k0 > kex <==> AllNew(c, k0, se))
            && HoldsPlanes(block, order, c, k0, se, al)
            && old(Extend(d.log, RefinePlan(tbl, c, k0, se, rest))) == d.expected ==>
              && ok && eob == AllZero(c, k0, se)
              && if eob then Extend(d.log, rest) == d.expected
                 else && v == Shl(c[k], al) && (forall j :: k0 <= j < k ==> c[j] == 0)
                      && Extend(d.log, RefinePlan(tbl, c, k + 1, se, rest)) == d.expected
  {
    ghost var h, none := d.log, AllZero(c, k0, se);
    ok, eob, k, v := true, false, k0, 0;
    if k > kex {
      var bit := d.ArithDecode(AcBin(tbl, 3 * (k - 1)), if none then 1 else 0,
                               if none then rest else RefineRun(tbl, c, k, se, rest));
      if bit != 0 {
        eob := true;
        return;
      }
    }
    ghost var h1 := d.log;
    ok, k, v := DecodeRefineRun(d, tbl, block, order, k, se, al, c, rest);
    ConfinedTrans(d.log, h1, h, AcBin(tbl, 0), 245);
  }

  /** Up to position k the band of block holds c with bit plane al; from k on, without it. */
  ghost predicate RefinedTo(block: CoefBlock, order: seq<nat>, c: Zigzag, ss: nat, k: nat, se: nat, al: nat)
    requires IsOrder(order, se) && |c| == se + 1
  {
    forall j :: ss <= j <= se ==> block[order[j]] == if j < k then ToCoef(Shl(c[j], al)) else Previous(c[j], al)
  }

  /** Zeros up to position k need no bits, and the coefficient at k is stored. */
  lemma RefineStored(block: CoefBlock, order: seq<nat>, c: Zigzag, ss: nat, k0: nat, k: nat, se: nat, al: nat)
    requires IsOrder(order, se) && |c| == se + 1 && ss <= k0 <= k <= se && RefinedTo(block, order, c, ss, k0, se, al)
    requires forall j :: k0 <= j < k ==> c[j] == 0
    ensures RefinedTo(block[order[k] := ToCoef(Shl(c[k], al))], order, c, ss, k + 1, se, al)
  {
    ZeroShift(al);
    ZeroShift(al + 1);
  }

  lemma RefineEnded(block: CoefBlock, order: seq<nat>, c: Zigzag, ss: nat, k: nat, se: nat, al: nat)
    requires IsOrder(order, se) && |c| == se + 1 && ss <= k <= se + 1 && RefinedTo(block, order, c, ss, k, se, al)
    requires AllZero(c, k, se)
    ensures RefinedTo(block, order, c, ss, se + 1, se, al)
  {
    ZeroShift(al);
    ZeroShift(al + 1);
  }

  /** One round of the loop below: an end of block, or the next coefficient, which is stored. */
  method DecodeRefineStep(d: ArithDecoder, tbl: Table, block: array<Coef>, order: seq<nat>, ss: nat, k0: nat, kex: nat,
                          se: nat, al: nat,
                          ghost before: CoefBlock, ghost c: Zigzag, ghost rest: Plan)
    returns (ok: bool, eob: bool, k: nat)
    requires d.Valid() && d.ct != -1 && IsOrder(order, se) && 1 <= ss <= k0 <= se && |c| == se + 1 && block.Length == 64
    requires SameOutside(block[..], before, order, ss, se)
    modifies d, block
    ensures d.Valid() && ok == (d.ct != -1) && Confined(d.log, old(d.log), AcBin(tbl, 0), 245)
    ensures SameOutside(block[..], before, order, ss, se) && (ok && !eob ==> k0 < k <= se + 1)
    ensures && IsPreviousEnd(kex, c, ss, se)
            && old(&& RefinedTo(block[..], order, c, ss, k0, se, al)
                   && Extend(d.log, RefinePlan(tbl, c, k0, se, rest)) == d.expected) ==>
              ok && if eob then Extend(d.log, rest) == d.expected && RefinedTo(block[..], order, c, ss, se + 1, se, al)
                    else && Extend(d.log, RefinePlan(tbl, c, k, se, rest)) == d.expected
                         && RefinedTo(block[..], order, c, ss, k, se, al)
  {
    ghost var exp := && IsPreviousEnd(kex, c, ss, se)
                     && RefinedTo(block[..], order, c, ss, k0, se, al)
                     && Extend(d.log, RefinePlan(tbl, c, k0, se, rest)) == d.expected;
    var v;
    ok, eob, k, v := DecodeRefineNext(d, tbl, block, order, k0, kex, se, al, c, rest);
    if ok {
      if eob {
        if exp {
          RefineEnded(block[..], order, c, ss, k0, se, al);
        }
      } else {
        if exp {
          RefineStored(block[..], order, c, ss, k0, k, se, al);
        }
        StoredInside(block[..], before, order, ss, se, k, ToCoef(v));
        block[order[k]] := ToCoef(v);
        k := k + 1;
      }
    }
  }

  /** The coefficients of the band, given where the previous end of block was. */
  method DecodeRefineFrom(d: ArithDecoder, tbl: Table, block: array<Coef>, order: seq<nat>, ss: nat, kex: nat, se: nat,
                          al: nat, ghost c: Zigzag, ghost rest: Plan)
    returns (ok: bool)
    requires d.Valid() && d.ct != -1 && IsOrder(order, se) && 1 <= ss <= se && |c| == se + 1 && block.Length == 64
    modifies d, block
    ensures d.Valid() && ok == (d.ct != -1) && Confined(d.log, old(d.log), AcBin(tbl, 0), 245)
    ensures SameOutside(block[..], old(block[..]), order, ss, se)
    ensures && IsPreviousEnd(kex, c, ss, se)
            && old(&& RefinedTo(block[..], order, c, ss, ss, se, al)
                   && Extend(d.log, RefinePlan(tbl, c, ss, se, rest)) == d.expected) ==>
              ok && Extend(d.log, rest) == d.expected && RefinedTo(block[..], order, c, ss, se + 1, se, al)
  {
    ghost var h := d.log;
    ghost var exp := && IsPreviousEnd(kex, c, ss, se)
                     && RefinedTo(block[..], order, c, ss, ss, se, al)
                     && Extend(d.log, RefinePlan(tbl, c, ss, se, rest)) == d.expected;
    ok := true;
    var k := ss;
    while k <= se
      invariant d.Valid() && ok && d.ct != -1 && Confined(d.log, h, AcBin(tbl, 0), 245) && ss <= k <= se + 1
      invariant SameOutside(block[..], old(block[..]), order, ss, se)
      invariant exp ==>
                  && Extend(d.log, RefinePlan(tbl, c, k, se, rest)) == d.expected
                  && RefinedTo(block[..], order, c, ss, k, se, al)
    {
      ghost var h1 := d.log;
      var eob;
      ok, eob, k := DecodeRefineStep(d, tbl, block, order, ss, k, kex, se, al, old(block[..]), c, rest);
      ConfinedTrans(d.log, h1, h, AcBin(tbl, 0), 245);
      if !ok || eob {
        return;
      }
    }
  }

  /** Decode bit plane al of the band ss to se into a block that holds the planes above it. */
  method DecodeRefineBand(d: ArithDecoder, tbl: Table, block: array<Coef>, order: seq<nat>, ss: nat, se: nat, al: nat,
                          ghost c: Zigzag, ghost rest: Plan)
    returns (ok: bool)
    requires d.Valid() && d.ct != -1 && IsOrder(order, se) && 1 <= ss <= se && |c| == se + 1 && block.Length == 64
    modifies d, block
    ensures d.Valid() && ok == (d.ct != -1) && Confined(d.log, old(d.log), AcBin(tbl, 0), 245)
    ensures SameOutside(block[..], old(block[..]), order, ss, se)
    ensures old(&& RefinedTo(block[..], order, c, ss, ss, se, al)
                && Extend(d.log, RefinePlan(tbl, c, ss, se, rest)) == d.expected) ==>
              ok && Extend(d.log, rest) == d.expected && RefinedTo(block[..], order, c, ss, se + 1, se, al)
  {
    var kex := FindNonzero(block, order, se);
    if RefinedTo(block[..], order, c, ss, ss, se, al) {
      PreviousEnd(block, order, c, ss, se, al, kex);
    }
    ok := DecodeRefineFrom(d, tbl, block, order, ss, kex, se, al, c, rest);
  }
}
