/** Quantized DCT coefficients: blocks, zigzag order and the point transform. */
module Coefficients {
  import opened Numbers

  type Coef = v: int | -0x8000 <= v <= 0x7fff

  /** A block of coefficients in natural order. */
  type CoefBlock = b: seq<Coef> | |b| == 64 witness seq(64, i => 0)

  /** order lists the natural positions of the zigzag positions 0 to se. */
  predicate IsOrder(order: seq<nat>, se: nat) {
    && se < 64 && se < |order| && order[0] == 0
    && (forall k :: 0 <= k <= se ==> order[k] < 64)
    && forall j, k :: 0 <= j < k <= se ==> order[j] != order[k]
  }

  function Abs(v: int): (r: nat) {
    if v < 0 then -v else v
  }

  /** Coefficients in zigzag order; entry 0 is the DC coefficient. */
  type Zigzag = c: seq<Coef> | 1 <= |c| <= 64 witness [0]

  /** The point transform of AC coefficients: division by 2^al, rounding towards zero. */
  function Transform(v: Coef, al: nat): (r: Coef)
    ensures Abs(r) == Shr(Abs(v), al) && Abs(r) <= Abs(v) && (r < 0 ==> v < 0) && (r > 0 ==> v > 0)
  {
    ShrBounded(Abs(v), al);
    if v >= 0 then Shr(Abs(v), al) else -Shr(Abs(v), al)
  }

  /** The zigzag view of a block after the point transform. */
  function Zig(block: CoefBlock, order: seq<nat>, se: nat, al: nat): (c: Zigzag)
    requires IsOrder(order, se)
    ensures |c| == se + 1 && forall k :: 0 <= k <= se ==> c[k] == Transform(block[order[k]], al)
  {
    seq(se + 1, k requires 0 <= k <= se => Transform(block[order[k]], al))
  }

  /** The conversion of an integer to a 16-bit coefficient. */
  function ToCoef(v: int): (r: Coef)
    ensures -0x8000 <= v <= 0x7fff ==> r == v
  {
    (v + 0x8000) % 0x1_0000 - 0x8000
  }
}
