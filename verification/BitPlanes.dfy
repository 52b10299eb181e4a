/**
 What is left of a coefficient that was sent down to a bit plane.
 */
module BitPlanes {
  import opened Numbers
  import opened Coefficients
  import opened ArithScanModel

  /** A multiple of 2^al. */
  predicate IsMultiple(v: int, al: nat) {
    v % PowerOf2(al) == 0
  }

  function PowerOf2(n: nat): (p: nat)
    ensures p > 0
  {
    if n == 0 then 1 else 2 * PowerOf2(n - 1)
  }

  lemma {:induction false} ShlIsProduct(v: int, n: nat)
    ensures Shl(v, n) == v * PowerOf2(n)
  {
    if n > 0 {
      ShlIsProduct(v, n - 1);
    }
  }

  lemma ShiftIsMultiple(w: int, al: nat)
    ensures IsMultiple(Shl(w, al), al)
  {
    var p := PowerOf2(al);
    ShlIsProduct(w, al);
    MultipleOf(w, p);
  }

  lemma MultipleOf(w: int, p: nat)
    requires p > 0
    ensures w * p % p == 0
  {
    DivUnique(w * p, p, w);
  }

  /** A DC coefficient is rounded down to a multiple of 2^al, any other one towards zero. */
  lemma TruncatedIsMultiple(v: Coef, k: nat, al: nat)
    requires al <= 14
    ensures var r := Truncated(v, k, al);
            && IsMultiple(r, al)
            && (if k == 0 || v >= 0 then r <= v < r + PowerOf2(al) else r - PowerOf2(al) < v <= r)
            && (k != 0 ==> if v >= 0 then r >= 0 else r <= 0)
  {
    var a: int := if k == 0 then v else Abs(v);
    var w := Shr(a, al);
    ShrShl(a, al);
    ShiftIsMultiple(w, al);
    ShlIsProduct(1, al);
    if k != 0 {
      TruncatedAcBound(v, al);
      ShrBounded(a, al);
      ShlOrder(0, w, al);
      ShlIsProduct(0, al);
      ShiftIsMultiple(-w, al);
      ShlAdd(w, -w, al);
    }
  }

  /** What Huffman scans send of a coefficient is its quotient by 2^al, rounded towards zero. */
  lemma TransformIsQuotient(v: Coef, al: nat)
    ensures var r := Transform(v, al);
            Abs(r) == Abs(v) / PowerOf2(al) && (r > 0 ==> v > 0) && (r < 0 ==> v < 0)
  {
    ShrIsDiv(Abs(v), al);
    ShlIsProduct(1, al);
  }
}
