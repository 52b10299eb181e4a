/**
 Shifts, big-endian byte values, and the zero-padded reading of a byte string that a
 decoder sees once it supplies zero data after a marker.
 */
module Numbers {

  datatype Option<T> = None | Some(value: T)

  /** v shifted left by k bits. */
  function Shl(v: int, k: nat): (r: int) {
    if k == 0 then v else 2 * Shl(v, k - 1)
  }

  lemma {:induction false} ShlAdd(x: int, y: int, k: nat)
    ensures Shl(x + y, k) == Shl(x, k) + Shl(y, k)
  {
    if k > 0 {
      ShlAdd(x, y, k - 1);
    }
  }

  /** Shifting keeps the order, in both directions. */
  lemma {:induction false} ShlOrder(x: int, y: int, k: nat)
    ensures x <= y <==> Shl(x, k) <= Shl(y, k)
  {
    if k > 0 {
      ShlOrder(x, y, k - 1);
    }
  }

  lemma {:induction false} ShlShl(v: int, i: nat, j: nat)
    ensures Shl(Shl(v, i), j) == Shl(v, i + j)
  {
    if j > 0 {
      ShlShl(v, i, j - 1);
    }
  }

  lemma Shl8(v: int)
    ensures Shl(v, 8) == 256 * v
  {
    assert Shl(v, 1) == 2 * v;
    assert Shl(v, 2) == 2 * Shl(v, 1);
    assert Shl(v, 4) == 4 * Shl(v, 2);
    assert Shl(v, 6) == 4 * Shl(v, 4);
    assert Shl(v, 8) == 4 * Shl(v, 6);
  }

  lemma ShlOctet(v: int, k: nat)
    ensures Shl(v, k + 8) == Shl(256 * v, k) == 256 * Shl(v, k)
  {
    ShlShl(v, 8, k);
    ShlShl(v, k, 8);
    Shl8(v);
    Shl8(Shl(v, k));
  }

  /** The shift that separates a finished byte from the rest of the encoder's C register. */
  lemma Shl19(v: int)
    ensures Shl(v, 19) == 0x8_0000 * v && Shl(v, 27) == 0x800_0000 * v
  {
    ShlOctet(v, 11);
    ShlOctet(v, 3);
    assert Shl(v, 1) == 2 * v;
    assert Shl(v, 3) == 4 * Shl(v, 1);
    ShlOctet(v, 19);
  }

  lemma PowersUpTo15()
    ensures Shl(1, 14) == 0x4000 && Shl(1, 15) == 0x8000
  {
    ShlOctet(1, 6);
    ShlOctet(1, 7);
    Shl8(1);
    assert Shl(1, 8) == 4 * Shl(1, 6) == 2 * Shl(1, 7);
  }

  /** v shifted right by k bits, rounding towards minus infinity. */
  function Shr(v: int, k: nat): (r: int) {
    if k == 0 then v else Shr(v, k - 1) / 2
  }

  lemma {:induction false} ShrShr(v: int, i: nat, j: nat)
    ensures Shr(Shr(v, i), j) == Shr(v, i + j)
  {
    if j > 0 {
      ShrShr(v, i, j - 1);
    }
  }

  /** Dropping k bits and putting zeros in their place leaves less than 2^k behind. */
  lemma {:induction false} ShrShl(v: int, k: nat)
    ensures Shl(Shr(v, k), k) <= v < Shl(Shr(v, k), k) + Shl(1, k)
  {
    if k > 0 {
      ShrShl(v, k - 1);
      var w := Shr(v, k - 1);
      ShlShl(w / 2, 1, k - 1);
      ShlAdd(2 * (w / 2), w % 2, k - 1);
      ShlAdd(0, 0, k - 1);
      assert Shl(w / 2, 1) == 2 * (w / 2);
    }
  }

  lemma {:induction false} ShrOfShl(v: int, k: nat)
    ensures Shr(Shl(v, k), k) == v
  {
    if k > 0 {
      ShrOfShl(v, k - 1);
      ShrShr(Shl(v, k), 1, k - 1);
      assert Shr(Shl(v, k), 1) == Shl(v, k - 1);
    }
  }

  lemma {:induction false} ShrBounded(v: int, k: nat)
    requires 0 <= v
    ensures 0 <= Shr(v, k) <= v
  {
    if k > 0 {
      ShrBounded(v, k - 1);
    }
  }

  lemma ShrZero(v: int, k: nat)
    requires 0 <= v < Shl(1, k)
    ensures Shr(v, k) == 0
  {
    ShrShl(v, k);
    ShlOrder(1, Shr(v, k), k);
    ShlOrder(Shr(v, k), -1, k);
    ShlAdd(1, -1, k);
    ShlAdd(0, 0, k);
  }

  lemma {:induction false} ShlTimes(v: int, k: nat)
    ensures Shl(v, k) == v * Shl(1, k)
  {
    if k > 0 {
      ShlTimes(v, k - 1);
    }
  }

  lemma MulGrows(d: int, p: int)
    requires d >= 1 && p >= 0
    ensures d * p >= p
  {
  }

  lemma DivUnique(v: int, p: int, q: int)
    requires 0 < p && q * p <= v < q * p + p
    ensures v / p == q
  {
    var w := v / p;
    assert v == w * p + v % p;
    if w > q {
      MulGrows(w - q, p);
    } else if w < q {
      MulGrows(q - w, p);
    }
  }

  /** Testing v against the mask 2^k. */
  lemma ShrIsDiv(v: int, k: nat)
    ensures Shl(1, k) >= 1 && v / Shl(1, k) == Shr(v, k)
  {
    ShlOrder(0, 1, k);
    ShlOrder(1, 0, k);
    ShlAdd(0, 0, k);
    ShrShl(v, k);
    ShlTimes(Shr(v, k), k);
    DivUnique(v, Shl(1, k), Shr(v, k));
  }

  type Byte = b: int | 0 <= b < 256

  /** The number a byte string spells, most significant byte first. */
  function Val(s: seq<Byte>): (v: nat) {
    if s == [] then 0 else 256 * Val(s[..|s| - 1]) + s[|s| - 1]
  }

  lemma ValAppend(s: seq<Byte>, b: Byte)
    ensures Val(s + [b]) == 256 * Val(s) + b
  {
    assert (s + [b])[..|s|] == s;
  }

  /** The number v followed by n bytes b. */
  function Append(v: int, b: Byte, n: nat): (r: int) {
    if n == 0 then v else 256 * Append(v, b, n - 1) + b
  }

  lemma TwoDigits(q: nat)
    ensures q % 0x1_0000 == 0x100 * (q / 0x100 % 0x100) + q % 0x100
  {
    var h := q / 0x100;
    assert q == 0x1_0000 * (h / 0x100) + (0x100 * (h % 0x100) + q % 0x100);
  }

  /** The two bytes of c above its last 11 bits. */
  lemma TwoBytes(c: nat)
    ensures c / 0x800 % 0x1_0000 == 0x100 * (c / 0x8_0000 % 0x100) + c / 0x800 % 0x100
  {
    TwoDigits(c / 0x800);
    assert c / 0x8_0000 == c / 0x800 / 0x100;
  }

  /** A carry into a run of 0xFF bytes turns them into zeros and raises what is before them. */
  lemma {:induction false} CarryThroughFF(v: int, n: nat)
    ensures Append(v, 255, n) + 1 == Append(v + 1, 0, n)
  {
    if n > 0 {
      CarryThroughFF(v, n - 1);
    }
  }

  lemma {:induction false} AppendZeros(v: int, n: nat)
    ensures Append(v, 0, n) == Shl(v, 8 * n)
  {
    if n > 0 {
      AppendZeros(v, n - 1);
      ShlOctet(v, 8 * (n - 1));
    }
  }

  /** The k-th byte of u when u is followed by zeros for ever. */
  function PadByte(u: seq<Byte>, k: nat): (b: Byte) {
    if k < |u| then u[k] else 0
  }

  /** The number spelled by the first k bytes of u followed by zeros. */
  function PadVal(u: seq<Byte>, k: nat): (v: nat) {
    if k == 0 then 0 else 256 * PadVal(u, k - 1) + PadByte(u, k - 1)
  }

  /** The first k padded bytes are the first k + j of them with the last j dropped. */
  lemma {:induction false} PadValFloor(u: seq<Byte>, k: nat, j: nat)
    ensures Shl(PadVal(u, k), 8 * j) <= PadVal(u, k + j) < Shl(PadVal(u, k) + 1, 8 * j)
  {
    if j > 0 {
      PadValFloor(u, k, j - 1);
      ShlOctet(PadVal(u, k), 8 * (j - 1));
      ShlOctet(PadVal(u, k) + 1, 8 * (j - 1));
    }
  }

  lemma {:induction false} PadValPrefix(u: seq<Byte>, k: nat)
    requires k <= |u|
    ensures PadVal(u, k) == Val(u[..k])
  {
    if k > 0 {
      PadValPrefix(u, k - 1);
      assert u[..k][..k - 1] == u[..k - 1];
    }
  }

  /** Past the end of u every further byte is a shift by eight. */
  lemma {:induction false} PadValPastEnd(u: seq<Byte>, j: nat)
    ensures PadVal(u, |u| + j) == Shl(Val(u), 8 * j)
  {
    if j == 0 {
      PadValPrefix(u, |u|);
      assert u[..|u|] == u;
    } else {
      PadValPastEnd(u, j - 1);
      ShlOctet(Val(u), 8 * (j - 1));
    }
  }

  /** A byte string shorter than n bytes, read as n bytes, is its value shifted. */
  lemma PadValExtended(u: seq<Byte>, n: nat, k: nat)
    requires |u| <= n <= k
    ensures PadVal(u, k) == Shl(Shl(Val(u), 8 * (n - |u|)), 8 * (k - n))
  {
    PadValPastEnd(u, k - |u|);
    ShlShl(Val(u), 8 * (n - |u|), 8 * (k - n));
  }
}
