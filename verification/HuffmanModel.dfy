/**
 Huffman coding of coefficient blocks (sections F.1.2 and F.2.2 of ITU-T T.81): the symbols and
 additional bits that stand for a block, and a decoder that inverts them.
 */
module HuffmanModel {
  import opened Numbers
  import opened Coefficients
  import opened HuffmanTable
  import opened HuffmanBits

  const MAX_COEF_BITS := 10  // for 8-bit samples

  type PerSymbol = s: seq<nat> | |s| == 256 witness seq(256, i => 0)

  datatype CodeTable = CodeTable(ehufco: PerSymbol, ehufsi: PerSymbol) {
    // Always true. Mentioning it expands the predicate below.
    ghost predicate Expand(x: nat) {
      true
    }

    ghost predicate Usable() {
      forall x: nat :: Expand(x) ==> Decodable(ehufco, ehufsi)
    }
  }

  /** What a scan consists of: Huffman symbols, plain bits, and restart markers. */
  datatype Items =
    | NoItem
    | Symbol(dc: bool, tbl: nat, symbol: Symbol, rest: Items)
    | Raw(value: int, size: nat, rest: Items)
    | Restart(rest: Items)

  // ----- magnitudes -----

  /** The number of bits of v. */
  function Nbits(v: nat): (n: nat) {
    if v == 0 then 0 else 1 + Nbits(v / 2)
  }

  lemma {:induction false} NbitsBounds(v: nat)
    ensures v < Shl(1, Nbits(v)) && (v > 0 ==> Shl(1, Nbits(v) - 1) <= v)
  {
    if v > 0 {
      NbitsBounds(v / 2);
    }
  }

  /** The additional bits of v: itself if positive, else the complement of its magnitude. */
  function Additional(v: int): (code: int) {
    if v < 0 then v - 1 else v
  }

  /** Table F.12: the value that n additional bits stand for. */
  function ExtendSign(x: int, n: nat): (v: int) {
    if n > 0 && x < Shl(1, n - 1) then x - Shl(1, n) + 1 else x
  }

  // ----- the symbols of a block -----

  /** The difference v of a DC coefficient. */
  function DcItems(tbl: nat, v: int, rest: Items): (p: Items)
    requires Nbits(Abs(v)) <= 15
  {
    var n := Nbits(Abs(v));
    Symbol(true, tbl, n, if n == 0 then rest else Raw(Additional(v), n, rest))
  }

  /** Figure F.2: a nonzero coefficient v after r zeros. */
  function RunItems(tbl: nat, r: nat, v: int, rest: Items): (p: Items)
    requires Nbits(Abs(v)) <= 15
  {
    if r > 15 then Symbol(false, tbl, 0xF0, RunItems(tbl, r - 16, v, rest))
    else Symbol(false, tbl, 16 * r + Nbits(Abs(v)), Raw(Additional(v), Nbits(Abs(v)), rest))
  }

  predicate AcLegal(c: Zigzag, k: nat, se: nat)
    requires se < |c|
  {
    forall j :: k <= j <= se ==> Nbits(Abs(c[j])) <= MAX_COEF_BITS
  }

  /** Figure F.2 from position k on, after r zeros. */
  function AcItems(tbl: nat, c: Zigzag, k: nat, r: nat, se: nat, rest: Items): (p: Items)
    requires se < |c| && k <= se + 1 && AcLegal(c, k, se)
    decreases se + 1 - k
  {
    if k > se then if r > 0 then Symbol(false, tbl, 0, rest) else rest
    else if c[k] == 0 then AcItems(tbl, c, k + 1, r + 1, se, rest)
    else RunItems(tbl, r, c[k], AcItems(tbl, c, k + 1, 0, se, rest))
  }

  /** The coefficients are in the range of the DCT. */
  predicate BlockLegal(c: Zigzag, last: int, se: nat)
    requires se < |c|
  {
    Nbits(Abs(c[0] - last)) <= MAX_COEF_BITS + 1 && AcLegal(c, 1, se)
  }

  function BlockItems(dcTbl: nat, acTbl: nat, c: Zigzag, last: int, se: nat, rest: Items): (p: Items)
    requires se < |c| && BlockLegal(c, last, se)
  {
    DcItems(dcTbl, c[0] - last, AcItems(acTbl, c, 1, 0, se, rest))
  }

  // ----- bits -----

  datatype Tables = Tables(dc: seq<CodeTable>, ac: seq<CodeTable>) {
    ghost predicate Usable() {
      (forall i :: 0 <= i < |dc| ==> dc[i].Usable()) && forall i :: 0 <= i < |ac| ==> ac[i].Usable()
    }

    predicate Has(isDC: bool, tbl: nat) {
      if isDC then tbl < |dc| else tbl < |ac|
    }

    function At(isDC: bool, tbl: nat): (t: CodeTable)
      requires Has(isDC, tbl)
    {
      if isDC then dc[tbl] else ac[tbl]
    }

    /** The symbol has a code. */
    ghost predicate Codes(isDC: bool, tbl: nat, symbol: Symbol) {
      Has(isDC, tbl) && At(isDC, tbl).Usable() && At(isDC, tbl).ehufsi[symbol] > 0
    }
  }

  /** Every symbol up to the next restart marker has a code. */
  ghost predicate Coded(t: Tables, p: Items) {
    match p
    case NoItem => true
    case Symbol(dc, tbl, symbol, rest) => t.Codes(dc, tbl, symbol) && Coded(t, rest)
    case Raw(_, _, rest) => Coded(t, rest)
    case Restart(rest) => Coded(t, rest)
  }

  /** The bits of the items up to the next restart marker, and then ones to fill the last byte. */
  ghost function ItemBits(t: Tables, p: Items, s: Sent): (b: Bits)
    requires Coded(t, p)
    decreases p
  {
    match p
    case NoItem => Padding(Phase(s))
    case Restart(_) => Padding(Phase(s))
    case Symbol(dc, tbl, symbol, rest) =>
      var code := t.At(dc, tbl);
      Low(code.ehufco[symbol], code.ehufsi[symbol],
          ItemBits(t, rest, After(s, Low(code.ehufco[symbol], code.ehufsi[symbol], NoBits))))
    case Raw(value, size, rest) => Low(value, size, ItemBits(t, rest, After(s, Low(value, size, NoBits))))
  }

  // ----- segments -----

  /** The segments that the items become: done are the finished ones, s the current one so far. */
  ghost function Deliver(t: Tables, done: seq<Sent>, s: Sent, p: Items): (r: seq<Sent>)
    requires Coded(t, p)
    decreases p
  {
    match p
    case NoItem => done + [Padded(s)]
    case Restart(rest) => Deliver(t, done + [Padded(s)], Nothing, rest)
    case Symbol(dc, tbl, symbol, rest) =>
      var code := t.At(dc, tbl);
      Deliver(t, done, After(s, Low(code.ehufco[symbol], code.ehufsi[symbol], NoBits)), rest)
    case Raw(value, size, rest) => Deliver(t, done, After(s, Low(value, size, NoBits)), rest)
  }

  /** The current segment will hold the bits up to the next restart marker. */
  lemma {:induction false} DeliverCurrent(t: Tables, done: seq<Sent>, s: Sent, p: Items)
    requires Coded(t, p)
    ensures done <= Deliver(t, done, s, p) && |Deliver(t, done, s, p)| > |done|
    ensures Deliver(t, done, s, p)[|done|] == After(s, ItemBits(t, p, s))
    decreases p
  {
    match p
    case NoItem =>
    case Restart(rest) => DeliverCurrent(t, done + [Padded(s)], Nothing, rest);
    case Symbol(dc, tbl, symbol, rest) =>
      var code := t.At(dc, tbl);
      var s1 := After(s, Low(code.ehufco[symbol], code.ehufsi[symbol], NoBits));
      LowThen(s, code.ehufco[symbol], code.ehufsi[symbol], ItemBits(t, rest, s1));
      DeliverCurrent(t, done, s1, rest);
    case Raw(value, size, rest) =>
      var s1 := After(s, Low(value, size, NoBits));
      LowThen(s, value, size, ItemBits(t, rest, s1));
      DeliverCurrent(t, done, s1, rest);
  }

  // ----- decoding -----

  /** The symbol whose code is this one. */
  function FindCode(t: CodeTable, code: int, size: nat, v: nat): (r: Option<Symbol>)
    decreases 256 - v
  {
    if v >= 256 then None
    else if t.ehufsi[v] == size && t.ehufco[v] == code then Some(v)
    else FindCode(t, code, size, v + 1)
  }

  /** Figure F.16: read bits until they are a code; code and size are the bits read so far. */
  function DecodeSymbol(t: CodeTable, code: int, size: nat, b: Bits): (r: Option<(Symbol, Bits)>)
    decreases b
  {
    match b
    case NoBits => None
    case Bit(bit, rest) =>
      match FindCode(t, 2 * code + bit, size + 1, 0)
      case Some(v) => Some((v, rest))
      case None => DecodeSymbol(t, 2 * code + bit, size + 1, rest)
  }

  /** Figure F.17: read n bits; x is what was read before. */
  function Receive(n: nat, x: int, b: Bits): (r: Option<(int, Bits)>)
    decreases n
  {
    if n == 0 then Some((x, b))
    else
      match b
      case NoBits => None
      case Bit(bit, rest) => Receive(n - 1, 2 * x + bit, rest)
  }

  lemma {:induction false} FindCodeFinds(t: CodeTable, s: Symbol, v: nat)
    requires t.Usable() && v <= s && t.ehufsi[s] > 0
    ensures FindCode(t, t.ehufco[s], t.ehufsi[s], v) == Some(s)
    decreases s - v
  {
    assert t.Expand(0);
    if v < s {
      assert t.ehufsi[v] == t.ehufsi[s] ==> Shr(t.ehufco[s], t.ehufsi[s] - t.ehufsi[v]) == t.ehufco[s];
      FindCodeFinds(t, s, v + 1);
    }
  }

  /** No shorter part of a code is a code. */
  lemma {:induction false} FindCodeFails(t: CodeTable, s: Symbol, m: nat, v: nat)
    requires t.Usable() && 0 < m < t.ehufsi[s]
    ensures FindCode(t, Shr(t.ehufco[s], t.ehufsi[s] - m), m, v) == None
    decreases 256 - v
  {
    assert t.Expand(0);
    if v < 256 {
      FindCodeFails(t, s, m, v + 1);
      assert t.ehufsi[v] == m ==> t.ehufsi[v] <= t.ehufsi[s];
    }
  }

  lemma ShrStep(x: int, k: nat)
    requires k > 0
    ensures 2 * Shr(x, k) + Shr(x, k - 1) % 2 == Shr(x, k - 1)
  {
  }

  lemma {:induction false} SymbolRead(t: CodeTable, s: Symbol, m: nat, k: nat, rest: Bits)
    requires t.Usable() && t.ehufsi[s] == m + k && k > 0
    ensures DecodeSymbol(t, Shr(t.ehufco[s], k), m, Low(t.ehufco[s], k, rest)) == Some((s, rest))
    decreases k
  {
    ShrStep(t.ehufco[s], k);
    if k == 1 {
      FindCodeFinds(t, s, 0);
    } else {
      FindCodeFails(t, s, m + 1, 0);
      SymbolRead(t, s, m + 1, k - 1, rest);
    }
  }

  /** The decoder reads back the symbol that was coded, and no more. */
  lemma SymbolRoundTrip(t: CodeTable, s: Symbol, rest: Bits)
    requires t.Usable() && t.ehufsi[s] > 0
    ensures DecodeSymbol(t, 0, 0, Low(t.ehufco[s], t.ehufsi[s], rest)) == Some((s, rest))
  {
    assert t.Expand(0);
    ShrZero(t.ehufco[s], t.ehufsi[s]);
    SymbolRead(t, s, 0, t.ehufsi[s], rest);
  }

  lemma {:induction false} ReceiveRoundTrip(x: int, n: nat, rest: Bits)
    ensures Receive(n, Shr(x, n), Low(x, n, rest)) == Some((x, rest))
    decreases n
  {
    if n > 0 {
      ReceiveRoundTrip(x, n - 1, rest);
    }
  }

  /** The additional bits determine the value. */
  lemma AdditionalRoundTrip(v: int, rest: Bits)
    ensures var n := Nbits(Abs(v));
            exists x :: Receive(n, 0, Low(Additional(v), n, rest)) == Some((x, rest)) && ExtendSign(x, n) == v
  {
    var n := Nbits(Abs(v));
    NbitsBounds(Abs(v));
    var x := if v < 0 then v - 1 + Shl(1, n) else v;
    if v < 0 {
      assert Shl(1, n) == 2 * Shl(1, n - 1);
      LowOfSum(v - 1, 1, n, n, rest);
    }
    ShrZero(x, n);
    ReceiveRoundTrip(x, n, rest);
    assert Receive(n, 0, Low(Additional(v), n, rest)) == Some((x, rest)) && ExtendSign(x, n) == v;
  }

  /** Figure F.13: AC coefficients from position k on, stored into c. */
  function DecodeAc(t: CodeTable, b: Bits, c: seq<int>, k: nat, se: nat): (r: Option<(seq<int>, Bits)>)
    requires se < |c| && k <= se + 1
    decreases se + 1 - k
  {
    if k > se then Some((c, b))
    else
      match DecodeSymbol(t, 0, 0, b)
      case None => None
      case Some((s, b1)) =>
        var run, n := s / 16, s % 16;
        if n == 0 then
          if run < 15 then Some((c, b1)) else if k + 16 > se then None else DecodeAc(t, b1, c, k + 16, se)
        else if k + run > se then None
        else
          match Receive(n, 0, b1)
          case None => None
          case Some((x, b2)) => DecodeAc(t, b2, c[k + run := ExtendSign(x, n)], k + run + 1, se)
  }

  function DecodeBlock(dcTable: CodeTable, acTable: CodeTable, b: Bits, last: int,
                       se: nat): (r: Option<(seq<int>, Bits)>) {
    match DecodeSymbol(dcTable, 0, 0, b)
    case None => None
    case Some((n, b1)) =>
      match Receive(n, 0, b1)
      case None => None
      case Some((x, b2)) =>
        DecodeAc(acTable, b2, seq(se + 1, k => if k == 0 then last + ExtendSign(x, n) else 0), 1, se)
  }

  /** A symbol is read back from the bits of its item. */
  lemma SymbolItem(t: Tables, done: seq<Sent>, p: Items, s: Sent) returns (s': Sent)
    requires p.Symbol? && Coded(t, p)
    ensures Coded(t, p.rest) && t.Has(p.dc, p.tbl)
    ensures DecodeSymbol(t.At(p.dc, p.tbl), 0, 0, ItemBits(t, p, s)) == Some((p.symbol, ItemBits(t, p.rest, s')))
    ensures Deliver(t, done, s, p) == Deliver(t, done, s', p.rest)
  {
    var code := t.At(p.dc, p.tbl);
    s' := After(s, Low(code.ehufco[p.symbol], code.ehufsi[p.symbol], NoBits));
    SymbolRoundTrip(code, p.symbol, ItemBits(t, p.rest, s'));
  }

  /** So are additional bits. */
  lemma RawItem(t: Tables, done: seq<Sent>, v: int, rest: Items, s: Sent) returns (s': Sent)
    requires Coded(t, rest)
    ensures var n := Nbits(Abs(v));
            exists x ::
              && Receive(n, 0, ItemBits(t, Raw(Additional(v), n, rest), s)) == Some((x, ItemBits(t, rest, s')))
              && ExtendSign(x, n) == v
    ensures Deliver(t, done, s, Raw(Additional(v), Nbits(Abs(v)), rest)) == Deliver(t, done, s', rest)
  {
    s' := After(s, Low(Additional(v), Nbits(Abs(v)), NoBits));
    AdditionalRoundTrip(v, ItemBits(t, rest, s'));
  }

  lemma DecodeAcRun(t: CodeTable, b: Bits, b1: Bits, c: seq<int>, k: nat, se: nat)
    requires se < |c| && k + 16 <= se && DecodeSymbol(t, 0, 0, b) == Some((0xF0, b1))
    ensures DecodeAc(t, b, c, k, se) == DecodeAc(t, b1, c, k + 16, se)
  {
  }

  lemma DecodeAcValue(t: CodeTable, b: Bits, b1: Bits, b2: Bits, c: seq<int>, k: nat, se: nat, r: nat, n: nat, v: int)
    requires se < |c| && r <= 15 && 1 <= n <= 15 && k + r <= se && DecodeSymbol(t, 0, 0, b) == Some((16 * r + n, b1))
    requires exists x :: Receive(n, 0, b1) == Some((x, b2)) && ExtendSign(x, n) == v
    ensures DecodeAc(t, b, c, k, se) == DecodeAc(t, b2, c[k + r := v], k + r + 1, se)
  {
    assert (16 * r + n) / 16 == r && (16 * r + n) % 16 == n;
  }

  /** A run of zeros and the coefficient v after it. */
  lemma {:induction false} RunRoundTrip(t: Tables, done: seq<Sent>, tbl: nat, r: nat, v: int, rest: Items, s: Sent,
                                        cur: seq<int>, k: nat, se: nat)
    returns (s': Sent)
    requires 1 <= Nbits(Abs(v)) <= 15 && Coded(t, RunItems(tbl, r, v, rest)) && k + r <= se < |cur|
    ensures Coded(t, rest) && tbl < |t.ac|
    ensures DecodeAc(t.ac[tbl], ItemBits(t, RunItems(tbl, r, v, rest), s), cur, k, se)
         == DecodeAc(t.ac[tbl], ItemBits(t, rest, s'), cur[k + r := v], k + r + 1, se)
    ensures Deliver(t, done, s, RunItems(tbl, r, v, rest)) == Deliver(t, done, s', rest)
    decreases r
  {
    var p := RunItems(tbl, r, v, rest);
    var s1 := SymbolItem(t, done, p, s);
    if r > 15 {
      DecodeAcRun(t.ac[tbl], ItemBits(t, p, s), ItemBits(t, p.rest, s1), cur, k, se);
      s' := RunRoundTrip(t, done, tbl, r - 16, v, rest, s1, cur, k + 16, se);
    } else {
      s' := RawItem(t, done, v, rest, s1);
      DecodeAcValue(t.ac[tbl], ItemBits(t, p, s), ItemBits(t, p.rest, s1), ItemBits(t, rest, s'), cur, k, se, r,
                    Nbits(Abs(v)), v);
    }
  }

  /** cur holds the coefficients of c before position k, and zeros from there on. */
  predicate HoldsUpTo(cur: seq<int>, c: Zigzag, k: nat) {
    |cur| == |c| && forall j :: 0 <= j < |c| ==> cur[j] == if j < k then c[j] else 0
  }

  /** The decoder recovers the AC coefficients from position k on, r zeros before it included. */
  lemma {:induction false} AcRoundTrip(t: Tables, done: seq<Sent>, tbl: nat, c: Zigzag, k: nat, r: nat, se: nat,
                                       rest: Items, s: Sent, cur: seq<int>)
    returns (s': Sent)
    requires se + 1 == |c| && r <= k <= se + 1 && AcLegal(c, k, se) && Coded(t, AcItems(tbl, c, k, r, se, rest))
    requires tbl < |t.ac|
    requires HoldsUpTo(cur, c, k) && forall j :: k - r <= j < k ==> c[j] == 0
    ensures Coded(t, rest)
    ensures DecodeAc(t.ac[tbl], ItemBits(t, AcItems(tbl, c, k, r, se, rest), s), cur, k - r, se)
         == Some((c, ItemBits(t, rest, s')))
    ensures Deliver(t, done, s, AcItems(tbl, c, k, r, se, rest)) == Deliver(t, done, s', rest)
    decreases se + 1 - k
  {
    if k > se {
      s' := AcEnd(t, done, tbl, c, k, r, se, rest, s, cur);
    } else if c[k] == 0 {
      s' := AcRoundTrip(t, done, tbl, c, k + 1, r + 1, se, rest, s, cur);
    } else {
      s' := AcNonzero(t, done, tbl, c, k, r, se, rest, s, cur);
      s' := AcRoundTrip(t, done, tbl, c, k + 1, 0, se, rest, s', cur[k := c[k]]);
    }
  }

  /** The end of block, if there are zeros before it. */
  lemma AcEnd(t: Tables, done: seq<Sent>, tbl: nat, c: Zigzag, k: nat, r: nat, se: nat, rest: Items, s: Sent,
              cur: seq<int>)
    returns (s': Sent)
    requires r <= k == se + 1 == |c| && Coded(t, AcItems(tbl, c, k, r, se, rest)) && tbl < |t.ac|
    requires HoldsUpTo(cur, c, k) && forall j :: k - r <= j < k ==> c[j] == 0
    ensures Coded(t, rest)
    ensures DecodeAc(t.ac[tbl], ItemBits(t, AcItems(tbl, c, k, r, se, rest), s), cur, k - r, se)
         == Some((c, ItemBits(t, rest, s')))
    ensures Deliver(t, done, s, AcItems(tbl, c, k, r, se, rest)) == Deliver(t, done, s', rest)
  {
    assert cur == c;
    s' := s;
    if r > 0 {
      s' := SymbolItem(t, done, AcItems(tbl, c, k, r, se, rest), s);
    }
  }

  lemma AcNonzero(t: Tables, done: seq<Sent>, tbl: nat, c: Zigzag, k: nat, r: nat, se: nat, rest: Items, s: Sent,
                  cur: seq<int>)
    returns (s': Sent)
    requires se + 1 == |c| && r <= k <= se && AcLegal(c, k, se) && Coded(t, AcItems(tbl, c, k, r, se, rest))
    requires tbl < |t.ac|
    requires c[k] != 0 && HoldsUpTo(cur, c, k)
    ensures Coded(t, AcItems(tbl, c, k + 1, 0, se, rest)) && HoldsUpTo(cur[k := c[k]], c, k + 1)
    ensures DecodeAc(t.ac[tbl], ItemBits(t, AcItems(tbl, c, k, r, se, rest), s), cur, k - r, se)
         == DecodeAc(t.ac[tbl], ItemBits(t, AcItems(tbl, c, k + 1, 0, se, rest), s'), cur[k := c[k]], k + 1, se)
    ensures Deliver(t, done, s, AcItems(tbl, c, k, r, se, rest))
         == Deliver(t, done, s', AcItems(tbl, c, k + 1, 0, se, rest))
  {
    assert Nbits(Abs(c[k])) >= 1;
    var q := AcItems(tbl, c, k + 1, 0, se, rest);
    assert AcItems(tbl, c, k, r, se, rest) == RunItems(tbl, r, c[k], q);
    s' := RunRoundTrip(t, done, tbl, r, c[k], q, s, cur, k - r, se);
  }

  /** The decoder recovers the DC difference. */
  lemma DcRoundTrip(t: Tables, done: seq<Sent>, tbl: nat, v: int, rest: Items, s: Sent) returns (b1: Bits, s': Sent)
    requires Nbits(Abs(v)) <= 15 && Coded(t, DcItems(tbl, v, rest))
    ensures Coded(t, rest) && tbl < |t.dc|
    ensures var n := Nbits(Abs(v));
            && DecodeSymbol(t.dc[tbl], 0, 0, ItemBits(t, DcItems(tbl, v, rest), s)) == Some((n, b1))
            && exists x :: Receive(n, 0, b1) == Some((x, ItemBits(t, rest, s'))) && ExtendSign(x, n) == v
    ensures Deliver(t, done, s, DcItems(tbl, v, rest)) == Deliver(t, done, s', rest)
  {
    var p := DcItems(tbl, v, rest);
    s' := SymbolItem(t, done, p, s);
    b1 := ItemBits(t, p.rest, s');
    if Nbits(Abs(v)) > 0 {
      s' := RawItem(t, done, v, rest, s');
    } else {
      assert Receive(0, 0, b1) == Some((0, b1)) && ExtendSign(0, 0) == v;
    }
  }

  /** The decoder recovers the block, and reads no more than its bits. */
  lemma BlockRoundTrip(t: Tables, done: seq<Sent>, dcTbl: nat, acTbl: nat, c: Zigzag, last: int, se: nat, rest: Items,
                       s: Sent)
    returns (s': Sent)
    requires se + 1 == |c| && BlockLegal(c, last, se) && Coded(t, BlockItems(dcTbl, acTbl, c, last, se, rest))
    requires acTbl < |t.ac|
    ensures Coded(t, rest) && dcTbl < |t.dc|
    ensures DecodeBlock(t.dc[dcTbl], t.ac[acTbl], ItemBits(t, BlockItems(dcTbl, acTbl, c, last, se, rest), s), last, se)
         == Some((c, ItemBits(t, rest, s')))
    ensures Deliver(t, done, s, BlockItems(dcTbl, acTbl, c, last, se, rest)) == Deliver(t, done, s', rest)
  {
    var v := c[0] - last;
    var b1, s1 := DcRoundTrip(t, done, dcTbl, v, AcItems(acTbl, c, 1, 0, se, rest), s);
    var cur := seq(se + 1, k => if k == 0 then c[0] as int else 0);
    s' := AcRoundTrip(t, done, acTbl, c, 1, 0, se, rest, s1, cur);
    assert cur == seq(se + 1, k => if k == 0 then last + v else 0);
  }
}
