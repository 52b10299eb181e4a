/**
 AC scans of a progressive Huffman image (sections G.1.2.2 and G.1.2.3 of ITU-T T.81): runs of blocks
 that end early, correction bits, and a decoder that inverts them. First scans and refinements are
 one scheme: a coefficient that the decoder knows gets a correction bit, any other one is new.
 */
module HuffmanRuns {
  import opened Numbers
  import opened Coefficients
  import opened HuffmanTable
  import opened HuffmanBits
  import opened HuffmanModel

  const MAX_EOBRUN := 0x7FFF
  const MAX_CORR_BITS := 1000
  const BE_LIMIT := 937  // MAX_CORR_BITS - DCTSIZE2 + 1

  datatype Band = Band(tbl: nat, ss: nat, se: nat) {
    predicate Ok() {
      1 <= ss <= se < 64
    }
  }

  /** A known coefficient with one more bit. */
  function Refined(h: int, bit: Bit): (v: int) {
    if h > 0 then 2 * h + bit else 2 * h - bit
  }

  function CorrectionBit(v: int): (b: Bit) {
    Abs(v) % 2
  }

  /** h is what the decoder knows of v; nothing before the band changes. */
  predicate Agrees(band: Band, h: seq<int>, v: seq<int>) {
    && |h| == |v| == band.se + 1
    && (forall x :: 0 <= x < band.ss && x < |v| ==> h[x] == v[x])
    && forall x :: band.ss <= x < |v| ==> h[x] != 0 ==> v[x] == Refined(h[x], CorrectionBit(v[x]))
  }

  predicate AllAgree(band: Band, hs: seq<seq<int>>, vs: seq<seq<int>>) {
    |hs| == |vs| && forall i :: 0 <= i < |vs| ==> Agrees(band, hs[i], vs[i])
  }

  predicate IsNew(h: seq<int>, v: seq<int>, k: nat)
    requires k < |h| == |v|
  {
    h[k] == 0 && v[k] != 0
  }

  /** A new coefficient comes at k or later. */
  predicate NewAhead(h: seq<int>, v: seq<int>, k: nat)
    requires |h| == |v|
    decreases |v| - k
  {
    k < |v| && (IsNew(h, v, k) || NewAhead(h, v, k + 1))
  }

  /** The size that is sent for v; more bits are an error. */
  function Size(v: int): (n: nat)
    ensures n <= 15
  {
    if Nbits(Abs(v)) <= 15 then Nbits(Abs(v)) else 15
  }

  // ----- items -----

  function RawBits(br: seq<Bit>, rest: Items): (p: Items) {
    if br == [] then rest else Raw(br[0], 1, RawBits(br[1..], rest))
  }

  lemma NbitsOfFive(v: nat)
    ensures Nbits(v) <= 5 + Nbits(v / 32)
  {
    assert Nbits(v / 2) <= 1 + Nbits(v / 2 / 2);
    assert Nbits(v / 2 / 2) <= 1 + Nbits(v / 2 / 2 / 2);
    assert Nbits(v / 2 / 2 / 2) <= 1 + Nbits(v / 2 / 2 / 2 / 2);
    assert Nbits(v / 2 / 2 / 2 / 2) <= 1 + Nbits(v / 2 / 2 / 2 / 2 / 2);
    assert v / 2 / 2 / 2 / 2 / 2 == v / 32;
  }

  /** The length of a run of ends of block needs at most fourteen additional bits. */
  lemma EobSize(e: nat)
    requires 0 < e <= MAX_EOBRUN
    ensures 1 <= Nbits(e) <= 15
  {
    NbitsOfFive(e);
    NbitsOfFive(e / 32);
    NbitsOfFive(e / 1024);
    assert e / 32 / 32 == e / 1024 && e / 1024 / 32 == 0;
  }

  /** e blocks have ended, and bb are the correction bits of what was left of them. */
  function EobItems(tbl: nat, e: nat, bb: seq<Bit>, rest: Items): (p: Items)
    requires e <= MAX_EOBRUN
  {
    if e == 0 then rest
    else
      EobSize(e);
      var n := Nbits(e) - 1;
      Symbol(false, tbl, 16 * n, if n == 0 then RawBits(bb, rest) else Raw(e, n, RawBits(bb, rest)))
  }

  /** A new coefficient v after r zeros, with the correction bits br between them. */
  function NewItems(tbl: nat, v: int, r: nat, br: seq<Bit>, rest: Items): (p: Items)
    requires r <= 15
  {
    Symbol(false, tbl, 16 * r + Size(v), Raw(Additional(v), Size(v), RawBits(br, rest)))
  }

  /** From position k of block i on: r zeros came before, with the correction bits br between them,
      and e blocks before this one have ended, with the correction bits bb. */
  function BandItems(band: Band, hs: seq<seq<int>>, vs: seq<seq<int>>, i: nat, k: nat, r: nat, br: seq<Bit>, e: nat,
                     bb: seq<Bit>): (p: Items)
    requires band.Ok() && AllAgree(band, hs, vs) && i <= |vs| && k <= band.se + 1 && e < MAX_EOBRUN
    decreases |vs| - i, band.se + 1 - k, r
  {
    if i == |vs| then EobItems(band.tbl, e, bb, NoItem)
    else if k > band.se then
      if r == 0 && br == [] then BandItems(band, hs, vs, i + 1, band.ss, 0, [], e, bb)
      else if e + 1 == MAX_EOBRUN || |bb + br| > BE_LIMIT then
        EobItems(band.tbl, e + 1, bb + br, BandItems(band, hs, vs, i + 1, band.ss, 0, [], 0, []))
      else BandItems(band, hs, vs, i + 1, band.ss, 0, [], e + 1, bb + br)
    else
      var h, v := hs[i], vs[i];
      if h[k] == 0 && v[k] == 0 then BandItems(band, hs, vs, i, k + 1, r + 1, br, e, bb)
      else if r > 15 && NewAhead(h, v, k) then
        EobItems(band.tbl, e, bb,
                 Symbol(false, band.tbl, 0xF0, RawBits(br, BandItems(band, hs, vs, i, k, r - 16, [], 0, []))))
      else if h[k] != 0 then BandItems(band, hs, vs, i, k + 1, r, br + [CorrectionBit(v[k])], e, bb)
      else
        EobItems(band.tbl, e, bb, NewItems(band.tbl, v[k], r, br, BandItems(band, hs, vs, i, k + 1, 0, [], 0, [])))
  }

  // ----- decoding -----

  /** Pass r zeros, and read a bit for every known coefficient among them and before the next zero. */
  function Skip(b: Bits, cur: seq<int>, k: nat, r: nat, se: nat): (o: Option<(seq<int>, Bits, nat)>)
    requires se < |cur| && k <= se + 1
    ensures o.Some? ==> |o.value.0| == |cur| && k <= o.value.2 <= se + 1
    decreases se + 1 - k
  {
    if k > se then Some((cur, b, k))
    else if cur[k] != 0 then
      match b
      case NoBits => None
      case Bit(x, rest) => Skip(rest, cur[k := Refined(cur[k], x)], k + 1, r, se)
    else if r == 0 then Some((cur, b, k))
    else Skip(b, cur, k + 1, r - 1, se)
  }

  /** The rest of a block from k on, and the number of blocks after it that have ended already. */
  function DecodeBand(t: CodeTable, b: Bits, cur: seq<int>, k: nat, se: nat): (o: Option<(seq<int>, Bits, nat)>)
    requires se < |cur| && k <= se + 1
    decreases se + 1 - k
  {
    if k > se then Some((cur, b, 0))
    else
      match DecodeSymbol(t, 0, 0, b)
      case None => None
      case Some((s, b1)) =>
        var run, n := s / 16, s % 16;
        if n == 0 && run < 15 then
          match Receive(run, 0, b1)
          case None => None
          case Some((x, b2)) =>
            match Skip(b2, cur, k, se + 1, se)
            case None => None
            case Some((c, b3, _)) => if Shl(1, run) + x <= 0 then None else Some((c, b3, Shl(1, run) + x - 1))
        else if n == 0 then
          match Skip(b1, cur, k, 15, se)
          case None => None
          case Some((c, b2, j)) => if j > se then None else DecodeBand(t, b2, c, j + 1, se)
        else
          match Receive(n, 0, b1)
          case None => None
          case Some((x, b2)) =>
            match Skip(b2, cur, k, run, se)
            case None => None
            case Some((c, b3, j)) => if j > se then None else DecodeBand(t, b3, c[j := ExtendSign(x, n)], j + 1, se)
  }

  /** Blocks i and on; e of them have ended already. */
  function DecodeBlocks(band: Band, t: CodeTable, b: Bits, hs: seq<seq<int>>, i: nat,
                        e: nat): (o: Option<seq<seq<int>>>)
    requires band.Ok() && i <= |hs| && forall j :: 0 <= j < |hs| ==> |hs[j]| == band.se + 1
    decreases |hs| - i
  {
    if i == |hs| then Some([])
    else
      match if e > 0 then Skip(b, hs[i], band.ss, band.se + 1, band.se) else DecodeBand(t, b, hs[i], band.ss, band.se)
      case None => None
      case Some((c, b1, left)) =>
        match DecodeBlocks(band, t, b1, hs, i + 1, if e > 0 then e - 1 else left)
        case None => None
        case Some(cs) => Some([c] + cs)
  }
}
