/**
 The progressive Huffman encoder for AC scans: the run of ends of block that is pending, and the
 buffer of correction bits that belong behind it.
 */
module HuffmanProgressive {
  import opened Numbers
  import opened Coefficients
  import opened Stuffing
  import opened HuffmanTable
  import opened HuffmanBits
  import opened HuffmanModel
  import opened HuffmanScanModel
  import opened HuffmanEncoding
  import opened HuffmanRuns

  /** The band of a block after the point transform; nothing before the band counts. */
  function BandOf(band: Band, block: CoefBlock, order: seq<nat>, al: nat): (v: seq<int>)
    requires band.Ok() && IsOrder(order, band.se)
    ensures |v| == band.se + 1
  {
    seq(band.se + 1, k requires 0 <= k <= band.se => if k < band.ss then 0 else Transform(block[order[k]], al) as int)
  }

  /** What the decoder knows of a block before a scan. */
  function KnownOf(band: Band, block: CoefBlock, order: seq<nat>, first: bool, al: nat): (h: seq<int>)
    requires band.Ok() && IsOrder(order, band.se)
    ensures |h| == band.se + 1
  {
    if first then seq(band.se + 1, k => 0) else BandOf(band, block, order, al + 1)
  }

  lemma KnownAgrees(band: Band, block: CoefBlock, order: seq<nat>, first: bool, al: nat)
    requires band.Ok() && IsOrder(order, band.se)
    ensures Agrees(band, KnownOf(band, block, order, first, al), BandOf(band, block, order, al))
  {
    if !first {
      forall k | band.ss <= k <= band.se
        ensures var h, v := BandOf(band, block, order, al + 1)[k], BandOf(band, block, order, al)[k];
                h != 0 ==> v == Refined(h, CorrectionBit(v))
      {
        assert Shr(Abs(block[order[k]]), al + 1) == Shr(Abs(block[order[k]]), al) / 2;
      }
    }
  }

  /** The new coefficients of a block before position n are in range. */
  predicate BlockInRange(h: seq<int>, v: seq<int>, n: nat) {
    |h| == |v| && forall k :: 0 <= k < n && k < |v| && h[k] == 0 ==> Nbits(Abs(v[k])) <= MAX_COEF_BITS
  }

  predicate BlocksInRange(hs: seq<seq<int>>, vs: seq<seq<int>>, n: nat) {
    |hs| == |vs| && forall i :: 0 <= i < n && i < |vs| ==> BlockInRange(hs[i], vs[i], |vs[i]|)
  }

  /** All new coefficients are in range. */
  predicate InRange(hs: seq<seq<int>>, vs: seq<seq<int>>) {
    BlocksInRange(hs, vs, |vs|)
  }

  class RunEncoder {
    const band: Band
    const base: HuffmanEncoder
    const bitBuffer: array<Bit>  // correction bits
    var eobrun: nat              // blocks that have ended since the last symbol
    var be: nat                  // correction bits that belong to them

    ghost const hs: seq<seq<int>>
    ghost const vs: seq<seq<int>>
    ghost const goal: seq<Sent>
    ghost const sendable: bool

    constructor (band: Band, t: Tables, ghost hs: seq<seq<int>>, ghost vs: seq<seq<int>>)
      requires band.Ok() && AllAgree(band, hs, vs) && band.tbl < |t.ac| && t.Usable()
      ensures this.band == band && this.hs == hs && this.vs == vs && base.t == t && fresh(base) && fresh(base.w)
      ensures fresh(bitBuffer)
      ensures Ready() && eobrun == 0 && be == 0 && Left(BandItems(band, hs, vs, 0, band.ss, 0, [], 0, []))
      ensures sendable ==> goal == Deliver(t, [], Nothing, BandItems(band, hs, vs, 0, band.ss, 0, [], 0, []))
      ensures sendable == (InRange(hs, vs) && Coded(t, BandItems(band, hs, vs, 0, band.ss, 0, [], 0, [])))
    {
      this.band, this.hs, this.vs := band, hs, vs;
      base := new HuffmanEncoder(HuffScan([], [], [], 0, 0), t);
      bitBuffer := new Bit[MAX_CORR_BITS](_ => 0);
      eobrun, be := 0, 0;
      ghost var p := BandItems(band, hs, vs, 0, band.ss, 0, [], 0, []);
      sendable := InRange(hs, vs) && Coded(t, p);
      goal := if InRange(hs, vs) && Coded(t, p) then Deliver(t, [], Nothing, p) else [];
    }

    /** What is still to be sent is p. */
    ghost predicate Left(p: Items)
      reads base`segs, base.w
    {
      && sendable == (InRange(hs, vs) && Coded(base.t, p))
      && (sendable ==> base.Goal(p) == goal)
    }

    ghost predicate Ready()
      reads base, base.w
    {
      && base.Valid() && band.Ok() && AllAgree(band, hs, vs) && band.tbl < |base.t.ac| && base.t.Usable()
      && bitBuffer.Length == MAX_CORR_BITS
    }

    ghost function Buffered(): (bb: seq<Bit>)
      requires be <= bitBuffer.Length
      reads this`be, bitBuffer
    {
      bitBuffer[..be]
    }

    method Emit(symbol: Symbol, ghost rest: Items) returns (ok: bool)
      requires Ready() && Left(Symbol(false, band.tbl, symbol, rest))
      modifies base.w
      ensures Ready() && if ok then Left(rest) else !sendable
    {
      ok := base.EmitSymbol(false, band.tbl, symbol, if Coded(base.t, rest) then rest else NoItem);
    }

    method EmitRaw(value: int, size: nat, ghost rest: Items)
      requires Ready() && Left(Raw(value, size, rest)) && 1 <= size <= 16 && -0x1_0000 < value
      modifies base.w
      ensures Ready() && Left(rest)
    {
      base.EmitAdditional(value, size, if Coded(base.t, rest) then rest else NoItem);
    }

    /** The n bits of the buffer from start on. */
    method EmitBufferedBits(start: nat, n: nat, ghost rest: Items)
      requires Ready() && start + n <= bitBuffer.Length && Left(RawBits(bitBuffer[start..start + n], rest))
      modifies base.w
      ensures Ready() && Left(rest)
    {
      var i := 0;
      while i < n
        invariant i <= n && Ready() && Left(RawBits(bitBuffer[start + i..start + n], rest))
      {
        assert bitBuffer[start + i..start + n][1..] == bitBuffer[start + i + 1..start + n];
        EmitRaw(bitBuffer[start + i], 1, RawBits(bitBuffer[start + i + 1..start + n], rest));
        i := i + 1;
      }
    }

    /** A pending run of ends of block, and its correction bits. */
    method EmitEobrun(ghost rest: Items) returns (ok: bool)
      requires Ready() && be <= bitBuffer.Length && (be > 0 ==> eobrun > 0) && eobrun <= MAX_EOBRUN
      requires Left(EobItems(band.tbl, eobrun, Buffered(), rest))
      modifies base.w, `eobrun, `be
      ensures Ready() && (if ok then Left(rest) && eobrun == 0 && be == 0 else !sendable)
    {
      ok := true;
      if eobrun > 0 {
        ghost var bb := Buffered();
        EobSize(eobrun);
        var temp: nat := eobrun / 2;
        var nbits: nat := 0;
        while temp != 0
          invariant nbits + Nbits(temp) == Nbits(eobrun) - 1
        {
          temp := temp / 2;
          nbits := nbits + 1;
        }
        assert nbits <= 14;  // so that the symbol is one
        ok := Emit(16 * nbits, if nbits == 0 then RawBits(bb, rest) else Raw(eobrun, nbits, RawBits(bb, rest)));
        if !ok {
          return;
        }
        if nbits > 0 {
          EmitRaw(eobrun, nbits, RawBits(bb, rest));
        }
        eobrun := 0;
        EmitBufferedBits(0, be, rest);
        be := 0;
      }
    }

    // ----- blocks -----

    /** What is still to be sent from position k of block i on. */
    ghost function Rest(i: nat, k: nat, r: nat, br: seq<Bit>, e: nat, bb: seq<Bit>): (p: Items)
      requires band.Ok() && AllAgree(band, hs, vs) && i <= |vs| && k <= band.se + 1 && e < MAX_EOBRUN
    {
      BandItems(band, hs, vs, i, k, r, br, e, bb)
    }

    /** Between blocks: room for a block of correction bits is left. */
    ghost predicate Between(i: nat)
      reads this, base, base.w, bitBuffer
    {
      && Ready() && i <= |vs| && BlocksInRange(hs, vs, i) && eobrun < MAX_EOBRUN && be <= BE_LIMIT
      && (be > 0 ==> eobrun > 0)
      && Left(Rest(i, band.ss, 0, [], eobrun, Buffered()))
    }

    /** What a new coefficient adds after a run. */
    ghost function AtNew(i: nat, k: nat, r: nat, br: seq<Bit>): (p: Items)
      requires band.Ok() && AllAgree(band, hs, vs) && i < |vs| && k <= band.se
    {
      if r > 15 then Symbol(false, band.tbl, 0xF0, RawBits(br, Rest(i, k, r - 16, [], 0, [])))
      else NewItems(band.tbl, vs[i][k], r, br, Rest(i, k + 1, 0, [], 0, []))
    }

    lemma NewRest(i: nat, k: nat, r: nat, br: seq<Bit>, e: nat, bb: seq<Bit>)
      requires band.Ok() && AllAgree(band, hs, vs) && i < |vs| && k <= band.se && e < MAX_EOBRUN
      requires IsNew(hs[i], vs[i], k)
      ensures Rest(i, k, r, br, e, bb) == EobItems(band.tbl, e, bb, AtNew(i, k, r, br))
      ensures Rest(i, k, r, br, 0, []) == AtNew(i, k, r, br)
    {
    }

    /** A new coefficient v after r zeros, in a first scan. */
    method FirstCoef(v: Coef, r0: nat, ghost i: nat, ghost k: nat) returns (ok: bool)
      requires Ready() && be == 0 && eobrun < MAX_EOBRUN && i < |vs| && k <= band.se && vs[i][k] == v
      requires IsNew(hs[i], vs[i], k)
      requires Left(Rest(i, k, r0, [], eobrun, []))
      modifies base.w, `eobrun, `be
      ensures Ready()
      ensures (if ok then eobrun == 0 && be == 0 && Left(Rest(i, k + 1, 0, [], 0, [])) && Nbits(Abs(v)) <= MAX_COEF_BITS
               else !sendable)
    {
      NewRest(i, k, r0, [], eobrun, []);
      assert Buffered() == [];
      ok := EmitEobrun(AtNew(i, k, r0, []));
      var r: nat := r0;
      while ok && r > 15
        invariant Ready() && (if ok then eobrun == 0 && be == 0 && Left(Rest(i, k, r, [], 0, [])) else !sendable)
      {
        NewRest(i, k, r, [], 0, []);
        ok := Emit(0xF0, Rest(i, k, r - 16, [], 0, []));
        r := r - 16;
      }
      if !ok {
        return;
      }
      NewRest(i, k, r, [], 0, []);
      var nbits := CountBitsNonzero(Abs(v));
      if nbits > MAX_COEF_BITS {
        assert !BlockInRange(hs[i], vs[i], |vs[i]|);
        return false;
      }
      var temp2: int := if v < 0 then -(Abs(v) as int) - 1 else v;
      ok := Emit(16 * r + nbits, Raw(temp2, nbits, Rest(i, k + 1, 0, [], 0, [])));
      if ok {
        EmitRaw(temp2, nbits, Rest(i, k + 1, 0, [], 0, []));
      }
    }

    /** The end of a block: r zeros and n correction bits are left. */
    method EndBlock(r: nat, n: nat, ghost i: nat) returns (ok: bool)
      requires Ready() && i < |vs| && eobrun < MAX_EOBRUN && be <= BE_LIMIT && (be > 0 ==> eobrun > 0)
      requires be + n <= MAX_CORR_BITS
      requires BlocksInRange(hs, vs, i + 1)
      requires Left(Rest(i, band.se + 1, r, bitBuffer[be..be + n], eobrun, Buffered()))
      modifies base.w, `eobrun, `be
      ensures ok ==> Between(i + 1) && be <= old(be) + n
      ensures !ok ==> !sendable
    {
      ok := true;
      if r > 0 || n > 0 {
        assert bitBuffer[..be] + bitBuffer[be..be + n] == bitBuffer[..be + n];
        eobrun := eobrun + 1;
        be := be + n;
        if eobrun == MAX_EOBRUN || be > BE_LIMIT {
          ok := EmitEobrun(Rest(i + 1, band.ss, 0, [], 0, []));
        }
      } else {
        assert bitBuffer[be..be + n] == [];
      }
    }

    /** encode_mcu_AC_first */
    method EncodeMcuFirst(block: CoefBlock, order: seq<nat>, al: nat, ghost i: nat) returns (ok: bool)
      requires Between(i) && i < |vs| && IsOrder(order, band.se) && be == 0
      requires vs[i] == BandOf(band, block, order, al) && hs[i] == KnownOf(band, block, order, true, al)
      modifies base.w, `eobrun, `be
      ensures ok ==> Between(i + 1) && be == 0
      ensures !ok ==> !sendable
    {
      assert Buffered() == [];
      var r: nat, k: nat := 0, band.ss;
      while k <= band.se
        invariant band.ss <= k <= band.se + 1 && Ready() && eobrun < MAX_EOBRUN && be == 0
        invariant Left(Rest(i, k, r, [], eobrun, []))
        invariant BlockInRange(hs[i], vs[i], k)
      {
        var temp := block[order[k]];
        if temp == 0 {
          r := r + 1;
        } else {
          var v := Transform(temp, al);
          if v == 0 {
            r := r + 1;
          } else {
            ok := FirstCoef(v, r, i, k);
            if !ok {
              return;
            }
            r := 0;
          }
        }
        k := k + 1;
      }
      assert bitBuffer[be..be + 0] == [] && Buffered() == [];
      ok := EndBlock(r, 0, i);
    }

    /** The last new coefficient at k or later, or last. */
    static lemma {:induction false} NoneAhead(h: seq<int>, v: seq<int>, k: nat)
      requires |h| == |v| && forall x :: k <= x < |v| ==> !IsNew(h, v, x)
      ensures !NewAhead(h, v, k)
      decreases |v| - k
    {
      if k < |v| {
        NoneAhead(h, v, k + 1);
      }
    }

    static lemma {:induction false} SomeAhead(h: seq<int>, v: seq<int>, k: nat, x: nat)
      requires |h| == |v| && k <= x < |v| && IsNew(h, v, x)
      ensures NewAhead(h, v, k)
      decreases x - k
    {
      if k < x {
        SomeAhead(h, v, k + 1, x);
      }
    }

    /** The absolute values of a block, and the position of its last new coefficient. */
    method Prepare(block: CoefBlock, order: seq<nat>, al: nat) returns (absvalues: seq<nat>, eob: nat)
      requires band.Ok() && IsOrder(order, band.se)
      ensures var h, v := KnownOf(band, block, order, false, al), BandOf(band, block, order, al);
              && |absvalues| == band.se + 1 && (forall k :: band.ss <= k <= band.se ==> absvalues[k] == Abs(v[k]))
              && (forall k :: band.ss <= k <= band.se ==>
                    (IsNew(h, v, k) <==> Abs(v[k]) == 1) && (h[k] != 0 <==> Abs(v[k]) > 1))
              && (forall k: nat :: band.ss <= k <= band.se ==> (NewAhead(h, v, k) <==> k <= eob))
    {
      ghost var h, v := KnownOf(band, block, order, false, al), BandOf(band, block, order, al);
      eob := 0;
      absvalues := seq<nat>(band.ss, i => 0);
      var k := band.ss;
      while k <= band.se
        invariant band.ss <= k == |absvalues| <= band.se + 1
        invariant (forall x :: band.ss <= x < k ==> absvalues[x] == Abs(v[x]))
        invariant eob < k && (forall x :: eob < x < k && x >= band.ss ==> Abs(v[x]) != 1)
        invariant (eob > 0 ==> eob >= band.ss && Abs(v[eob]) == 1)
      {
        ShrBounded(Abs(block[order[k]]), al);
        var temp: nat := Shr(Abs(block[order[k]]), al);
        absvalues := absvalues + [temp];
        if temp == 1 {
          eob := k;
        }
        k := k + 1;
      }
      forall k | band.ss <= k <= band.se
        ensures (IsNew(h, v, k) <==> Abs(v[k]) == 1) && (h[k] != 0 <==> Abs(v[k]) > 1)
      {
        assert Shr(Abs(block[order[k]]), al + 1) == Shr(Abs(block[order[k]]), al) / 2;
      }
      forall k: nat | band.ss <= k <= band.se
        ensures NewAhead(h, v, k) <==> k <= eob
      {
        if k <= eob {
          SomeAhead(h, v, k, eob);
        } else {
          NoneAhead(h, v, k);
        }
      }
    }

    /** In a block of a refinement: n correction bits are buffered behind those of earlier blocks. */
    ghost predicate InBlock(i: nat, k: nat, r: nat, n: nat)
      reads this, base, base.w, bitBuffer
    {
      && Ready() && i < |vs| && band.ss <= k <= band.se + 1 && eobrun < MAX_EOBRUN && be <= BE_LIMIT
      && (be > 0 ==> eobrun > 0) && n <= k - band.ss
      && Left(Rest(i, k, r, bitBuffer[be..be + n], eobrun, Buffered()))
    }

    /** Runs of sixteen zeros that cannot be folded into an end of block. */
    method RefineZeros(r0: nat, n0: nat, k: nat, ahead: bool, ghost i: nat) returns (ok: bool, r: nat, n: nat)
      requires InBlock(i, k, r0, n0) && k <= band.se && (hs[i][k] != 0 || vs[i][k] != 0)
      requires ahead == NewAhead(hs[i], vs[i], k)
      modifies base.w, `eobrun, `be
      ensures if ok then InBlock(i, k, r, n) && (ahead ==> r <= 15) else !sendable
    {
      r, n, ok := r0, n0, true;
      while r > 15 && ahead
        invariant ok && InBlock(i, k, r, n)
        decreases r
      {
        ghost var br, q := bitBuffer[be..be + n], Rest(i, k, r - 16, [], 0, []);
        var start := be;
        ok := EmitEobrun(Symbol(false, band.tbl, 0xF0, RawBits(br, q)));
        if !ok {
          return;
        }
        ok := Emit(0xF0, RawBits(br, q));
        if !ok {
          return;
        }
        r := r - 16;
        EmitBufferedBits(start, n, q);
        n := 0;
        assert bitBuffer[be..be + n] == [] && Buffered() == [];
      }
    }

    /** A new coefficient of a refinement. */
    method RefineCoef(negative: bool, r: nat, n: nat, ghost k: nat, ghost i: nat) returns (ok: bool)
      requires InBlock(i, k, r, n) && k <= band.se && IsNew(hs[i], vs[i], k) && r <= 15
      requires vs[i][k] == if negative then -1 else 1
      modifies base.w, `eobrun, `be
      ensures if ok then InBlock(i, k + 1, 0, 0) && be == 0 else !sendable
    {
      ghost var br, q := bitBuffer[be..be + n], Rest(i, k + 1, 0, [], 0, []);
      NewRest(i, k, r, br, eobrun, Buffered());
      assert Nbits(1) == 1 && Size(vs[i][k]) == 1;
      var start := be;
      ok := EmitEobrun(NewItems(band.tbl, vs[i][k], r, br, q));
      if !ok {
        return;
      }
      ghost var sign := if negative then -2 else 1;
      ok := Emit(16 * r + 1, Raw(sign, 1, RawBits(br, q)));
      if !ok {
        return;
      }
      assert Low(sign, 1, NoBits) == Low(if negative then 0 else 1, 1, NoBits);
      EmitRaw(if negative then 0 else 1, 1, RawBits(br, q));
      EmitBufferedBits(start, n, q);
      assert bitBuffer[be..be + 0] == [] && Buffered() == [];
    }

    lemma ZeroNext(i: nat, k: nat, r: nat, n: nat)
      requires InBlock(i, k, r, n) && k <= band.se && hs[i][k] == 0 && vs[i][k] == 0
      ensures InBlock(i, k + 1, r + 1, n)
    {
    }

    /** A coefficient that is known, or a new one. */
    method RefineNonzero(temp: nat, negative: bool, r0: nat, n0: nat, k: nat, ahead: bool, ghost i: nat)
      returns (ok: bool, r: nat, n: nat)
      requires InBlock(i, k, r0, n0) && k <= band.se && temp > 0 && ahead == NewAhead(hs[i], vs[i], k)
      requires temp == Abs(vs[i][k]) && (IsNew(hs[i], vs[i], k) <==> temp == 1) && (hs[i][k] != 0 <==> temp > 1)
      requires negative <==> vs[i][k] < 0
      modifies base.w, `eobrun, `be, bitBuffer
      ensures if ok then InBlock(i, k + 1, r, n) else !sendable
    {
      ok, r, n := RefineZeros(r0, n0, k, ahead, i);
      if !ok {
        return;
      }
      if temp > 1 {
        Buffer(temp % 2, r, n, k, i);
        n := n + 1;
      } else {
        ok := RefineCoef(negative, r, n, k, i);
        r, n := 0, 0;
      }
    }

    /** The coefficient at position k. */
    method RefineNext(temp: nat, negative: bool, r0: nat, n0: nat, k: nat, ahead: bool, ghost i: nat)
      returns (ok: bool, r: nat, n: nat)
      requires InBlock(i, k, r0, n0) && k <= band.se && ahead == NewAhead(hs[i], vs[i], k)
      requires temp == Abs(vs[i][k]) && (IsNew(hs[i], vs[i], k) <==> temp == 1) && (hs[i][k] != 0 <==> temp > 1)
      requires temp > 0 ==> (negative <==> vs[i][k] < 0)
      modifies base.w, `eobrun, `be, bitBuffer
      ensures if ok then InBlock(i, k + 1, r, n) else !sendable
    {
      if temp == 0 {
        ZeroNext(i, k, r0, n0);
        ok, r, n := true, r0 + 1, n0;
      } else {
        ok, r, n := RefineNonzero(temp, negative, r0, n0, k, ahead, i);
      }
    }

    /** encode_mcu_AC_refine */
    method EncodeMcuRefine(block: CoefBlock, order: seq<nat>, al: nat, ghost i: nat) returns (ok: bool)
      requires Between(i) && i < |vs| && IsOrder(order, band.se)
      requires vs[i] == BandOf(band, block, order, al) && hs[i] == KnownOf(band, block, order, false, al)
      modifies base.w, `eobrun, `be, bitBuffer
      ensures ok ==> Between(i + 1)
      ensures !ok ==> !sendable
    {
      var absvalues, eob := Prepare(block, order, al);
      assert Nbits(1) == 1 && BlockInRange(hs[i], vs[i], |vs[i]|);
      var r: nat, n: nat, k: nat := 0, 0, band.ss;
      assert bitBuffer[be..be + n] == [];
      while k <= band.se
        invariant band.ss <= k <= band.se + 1 && InBlock(i, k, r, n)
      {
        ok, r, n := RefineNext(absvalues[k], block[order[k]] < 0, r, n, k, k <= eob, i);
        if !ok {
          return;
        }
        k := k + 1;
      }
      ok := EndBlock(r, n, i);
    }

    /** One more correction bit. */
    method Buffer(bit: Bit, ghost r: nat, n: nat, ghost k: nat, ghost i: nat)
      requires InBlock(i, k, r, n) && k <= band.se && hs[i][k] != 0 && bit == CorrectionBit(vs[i][k])
      requires (NewAhead(hs[i], vs[i], k) ==> r <= 15)
      modifies bitBuffer
      ensures InBlock(i, k + 1, r, n + 1)
    {
      ghost var br, bb := bitBuffer[be..be + n], Buffered();
      bitBuffer[be + n] := bit;
      assert bitBuffer[be..be + n + 1] == br + [bit] && Buffered() == bb;
    }

    /** finish_pass_huff: whatever is pending, and ones to fill the last byte. */
    method FinishPass() returns (ok: bool)
      requires Between(|vs|)
      modifies this, base, base.w
      ensures ok == sendable
      ensures ok ==>
                && base.w.out == Joined(base.segs) + Stuff(base.w.data)
                && SentAll(base.segs) + [SentBytes(base.w.data)] == goal
    {
      ok := EmitEobrun(NoItem);
      if ok {
        base.FinishPass();
      }
    }
  }

  function BandsOf(band: Band, blocks: seq<CoefBlock>, order: seq<nat>, al: nat): (vs: seq<seq<int>>)
    requires band.Ok() && IsOrder(order, band.se)
    ensures |vs| == |blocks| && forall i :: 0 <= i < |vs| ==> vs[i] == BandOf(band, blocks[i], order, al)
  {
    seq(|blocks|, i requires 0 <= i < |blocks| => BandOf(band, blocks[i], order, al))
  }

  /** What the decoder knows before a scan: nothing, or what the scan before it sent. */
  function KnownsOf(band: Band, blocks: seq<CoefBlock>, order: seq<nat>, first: bool, al: nat): (hs: seq<seq<int>>)
    requires band.Ok() && IsOrder(order, band.se)
    ensures |hs| == |blocks| && forall i :: 0 <= i < |hs| ==> hs[i] == KnownOf(band, blocks[i], order, first, al)
  {
    seq(|blocks|, i requires 0 <= i < |blocks| => KnownOf(band, blocks[i], order, first, al))
  }

  lemma KnownsAgree(band: Band, blocks: seq<CoefBlock>, order: seq<nat>, first: bool, al: nat)
    requires band.Ok() && IsOrder(order, band.se)
    ensures AllAgree(band, KnownsOf(band, blocks, order, first, al), BandsOf(band, blocks, order, al))
  {
    forall i | 0 <= i < |blocks|
      ensures Agrees(band, KnownsOf(band, blocks, order, first, al)[i], BandsOf(band, blocks, order, al)[i])
    {
      KnownAgrees(band, blocks[i], order, first, al);
    }
  }

  /** All blocks of a scan; fails exactly if a coefficient is out of range or a symbol has no code. */
  method EncodeBlocks(band: Band, t: Tables, blocks: seq<CoefBlock>, order: seq<nat>, first: bool, al: nat)
    returns (ok: bool, out: seq<Byte>, ghost segs: seq<seq<Byte>>, ghost data: seq<Byte>)
    requires band.Ok() && t.Usable() && band.tbl < |t.ac| && IsOrder(order, band.se)
    requires AllAgree(band, KnownsOf(band, blocks, order, first, al), BandsOf(band, blocks, order, al))
    ensures var hs, vs := KnownsOf(band, blocks, order, first, al), BandsOf(band, blocks, order, al);
            var p := BandItems(band, hs, vs, 0, band.ss, 0, [], 0, []);
            && ok == (InRange(hs, vs) && Coded(t, p))
            && (ok ==>
                  out == Joined(segs) + Stuff(data) && SentAll(segs) + [SentBytes(data)] == Deliver(t, [], Nothing, p))
  {
    ghost var hs, vs := KnownsOf(band, blocks, order, first, al), BandsOf(band, blocks, order, al);
    var e := new RunEncoder(band, t, hs, vs);
    out, segs, data, ok := [], [], [], true;
    var i := 0;
    while i < |blocks|
      invariant i <= |blocks| && e.Between(i) && (first ==> e.be == 0) && fresh(e) && fresh(e.base) && fresh(e.base.w)
      invariant fresh(e.bitBuffer)
    {
      if first {
        ok := e.EncodeMcuFirst(blocks[i], order, al, i);
      } else {
        ok := e.EncodeMcuRefine(blocks[i], order, al, i);
      }
      if !ok {
        return;
      }
      i := i + 1;
    }
    ok := e.FinishPass();
    out, segs, data := e.base.w.out, e.base.segs, e.base.w.data;
  }
}
