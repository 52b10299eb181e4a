/** The decoder of progressive AC scans recovers every coefficient. */
module HuffmanRunsRoundTrip {
  import opened Numbers
  import opened Coefficients
  import opened HuffmanTable
  import opened HuffmanBits
  import opened HuffmanModel
  import opened HuffmanRuns

  // ----- correction bits -----

  function BitList(br: seq<Bit>, b: Bits): (p: Bits) {
    if br == [] then b else Bit(br[0], BitList(br[1..], b))
  }

  lemma {:induction false} BitListBoth(x: seq<Bit>, y: seq<Bit>, b: Bits)
    ensures BitList(x + y, b) == BitList(x, BitList(y, b))
    decreases |x|
  {
    if x == [] {
      assert x + y == y;
    } else {
      assert (x + y)[1..] == x[1..] + y;
      BitListBoth(x[1..], y, b);
    }
  }

  lemma {:induction false} RawBitsRead(t: Tables, done: seq<Sent>, br: seq<Bit>, rest: Items, s: Sent)
    returns (s': Sent)
    requires Coded(t, RawBits(br, rest))
    ensures Coded(t, rest) && ItemBits(t, RawBits(br, rest), s) == BitList(br, ItemBits(t, rest, s'))
    ensures Deliver(t, done, s, RawBits(br, rest)) == Deliver(t, done, s', rest)
    decreases |br|
  {
    if br == [] {
      s' := s;
    } else {
      var s1 := After(s, Low(br[0], 1, NoBits));
      s' := RawBitsRead(t, done, br[1..], rest, s1);
      assert Low(br[0], 1, ItemBits(t, RawBits(br[1..], rest), s1))
          == Bit(br[0], ItemBits(t, RawBits(br[1..], rest), s1));
    }
  }

  // ----- positions that were passed -----

  /** What the decoder has of a block when it comes to position k. */
  function Mix(h: seq<int>, v: seq<int>, k: nat): (c: seq<int>)
    requires |h| == |v| && k <= |v|
    ensures |c| == |v|
  {
    v[..k] + h[k..]
  }

  lemma MixNext(band: Band, h: seq<int>, v: seq<int>, k: nat)
    requires Agrees(band, h, v) && k < |v|
    ensures Mix(h, v, k)[k] == h[k] && Mix(h, v, k)[k := v[k]] == Mix(h, v, k + 1)
    ensures h[k] == v[k] ==> Mix(h, v, k) == Mix(h, v, k + 1)
  {
  }

  /** Between j and k there are r zeros and known coefficients with the correction bits br. With z
      zeros before, and if tight, none of these comes after the sixteenth zero. */
  predicate Passed(h: seq<int>, v: seq<int>, j: nat, k: nat, z: nat, r: nat, br: seq<Bit>, tight: bool)
    requires j <= k <= |h| == |v|
    decreases k - j
  {
    if j == k then r == 0 && br == []
    else if h[j] == 0 then v[j] == 0 && r > 0 && Passed(h, v, j + 1, k, z + 1, r - 1, br, tight)
    else br != [] && br[0] == CorrectionBit(v[j]) && (tight ==> z <= 15) && Passed(h, v, j + 1, k, z, r, br[1..], tight)
  }

  lemma {:induction false} PassZero(h: seq<int>, v: seq<int>, j: nat, k: nat, z: nat, r: nat, br: seq<Bit>, tight: bool)
    requires j <= k < |h| == |v| && Passed(h, v, j, k, z, r, br, tight) && h[k] == 0 == v[k]
    ensures Passed(h, v, j, k + 1, z, r + 1, br, tight)
    decreases k - j
  {
    if j == k {
      assert Passed(h, v, j + 1, k + 1, z + 1, r, br, tight);
    } else if h[j] == 0 {
      PassZero(h, v, j + 1, k, z + 1, r - 1, br, tight);
    } else {
      PassZero(h, v, j + 1, k, z, r, br[1..], tight);
    }
  }

  lemma {:induction false} PassKnown(h: seq<int>, v: seq<int>, j: nat, k: nat, z: nat, r: nat, br: seq<Bit>,
                                     tight: bool)
    requires j <= k < |h| == |v| && Passed(h, v, j, k, z, r, br, tight) && h[k] != 0 && (tight ==> z + r <= 15)
    ensures Passed(h, v, j, k + 1, z, r, br + [CorrectionBit(v[k])], tight)
    decreases k - j
  {
    if j == k {
      assert ([] + [CorrectionBit(v[k])])[1..] == [];
      assert Passed(h, v, j + 1, k + 1, z, r, [], tight);
    } else if h[j] == 0 {
      PassKnown(h, v, j + 1, k, z + 1, r - 1, br, tight);
    } else {
      PassKnown(h, v, j + 1, k, z, r, br[1..], tight);
      assert (br + [CorrectionBit(v[k])])[1..] == br[1..] + [CorrectionBit(v[k])];
    }
  }

  lemma {:induction false} PassLoose(h: seq<int>, v: seq<int>, j: nat, k: nat, z: nat, r: nat, br: seq<Bit>,
                                     tight: bool)
    requires j <= k <= |h| == |v| && Passed(h, v, j, k, z, r, br, tight)
    ensures Passed(h, v, j, k, z, r, br, false)
    decreases k - j
  {
    if j < k {
      if h[j] == 0 {
        PassLoose(h, v, j + 1, k, z + 1, r - 1, br, tight);
      } else {
        PassLoose(h, v, j + 1, k, z, r, br[1..], tight);
      }
    }
  }

  /** After the sixteenth zero there are only zeros. */
  lemma {:induction false} PassOnlyZeros(h: seq<int>, v: seq<int>, j: nat, k: nat, z: nat, r: nat, br: seq<Bit>, y: nat)
    requires j <= k <= |h| == |v| && Passed(h, v, j, k, z, r, br, true) && z >= 16
    ensures br == [] && Passed(h, v, j, k, y, r, [], true)
    decreases k - j
  {
    if j < k {
      PassOnlyZeros(h, v, j + 1, k, z + 1, r - 1, br, y + 1);
    }
  }

  /** The decoder passes them too. */
  lemma {:induction false} SkipPassed(band: Band, h: seq<int>, v: seq<int>, j: nat, k: nat, z: nat, r: nat,
                                      br: seq<Bit>, b: Bits, n: nat)
    requires Agrees(band, h, v) && band.ss <= j <= k <= |h| && Passed(h, v, j, k, z, r, br, false) && r <= n
    ensures Skip(BitList(br, b), Mix(h, v, j), j, n, band.se) == Skip(b, Mix(h, v, k), k, n - r, band.se)
    decreases k - j
  {
    if j < k {
      MixNext(band, h, v, j);
      if h[j] == 0 {
        SkipPassed(band, h, v, j + 1, k, z + 1, r - 1, br, b, n - 1);
      } else {
        SkipPassed(band, h, v, j + 1, k, z, r, br[1..], b, n);
      }
    }
  }

  /** Sixteen zeros, and the correction bits between them. */
  lemma {:induction false} SkipSixteen(band: Band, h: seq<int>, v: seq<int>, j: nat, k: nat, z: nat, r: nat,
                                       br: seq<Bit>, b: Bits)
    returns (m: nat)
    requires Agrees(band, h, v) && band.ss <= j <= k <= |h| && Passed(h, v, j, k, z, r, br, true) && z <= 15
    requires z + r >= 16
    ensures j <= m < k && h[m] == 0 == v[m]
    ensures Skip(BitList(br, b), Mix(h, v, j), j, 15 - z, band.se) == Some((Mix(h, v, m), b, m))
    ensures Passed(h, v, m + 1, k, 0, z + r - 16, [], true)
    decreases k - j
  {
    MixNext(band, h, v, j);
    if h[j] == 0 && z == 15 {
      m := j;
      PassOnlyZeros(h, v, j + 1, k, 16, r - 1, br, 0);
    } else if h[j] == 0 {
      m := SkipSixteen(band, h, v, j + 1, k, z + 1, r - 1, br, b);
    } else {
      m := SkipSixteen(band, h, v, j + 1, k, z, r, br[1..], b);
    }
  }

  // ----- what is left of blocks that have ended -----

  function TailBits(h: seq<int>, v: seq<int>, k: nat): (br: seq<Bit>)
    requires |h| == |v|
    decreases |v| - k
  {
    if k >= |v| then [] else if h[k] != 0 then [CorrectionBit(v[k])] + TailBits(h, v, k + 1) else TailBits(h, v, k + 1)
  }

  lemma {:induction false} PassedTail(h: seq<int>, v: seq<int>, j: nat, z: nat, r: nat, br: seq<Bit>)
    requires j <= |h| == |v| && Passed(h, v, j, |v|, z, r, br, false)
    ensures br == TailBits(h, v, j) && !NewAhead(h, v, j)
    decreases |v| - j
  {
    if j < |v| {
      if h[j] == 0 {
        PassedTail(h, v, j + 1, z + 1, r - 1, br);
      } else {
        PassedTail(h, v, j + 1, z, r, br[1..]);
        assert br == [br[0]] + br[1..];
      }
    }
  }

  lemma {:induction false} SkipTail(band: Band, h: seq<int>, v: seq<int>, k: nat, b: Bits, n: nat)
    requires Agrees(band, h, v) && band.ss <= k <= |v| && !NewAhead(h, v, k) && n >= |v| - k
    ensures Skip(BitList(TailBits(h, v, k), b), Mix(h, v, k), k, n, band.se) == Some((v, b, band.se + 1))
    decreases |v| - k
  {
    if k < |v| {
      MixNext(band, h, v, k);
      if h[k] == 0 {
        SkipTail(band, h, v, k + 1, b, n - 1);
      } else {
        assert ([CorrectionBit(v[k])] + TailBits(h, v, k + 1))[1..] == TailBits(h, v, k + 1);
        SkipTail(band, h, v, k + 1, b, n);
      }
    } else {
      assert Mix(h, v, k) == v;
    }
  }

  /** Correction bits of block j from k on, and of the blocks after it and before i. */
  function PendingBits(band: Band, hs: seq<seq<int>>, vs: seq<seq<int>>, j: nat, k: nat, i: nat): (br: seq<Bit>)
    requires AllAgree(band, hs, vs) && j <= i <= |vs|
    decreases i - j
  {
    if j == i then [] else TailBits(hs[j], vs[j], k) + PendingBits(band, hs, vs, j + 1, band.ss, i)
  }

  /** None of these has a new coefficient. */
  predicate AllEnded(band: Band, hs: seq<seq<int>>, vs: seq<seq<int>>, j: nat, k: nat, i: nat)
    requires AllAgree(band, hs, vs) && j <= i <= |vs|
    decreases i - j
  {
    j == i || (!NewAhead(hs[j], vs[j], k) && AllEnded(band, hs, vs, j + 1, band.ss, i))
  }

  /** One block more. */
  lemma {:induction false} PendingMore(band: Band, hs: seq<seq<int>>, vs: seq<seq<int>>, j: nat, k: nat, i: nat)
    requires AllAgree(band, hs, vs) && j < i < |vs| && AllEnded(band, hs, vs, j, k, i)
    requires !NewAhead(hs[i], vs[i], band.ss)
    ensures AllEnded(band, hs, vs, j, k, i + 1)
    ensures PendingBits(band, hs, vs, j, k, i + 1)
         == PendingBits(band, hs, vs, j, k, i) + TailBits(hs[i], vs[i], band.ss)
    decreases i - j
  {
    if j + 1 == i {
      PendingOne(band, hs, vs, i, band.ss);
    } else {
      PendingMore(band, hs, vs, j + 1, band.ss, i);
    }
  }

  lemma PendingOne(band: Band, hs: seq<seq<int>>, vs: seq<seq<int>>, j: nat, k: nat)
    requires AllAgree(band, hs, vs) && j < |vs|
    ensures PendingBits(band, hs, vs, j, k, j + 1) == TailBits(hs[j], vs[j], k)
    ensures AllEnded(band, hs, vs, j, k, j + 1) == !NewAhead(hs[j], vs[j], k)
  {
    assert PendingBits(band, hs, vs, j + 1, band.ss, j + 1) == [];
  }

  // ----- the decoder in the middle of a scan -----

  /** From position k of block i on, of which the decoder has cur. */
  function Resume(band: Band, t: CodeTable, b: Bits, hs: seq<seq<int>>, i: nat, cur: seq<int>,
                  k: nat): (o: Option<seq<seq<int>>>)
    requires band.Ok() && i < |hs| && (forall j :: 0 <= j < |hs| ==> |hs[j]| == band.se + 1) && |cur| == band.se + 1
    requires k <= band.se + 1
  {
    match DecodeBand(t, b, cur, k, band.se)
    case None => None
    case Some((c, b1, left)) =>
      match DecodeBlocks(band, t, b1, hs, i + 1, left)
      case None => None
      case Some(cs) => Some([c] + cs)
  }

  // Always true. Mentioning it opens Reads for b.
  ghost predicate OpenReads(x: nat, b: Bits) {
    true
  }

  /** The decoder reads the blocks from position k of block j on out of b. */
  ghost predicate Reads(band: Band, t: CodeTable, b: Bits, hs: seq<seq<int>>, vs: seq<seq<int>>, j: nat, k: nat)
    requires band.Ok() && AllAgree(band, hs, vs) && j <= |vs| && k <= band.se + 1
  {
    forall x: nat :: OpenReads(x, b) ==>
      j < |vs| ==> Resume(band, t, b, hs, j, Mix(hs[j], vs[j], k), k) == Some(vs[j..])
  }

  lemma ReadsBlocks(band: Band, t: CodeTable, b: Bits, hs: seq<seq<int>>, vs: seq<seq<int>>, j: nat)
    requires band.Ok() && AllAgree(band, hs, vs) && j <= |vs|
    ensures Reads(band, t, b, hs, vs, j, band.ss) <==> DecodeBlocks(band, t, b, hs, j, 0) == Some(vs[j..])
  {
    assert OpenReads(0, b);
    if j < |vs| {
      assert Mix(hs[j], vs[j], band.ss) == hs[j];
    } else {
      assert vs[j..] == [];
    }
  }

  /** A block that is complete. */
  lemma ReadsOn(band: Band, t: CodeTable, b: Bits, hs: seq<seq<int>>, vs: seq<seq<int>>, j: nat)
    requires band.Ok() && AllAgree(band, hs, vs) && j < |vs| && Reads(band, t, b, hs, vs, j + 1, band.ss)
    ensures Reads(band, t, b, hs, vs, j, band.se + 1)
  {
    ReadsBlocks(band, t, b, hs, vs, j + 1);
    assert Mix(hs[j], vs[j], band.se + 1) == vs[j];
    assert vs[j..] == [vs[j]] + vs[j + 1..];
  }

  lemma RunAndSize(r: nat, n: nat)
    requires n <= 15
    ensures (16 * r + n) / 16 == r && (16 * r + n) % 16 == n
  {
  }

  /** How a new coefficient is read: its code, its additional bits, and what is passed before it. */
  lemma DecodesNew(t: CodeTable, b: Bits, b1: Bits, b2: Bits, b3: Bits, cur: seq<int>, c: seq<int>, k: nat, m: nat,
                   se: nat, r: nat, n: nat, x: int)
    requires k <= se < |cur| == |c| && m <= se && k <= m && r <= 15 && 1 <= n <= 15
    requires DecodeSymbol(t, 0, 0, b) == Some((16 * r + n, b1)) && Receive(n, 0, b1) == Some((x, b2))
    requires Skip(b2, cur, k, r, se) == Some((c, b3, m))
    ensures DecodeBand(t, b, cur, k, se) == DecodeBand(t, b3, c[m := ExtendSign(x, n)], m + 1, se)
  {
    RunAndSize(r, n);
  }

  /** What is passed before it, up to position k. */
  lemma SkipToNew(band: Band, h: seq<int>, v: seq<int>, j: nat, k: nat, r: nat, br: seq<Bit>, b: Bits)
    requires Agrees(band, h, v) && band.ss <= j <= k <= band.se && Passed(h, v, j, k, 0, r, br, false) && h[k] == 0
    ensures Skip(BitList(br, b), Mix(h, v, j), j, r, band.se) == Some((Mix(h, v, k), b, k))
  {
    SkipPassed(band, h, v, j, k, 0, r, br, b, r);
    MixNext(band, h, v, k);
  }

  /** The rest of a block in two ways, of which one is part of what is known to be read. */
  lemma ReadsSame(band: Band, t: CodeTable, hs: seq<seq<int>>, vs: seq<seq<int>>, i: nat, j: nat, k: nat, b: Bits,
                  b2: Bits)
    requires band.Ok() && AllAgree(band, hs, vs) && i < |vs| && j <= band.se + 1 && k <= band.se + 1
    requires DecodeBand(t, b, Mix(hs[i], vs[i], j), j, band.se)
          == DecodeBand(t, b2, Mix(hs[i], vs[i], k), k, band.se)
    requires Reads(band, t, b2, hs, vs, i, k)
    ensures Reads(band, t, b, hs, vs, i, j)
  {
    assert OpenReads(0, b2);
  }

  /** A new coefficient after a run. */
  lemma ReadsNew(band: Band, t: CodeTable, hs: seq<seq<int>>, vs: seq<seq<int>>, i: nat, j: nat, k: nat, r: nat,
                 br: seq<Bit>, b: Bits, b1: Bits, b2: Bits)
    requires band.Ok() && AllAgree(band, hs, vs) && i < |vs| && band.ss <= j <= k <= band.se
    requires Passed(hs[i], vs[i], j, k, 0, r, br, false) && r <= 15 && IsNew(hs[i], vs[i], k)
    requires 1 <= Nbits(Abs(vs[i][k])) <= 15
    requires DecodeSymbol(t, 0, 0, b) == Some((16 * r + Nbits(Abs(vs[i][k])), b1))
    requires exists x ::
               && Receive(Nbits(Abs(vs[i][k])), 0, b1) == Some((x, BitList(br, b2)))
               && ExtendSign(x, Nbits(Abs(vs[i][k]))) == vs[i][k]
    requires Reads(band, t, b2, hs, vs, i, k + 1)
    ensures Reads(band, t, b, hs, vs, i, j)
  {
    var h, v := hs[i], vs[i];
    var n := Nbits(Abs(v[k]));
    var x :| Receive(n, 0, b1) == Some((x, BitList(br, b2))) && ExtendSign(x, n) == v[k];
    SkipToNew(band, h, v, j, k, r, br, b2);
    DecodesNew(t, b, b1, BitList(br, b2), b2, Mix(h, v, j), Mix(h, v, k), j, k, band.se, r, n, x);
    MixNext(band, h, v, k);
    ReadsSame(band, t, hs, vs, i, j, k + 1, b, b2);
  }

  /** Sixteen zeros. */
  lemma ReadsZeros(band: Band, t: CodeTable, hs: seq<seq<int>>, vs: seq<seq<int>>, i: nat, j: nat, k: nat, r: nat,
                   br: seq<Bit>, b: Bits, b1: Bits)
    returns (m: nat)
    requires band.Ok() && AllAgree(band, hs, vs) && i < |vs| && band.ss <= j <= k <= band.se
    requires Passed(hs[i], vs[i], j, k, 0, r, br, true) && r >= 16
    requires DecodeSymbol(t, 0, 0, b) == Some((0xF0, BitList(br, b1)))
    ensures j < m <= k && Passed(hs[i], vs[i], m, k, 0, r - 16, [], true)
    ensures Reads(band, t, b1, hs, vs, i, m) ==> Reads(band, t, b, hs, vs, i, j)
  {
    var h, v := hs[i], vs[i];
    var z := SkipSixteen(band, h, v, j, k, 0, r, br, b1);
    MixNext(band, h, v, z);
    m := z + 1;
    assert OpenReads(0, b1);
    assert DecodeBand(t, b, Mix(h, v, j), j, band.se) == DecodeBand(t, b1, Mix(h, v, m), m, band.se);
  }

  /** Blocks j to i that have ended. */
  lemma {:induction false} EndedBlocks(band: Band, t: CodeTable, b: Bits, hs: seq<seq<int>>, vs: seq<seq<int>>, j: nat,
                                       i: nat)
    requires band.Ok() && AllAgree(band, hs, vs) && j <= i <= |vs| && AllEnded(band, hs, vs, j, band.ss, i)
    requires Reads(band, t, b, hs, vs, i, band.ss)
    ensures DecodeBlocks(band, t, BitList(PendingBits(band, hs, vs, j, band.ss, i), b), hs, j, i - j) == Some(vs[j..])
    decreases i - j
  {
    if j == i {
      ReadsBlocks(band, t, b, hs, vs, i);
    } else {
      var rest := PendingBits(band, hs, vs, j + 1, band.ss, i);
      BitListBoth(TailBits(hs[j], vs[j], band.ss), rest, b);
      SkipTail(band, hs[j], vs[j], band.ss, BitList(rest, b), band.se + 1);
      assert Mix(hs[j], vs[j], band.ss) == hs[j];
      EndedBlocks(band, t, b, hs, vs, j + 1, i);
      assert vs[j..] == [vs[j]] + vs[j + 1..];
    }
  }

  /** What an end of block leaves of a block. */
  lemma DecodesEob(t: CodeTable, b: Bits, b1: Bits, cur: seq<int>, k: nat, se: nat, run: nat, x: int, bits: Bits)
    requires se < |cur| && k <= se && run < 15
    requires DecodeSymbol(t, 0, 0, b) == Some((16 * run, b1)) && Receive(run, 0, b1) == Some((x, bits))
    requires Shl(1, run) + x > 0 && Skip(bits, cur, k, se + 1, se).Some?
    ensures var s := Skip(bits, cur, k, se + 1, se).value;
            DecodeBand(t, b, cur, k, se) == Some((s.0, s.1, Shl(1, run) + x - 1))
  {
    assert 16 * run / 16 == run && 16 * run % 16 == 0;
  }

  /** A run of ends of block: the rest of block j and all of the blocks before i. */
  lemma ReadsEnds(band: Band, t: CodeTable, hs: seq<seq<int>>, vs: seq<seq<int>>, j: nat, k: nat, i: nat, run: nat,
                  x: int, b: Bits, b1: Bits, b2: Bits)
    requires band.Ok() && AllAgree(band, hs, vs) && j < i <= |vs| && band.ss <= k <= band.se
    requires AllEnded(band, hs, vs, j, k, i)
    requires run < 15 && DecodeSymbol(t, 0, 0, b) == Some((16 * run, b1))
    requires Receive(run, 0, b1) == Some((x, BitList(PendingBits(band, hs, vs, j, k, i), b2)))
    requires Shl(1, run) + x == i - j && Reads(band, t, b2, hs, vs, i, band.ss)
    ensures Reads(band, t, b, hs, vs, j, k)
  {
    var rest := PendingBits(band, hs, vs, j + 1, band.ss, i);
    BitListBoth(TailBits(hs[j], vs[j], k), rest, b2);
    SkipTail(band, hs[j], vs[j], k, BitList(rest, b2), band.se + 1);
    EndedBlocks(band, t, b2, hs, vs, j + 1, i);
    DecodesEob(t, b, b1, Mix(hs[j], vs[j], k), k, band.se, run, x, BitList(PendingBits(band, hs, vs, j, k, i), b2));
    assert vs[j..] == [vs[j]] + vs[j + 1..];
  }

  // ----- the items of a scan -----

  /** The additional bits of the length of a run. */
  lemma EobLength(e: nat, rest: Bits)
    requires 0 < e <= MAX_EOBRUN
    ensures var n := Nbits(e) - 1; 0 <= n < 15 && Receive(n, 0, Low(e, n, rest)) == Some((e - Shl(1, n), rest))
  {
    EobSize(e);
    NbitsBounds(e);
    var n := Nbits(e) - 1;
    var x := e - Shl(1, n);
    assert Shl(1, n + 1) == 2 * Shl(1, n);
    LowOfSum(x, 1, n, n, rest);
    ShrZero(x, n);
    ReceiveRoundTrip(x, n, rest);
  }

  /** A run of ends of block is read. */
  lemma EobRead(t: Tables, done: seq<Sent>, tbl: nat, e: nat, bb: seq<Bit>, rest: Items, s: Sent)
    returns (s': Sent, b1: Bits)
    requires 0 < e <= MAX_EOBRUN && Coded(t, EobItems(tbl, e, bb, rest)) && tbl < |t.ac|
    ensures Coded(t, rest) && 1 <= Nbits(e) <= 15
    ensures var n := Nbits(e) - 1;
            && DecodeSymbol(t.ac[tbl], 0, 0, ItemBits(t, EobItems(tbl, e, bb, rest), s)) == Some((16 * n, b1))
            && Receive(n, 0, b1) == Some((e - Shl(1, n), BitList(bb, ItemBits(t, rest, s'))))
    ensures Deliver(t, done, s, EobItems(tbl, e, bb, rest)) == Deliver(t, done, s', rest)
  {
    EobSize(e);
    var n := Nbits(e) - 1;
    var p := EobItems(tbl, e, bb, rest);
    var s1 := SymbolItem(t, done, p, s);
    b1 := ItemBits(t, p.rest, s1);
    if n > 0 {
      var s2 := After(s1, Low(e, n, NoBits));
      s' := RawBitsRead(t, done, bb, rest, s2);
      EobLength(e, BitList(bb, ItemBits(t, rest, s')));
    } else {
      s' := RawBitsRead(t, done, bb, rest, s1);
      NbitsBounds(e);
      assert e == 1 && Shl(1, 0) == 1;
    }
  }

  /** The decoder is at position k0 of block j, and e blocks have ended since. */
  predicate Pending(band: Band, hs: seq<seq<int>>, vs: seq<seq<int>>, i: nat, e: nat, bb: seq<Bit>, j: nat, k0: nat)
    requires AllAgree(band, hs, vs) && i <= |vs|
  {
    && j + e == i && band.ss <= k0 <= band.se + 1
    && (if e > 0 then k0 <= band.se && AllEnded(band, hs, vs, j, k0, i) && bb == PendingBits(band, hs, vs, j, k0, i)
        else bb == [])
  }

  /** Where the items go on in block i. */
  function StartOf(band: Band, e: nat, k0: nat): (k: nat) {
    if e > 0 then band.ss else k0
  }

  /** The blocks that have ended are read with the run. */
  lemma ReadsPending(band: Band, t: CodeTable, hs: seq<seq<int>>, vs: seq<seq<int>>, i: nat, e: nat, bb: seq<Bit>,
                     j: nat, k0: nat, n: nat, b: Bits, b1: Bits, b2: Bits)
    requires band.Ok() && AllAgree(band, hs, vs) && i <= |vs| && Pending(band, hs, vs, i, e, bb, j, k0) && e > 0
    requires n < 15 && DecodeSymbol(t, 0, 0, b) == Some((16 * n, b1))
    requires Receive(n, 0, b1) == Some((e - Shl(1, n), BitList(bb, b2))) && Reads(band, t, b2, hs, vs, i, band.ss)
    ensures Reads(band, t, b, hs, vs, j, k0)
  {
    ReadsEnds(band, t, hs, vs, j, k0, i, n, e - Shl(1, n), b, b1, b2);
  }

  /** A run of ends of block, if there is one, and what follows. */
  lemma ReadsEob(band: Band, t: Tables, done: seq<Sent>, hs: seq<seq<int>>, vs: seq<seq<int>>, i: nat, e: nat,
                 bb: seq<Bit>, j: nat, k0: nat, rest: Items, s: Sent)
    returns (s': Sent)
    requires band.Ok() && AllAgree(band, hs, vs) && i <= |vs| && Pending(band, hs, vs, i, e, bb, j, k0)
    requires e <= MAX_EOBRUN
    requires band.tbl < |t.ac| && Coded(t, EobItems(band.tbl, e, bb, rest))
    ensures Coded(t, rest)
    ensures Reads(band, t.ac[band.tbl], ItemBits(t, rest, s'), hs, vs, i, StartOf(band, e, k0))
        ==> Reads(band, t.ac[band.tbl], ItemBits(t, EobItems(band.tbl, e, bb, rest), s), hs, vs, j, k0)
    ensures Deliver(t, done, s, EobItems(band.tbl, e, bb, rest)) == Deliver(t, done, s', rest)
  {
    if e == 0 {
      s' := s;
    } else {
      var b1;
      s', b1 := EobRead(t, done, band.tbl, e, bb, rest, s);
      if Reads(band, t.ac[band.tbl], ItemBits(t, rest, s'), hs, vs, i, band.ss) {
        ReadsPending(band, t.ac[band.tbl], hs, vs, i, e, bb, j, k0, Nbits(e) - 1,
                     ItemBits(t, EobItems(band.tbl, e, bb, rest), s), b1, ItemBits(t, rest, s'));
      }
    }
  }

  predicate SizesOk(hs: seq<seq<int>>, vs: seq<seq<int>>) {
    && |hs| == |vs|
    && forall i, k :: 0 <= i < |vs| && 0 <= k < |vs[i]| == |hs[i]| && hs[i][k] == 0 ==> Nbits(Abs(vs[i][k])) <= 15
  }

  /** The state of the encoder: from position k of block i on. */
  predicate Going(band: Band, hs: seq<seq<int>>, vs: seq<seq<int>>, i: nat, k: nat, r: nat, br: seq<Bit>, e: nat,
                  bb: seq<Bit>, j: nat, k0: nat)
    requires band.Ok() && AllAgree(band, hs, vs)
  {
    && i <= |vs| && e < MAX_EOBRUN && Pending(band, hs, vs, i, e, bb, j, k0) && k <= band.se + 1
    && (i < |vs| ==>
          && StartOf(band, e, k0) <= k
          && Passed(hs[i], vs[i], StartOf(band, e, k0), k, 0, r, br, NewAhead(hs[i], vs[i], k)))
  }

  /** A new coefficient, and what follows it. */
  lemma EmitNew(band: Band, t: Tables, done: seq<Sent>, hs: seq<seq<int>>, vs: seq<seq<int>>, i: nat, k: nat, r: nat,
                br: seq<Bit>, e: nat, bb: seq<Bit>, j: nat, k0: nat,
                q: Items, s: Sent) returns (s': Sent)
    requires band.Ok() && AllAgree(band, hs, vs) && SizesOk(hs, vs) && Going(band, hs, vs, i, k, r, br, e, bb, j, k0)
    requires band.tbl < |t.ac|
    requires i < |vs| && k <= band.se && IsNew(hs[i], vs[i], k) && r <= 15
    requires Coded(t, EobItems(band.tbl, e, bb, NewItems(band.tbl, vs[i][k], r, br, q)))
    ensures Coded(t, q)
    ensures var p := EobItems(band.tbl, e, bb, NewItems(band.tbl, vs[i][k], r, br, q));
            Reads(band, t.ac[band.tbl], ItemBits(t, q, s'), hs, vs, i, k + 1) ==>
              Reads(band, t.ac[band.tbl], ItemBits(t, p, s), hs, vs, j, k0)
    ensures Deliver(t, done, s, EobItems(band.tbl, e, bb, NewItems(band.tbl, vs[i][k], r, br, q)))
         == Deliver(t, done, s', q)
  {
    var p := NewItems(band.tbl, vs[i][k], r, br, q);
    var s1 := ReadsEob(band, t, done, hs, vs, i, e, bb, j, k0, p, s);
    var s2 := SymbolItem(t, done, p, s1);
    var s3 := RawItem(t, done, vs[i][k], RawBits(br, q), s2);
    s' := RawBitsRead(t, done, br, q, s3);
    PassLoose(hs[i], vs[i], StartOf(band, e, k0), k, 0, r, br, NewAhead(hs[i], vs[i], k));
    if Reads(band, t.ac[band.tbl], ItemBits(t, q, s'), hs, vs, i, k + 1) {
      ReadsNew(band, t.ac[band.tbl], hs, vs, i, StartOf(band, e, k0), k, r, br, ItemBits(t, p, s1),
               ItemBits(t, p.rest, s2), ItemBits(t, q, s'));
    }
  }

  /** Sixteen zeros, and what follows them. */
  lemma EmitZeros(band: Band, t: Tables, done: seq<Sent>, hs: seq<seq<int>>, vs: seq<seq<int>>, i: nat, k: nat, r: nat,
                  br: seq<Bit>, e: nat, bb: seq<Bit>, j: nat, k0: nat,
                  q: Items, s: Sent) returns (s': Sent, m: nat)
    requires band.Ok() && AllAgree(band, hs, vs) && Going(band, hs, vs, i, k, r, br, e, bb, j, k0) && band.tbl < |t.ac|
    requires i < |vs| && k <= band.se && NewAhead(hs[i], vs[i], k) && r > 15
    requires Coded(t, EobItems(band.tbl, e, bb, Symbol(false, band.tbl, 0xF0, RawBits(br, q))))
    ensures Coded(t, q) && Going(band, hs, vs, i, k, r - 16, [], 0, [], i, m)
    ensures var p := EobItems(band.tbl, e, bb, Symbol(false, band.tbl, 0xF0, RawBits(br, q)));
            Reads(band, t.ac[band.tbl], ItemBits(t, q, s'), hs, vs, i, m) ==>
              Reads(band, t.ac[band.tbl], ItemBits(t, p, s), hs, vs, j, k0)
    ensures Deliver(t, done, s, EobItems(band.tbl, e, bb, Symbol(false, band.tbl, 0xF0, RawBits(br, q))))
         == Deliver(t, done, s', q)
  {
    var p := Symbol(false, band.tbl, 0xF0, RawBits(br, q));
    var s1 := ReadsEob(band, t, done, hs, vs, i, e, bb, j, k0, p, s);
    var s2 := SymbolItem(t, done, p, s1);
    s' := RawBitsRead(t, done, br, q, s2);
    m := ReadsZeros(band, t.ac[band.tbl], hs, vs, i, StartOf(band, e, k0), k, r, br, ItemBits(t, p, s1),
                    ItemBits(t, q, s'));
  }

  /** The end of a block with something left in it. */
  lemma EndBlock(band: Band, hs: seq<seq<int>>, vs: seq<seq<int>>, i: nat, r: nat, br: seq<Bit>, e: nat, bb: seq<Bit>,
                 j: nat, k0: nat)
    requires band.Ok() && AllAgree(band, hs, vs) && Going(band, hs, vs, i, band.se + 1, r, br, e, bb, j, k0) && i < |vs|
    requires (r > 0 || br != [])
    ensures Pending(band, hs, vs, i + 1, e + 1, bb + br, j, k0)
  {
    PassedTail(hs[i], vs[i], StartOf(band, e, k0), 0, r, br);
    if e == 0 {
      PendingOne(band, hs, vs, i, k0);
      assert bb + br == br;
    } else {
      PendingMore(band, hs, vs, j, k0, i);
    }
  }

  /** The decoder recovers all blocks from where it is. */
  lemma {:induction false} BandRoundTrip(band: Band, t: Tables, done: seq<Sent>, hs: seq<seq<int>>, vs: seq<seq<int>>,
                                         i: nat, k: nat, r: nat, br: seq<Bit>, e: nat, bb: seq<Bit>,
                                         j: nat, k0: nat, s: Sent)
    requires band.Ok() && AllAgree(band, hs, vs) && SizesOk(hs, vs) && Going(band, hs, vs, i, k, r, br, e, bb, j, k0)
    requires band.tbl < |t.ac|
    requires Coded(t, BandItems(band, hs, vs, i, k, r, br, e, bb))
    ensures Reads(band, t.ac[band.tbl], ItemBits(t, BandItems(band, hs, vs, i, k, r, br, e, bb), s), hs, vs, j, k0)
    decreases |vs| - i, band.se + 2 - k, r
  {
    if i == |vs| {
      var _ := ReadsEob(band, t, done, hs, vs, i, e, bb, j, k0, NoItem, s);
    } else if k > band.se {
      BlockRoundTrip(band, t, done, hs, vs, i, r, br, e, bb, j, k0, s);
    } else if hs[i][k] == 0 && vs[i][k] == 0 {
      PassZero(hs[i], vs[i], StartOf(band, e, k0), k, 0, r, br, NewAhead(hs[i], vs[i], k));
      BandRoundTrip(band, t, done, hs, vs, i, k + 1, r + 1, br, e, bb, j, k0, s);
    } else if r > 15 && NewAhead(hs[i], vs[i], k) {
      var q := BandItems(band, hs, vs, i, k, r - 16, [], 0, []);
      var s', m := EmitZeros(band, t, done, hs, vs, i, k, r, br, e, bb, j, k0, q, s);
      BandRoundTrip(band, t, done, hs, vs, i, k, r - 16, [], 0, [], i, m, s');
    } else if hs[i][k] != 0 {
      PassKnown(hs[i], vs[i], StartOf(band, e, k0), k, 0, r, br, NewAhead(hs[i], vs[i], k));
      BandRoundTrip(band, t, done, hs, vs, i, k + 1, r, br + [CorrectionBit(vs[i][k])], e, bb, j, k0, s);
    } else {
      var q := BandItems(band, hs, vs, i, k + 1, 0, [], 0, []);
      var s' := EmitNew(band, t, done, hs, vs, i, k, r, br, e, bb, j, k0, q, s);
      BandRoundTrip(band, t, done, hs, vs, i, k + 1, 0, [], 0, [], i, k + 1, s');
    }
  }

  /** The end of a block. */
  lemma {:induction false} BlockRoundTrip(band: Band, t: Tables, done: seq<Sent>, hs: seq<seq<int>>, vs: seq<seq<int>>,
                                          i: nat, r: nat, br: seq<Bit>, e: nat, bb: seq<Bit>,
                                          j: nat, k0: nat, s: Sent)
    requires band.Ok() && AllAgree(band, hs, vs) && SizesOk(hs, vs)
    requires Going(band, hs, vs, i, band.se + 1, r, br, e, bb, j, k0) && band.tbl < |t.ac| && i < |vs|
    requires Coded(t, BandItems(band, hs, vs, i, band.se + 1, r, br, e, bb))
    ensures Reads(band, t.ac[band.tbl], ItemBits(t, BandItems(band, hs, vs, i, band.se + 1, r, br, e, bb), s), hs, vs,
                  j, k0)
    decreases |vs| - i, 0, 0
  {
    if r == 0 && br == [] {
      BandRoundTrip(band, t, done, hs, vs, i + 1, band.ss, 0, [], 0, [], i + 1, band.ss, s);
      ReadsOn(band, t.ac[band.tbl], ItemBits(t, BandItems(band, hs, vs, i + 1, band.ss, 0, [], 0, []), s), hs, vs, i);
    } else {
      EndBlock(band, hs, vs, i, r, br, e, bb, j, k0);
      if e + 1 == MAX_EOBRUN || |bb + br| > BE_LIMIT {
        var q := BandItems(band, hs, vs, i + 1, band.ss, 0, [], 0, []);
        var s' := ReadsEob(band, t, done, hs, vs, i + 1, e + 1, bb + br, j, k0, q, s);
        BandRoundTrip(band, t, done, hs, vs, i + 1, band.ss, 0, [], 0, [], i + 1, band.ss, s');
      } else {
        BandRoundTrip(band, t, done, hs, vs, i + 1, band.ss, 0, [], e + 1, bb + br, j, k0, s);
      }
    }
  }

  /** All blocks of a scan are recovered from its bits. */
  lemma ScanRoundTrip(band: Band, t: Tables, hs: seq<seq<int>>, vs: seq<seq<int>>, s: Sent)
    requires band.Ok() && AllAgree(band, hs, vs) && SizesOk(hs, vs) && band.tbl < |t.ac|
    requires Coded(t, BandItems(band, hs, vs, 0, band.ss, 0, [], 0, []))
    ensures DecodeBlocks(band, t.ac[band.tbl], ItemBits(t, BandItems(band, hs, vs, 0, band.ss, 0, [], 0, []), s), hs, 0,
                         0)
         == Some(vs)
  {
    BandRoundTrip(band, t, [], hs, vs, 0, band.ss, 0, [], 0, [], 0, band.ss, s);
    ReadsBlocks(band, t.ac[band.tbl], ItemBits(t, BandItems(band, hs, vs, 0, band.ss, 0, [], 0, []), s), hs, vs, 0);
    assert vs[0..] == vs;
  }
}
