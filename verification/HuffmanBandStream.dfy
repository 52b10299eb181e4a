/** Reading the byte stream of a progressive AC scan back, with restart intervals. */
module HuffmanBandStream {
  import opened Numbers
  import opened Coefficients
  import opened Stuffing
  import opened HuffmanBits
  import opened HuffmanModel
  import opened HuffmanScanModel
  import opened HuffmanEncoding
  import opened HuffmanStream
  import opened HuffmanRuns
  import opened HuffmanRunsRoundTrip
  import opened HuffmanProgressive

  // ----- restart intervals -----

  /** The blocks between restart markers: n in each interval, as long as there are more. */
  function Intervals(blocks: seq<CoefBlock>, n: nat): (pieces: seq<seq<CoefBlock>>)
    ensures |pieces| > 0
  {
    if n == 0 || |blocks| <= n then [blocks] else [blocks[..n]] + Intervals(blocks[n..], n)
  }

  function Flat(pieces: seq<seq<CoefBlock>>): (blocks: seq<CoefBlock>) {
    if pieces == [] then [] else pieces[0] + Flat(pieces[1..])
  }

  /** All blocks, each once, and as many in every interval as the interval says. */
  lemma {:induction false} IntervalsCover(blocks: seq<CoefBlock>, n: nat)
    ensures var pieces := Intervals(blocks, n);
            && Flat(pieces) == blocks
            && forall j :: 0 <= j < |pieces| && n > 0 ==>
                 if j < |pieces| - 1 then |pieces[j]| == n else |pieces[j]| <= n
    decreases |blocks|
  {
    if n == 0 || |blocks| <= n {
      assert [blocks][1..] == [] && blocks + [] == blocks;
    } else {
      IntervalsCover(blocks[n..], n);
      assert Intervals(blocks, n)[1..] == Intervals(blocks[n..], n);
      assert blocks[..n] + blocks[n..] == blocks;
    }
  }

  // ----- no restart marker within an interval -----

  predicate Unbroken(p: Items) {
    match p
    case NoItem => true
    case Restart(_) => false
    case Symbol(_, _, _, rest) => Unbroken(rest)
    case Raw(_, _, rest) => Unbroken(rest)
  }

  lemma {:induction false} RawBitsUnbroken(br: seq<Bit>, rest: Items)
    ensures Unbroken(RawBits(br, rest)) == Unbroken(rest)
    decreases |br|
  {
    if br != [] {
      RawBitsUnbroken(br[1..], rest);
    }
  }

  lemma EobItemsUnbroken(tbl: nat, e: nat, bb: seq<Bit>, rest: Items)
    requires e <= MAX_EOBRUN
    ensures Unbroken(EobItems(tbl, e, bb, rest)) == Unbroken(rest)
  {
    RawBitsUnbroken(bb, rest);
  }

  lemma NewItemsUnbroken(tbl: nat, v: int, r: nat, br: seq<Bit>, rest: Items)
    requires r <= 15
    ensures Unbroken(NewItems(tbl, v, r, br, rest)) == Unbroken(rest)
  {
    RawBitsUnbroken(br, rest);
  }

  lemma {:induction false} BandUnbroken(band: Band, hs: seq<seq<int>>, vs: seq<seq<int>>, i: nat, k: nat, r: nat,
                                        br: seq<Bit>,
                                        e: nat, bb: seq<Bit>)
    requires band.Ok() && AllAgree(band, hs, vs) && i <= |vs| && k <= band.se + 1 && e < MAX_EOBRUN
    ensures Unbroken(BandItems(band, hs, vs, i, k, r, br, e, bb))
    decreases |vs| - i, band.se + 1 - k, r
  {
    if i == |vs| {
      EobItemsUnbroken(band.tbl, e, bb, NoItem);
    } else if k > band.se {
      if r == 0 && br == [] {
        BandUnbroken(band, hs, vs, i + 1, band.ss, 0, [], e, bb);
      } else if e + 1 == MAX_EOBRUN || |bb + br| > BE_LIMIT {
        BandUnbroken(band, hs, vs, i + 1, band.ss, 0, [], 0, []);
        EobItemsUnbroken(band.tbl, e + 1, bb + br, BandItems(band, hs, vs, i + 1, band.ss, 0, [], 0, []));
      } else {
        BandUnbroken(band, hs, vs, i + 1, band.ss, 0, [], e + 1, bb + br);
      }
    } else {
      var h, v := hs[i], vs[i];
      if h[k] == 0 && v[k] == 0 {
        BandUnbroken(band, hs, vs, i, k + 1, r + 1, br, e, bb);
      } else if r > 15 && NewAhead(h, v, k) {
        var p := BandItems(band, hs, vs, i, k, r - 16, [], 0, []);
        BandUnbroken(band, hs, vs, i, k, r - 16, [], 0, []);
        RawBitsUnbroken(br, p);
        EobItemsUnbroken(band.tbl, e, bb, Symbol(false, band.tbl, 0xF0, RawBits(br, p)));
      } else if h[k] != 0 {
        BandUnbroken(band, hs, vs, i, k + 1, r, br + [CorrectionBit(v[k])], e, bb);
      } else {
        var p := BandItems(band, hs, vs, i, k + 1, 0, [], 0, []);
        BandUnbroken(band, hs, vs, i, k + 1, 0, [], 0, []);
        NewItemsUnbroken(band.tbl, v[k], r, br, p);
        EobItemsUnbroken(band.tbl, e, bb, NewItems(band.tbl, v[k], r, br, p));
      }
    }
  }

  lemma {:induction false} OneSegment(t: Tables, done: seq<Sent>, s: Sent, p: Items)
    requires Coded(t, p) && Unbroken(p)
    ensures |Deliver(t, done, s, p)| == |done| + 1
    decreases p
  {
    match p
    case NoItem =>
    case Symbol(dc, tbl, symbol, rest) =>
      var code := t.At(dc, tbl);
      OneSegment(t, done, After(s, Low(code.ehufco[symbol], code.ehufsi[symbol], NoBits)), rest);
    case Raw(value, size, rest) => OneSegment(t, done, After(s, Low(value, size, NoBits)), rest);
  }

  // ----- one interval -----

  /** What an interval becomes. */
  function PieceItems(band: Band, piece: seq<CoefBlock>, order: seq<nat>, first: bool, al: nat): (p: Items)
    requires band.Ok() && IsOrder(order, band.se)
  {
    KnownsAgree(band, piece, order, first, al);
    BandItems(band, KnownsOf(band, piece, order, first, al), BandsOf(band, piece, order, al), 0, band.ss, 0, [], 0, [])
  }

  // Always true. Mentioning it opens the two predicates below for piece.
  ghost predicate Open(x: nat, piece: seq<CoefBlock>) {
    true
  }

  /** All coefficients are in range, and all symbols have codes. */
  ghost predicate PieceSendable(band: Band, t: Tables, piece: seq<CoefBlock>, order: seq<nat>, first: bool, al: nat)
    requires band.Ok() && IsOrder(order, band.se)
  {
    forall x: nat :: Open(x, piece) ==>
      && InRange(KnownsOf(band, piece, order, first, al), BandsOf(band, piece, order, al))
      && Coded(t, PieceItems(band, piece, order, first, al))
  }

  ghost predicate AllSendable(band: Band, t: Tables, pieces: seq<seq<CoefBlock>>, order: seq<nat>, first: bool, al: nat)
    requires band.Ok() && IsOrder(order, band.se)
  {
    forall j :: 0 <= j < |pieces| ==> PieceSendable(band, t, pieces[j], order, first, al)
  }

  /** The bytes of an interval, with data for the stuffed ones. */
  ghost predicate Sends(band: Band, t: Tables, piece: seq<CoefBlock>, order: seq<nat>, first: bool, al: nat,
                        data: seq<Byte>)
    requires band.Ok() && IsOrder(order, band.se)
  {
    forall x: nat :: Open(x, piece) ==>
      && PieceSendable(band, t, piece, order, first, al)
      && Coded(t, PieceItems(band, piece, order, first, al))
      && [SentBytes(data)] == Deliver(t, [], Nothing, PieceItems(band, piece, order, first, al))
  }

  /** Encode an interval; the encoder is as at the start of the scan, since nothing is pending after a
      restart marker. */
  method EncodePiece(band: Band, t: Tables, piece: seq<CoefBlock>, order: seq<nat>, first: bool, al: nat)
    returns (ok: bool, out: seq<Byte>, ghost data: seq<Byte>)
    requires band.Ok() && t.Usable() && band.tbl < |t.ac| && IsOrder(order, band.se)
    ensures ok == PieceSendable(band, t, piece, order, first, al)
    ensures ok ==> out == Stuff(data) && Sends(band, t, piece, order, first, al, data)
  {
    assert Open(0, piece);
    KnownsAgree(band, piece, order, first, al);
    ghost var hs, vs := KnownsOf(band, piece, order, first, al), BandsOf(band, piece, order, al);
    ghost var segs;
    ok, out, segs, data := EncodeBlocks(band, t, piece, order, first, al);
    if ok {
      BandUnbroken(band, hs, vs, 0, band.ss, 0, [], 0, []);
      OneSegment(t, [], Nothing, PieceItems(band, piece, order, first, al));
      assert segs == [];
    }
  }

  /** Decode the intervals from j on: one block for each of hss[j], which is what is known of them. */
  function DecodePieces(band: Band, t: Tables, segments: seq<Bits>, hss: seq<seq<seq<int>>>,
                        j: nat): (r: Option<seq<seq<seq<int>>>>)
    requires band.Ok() && band.tbl < |t.ac| && j <= |hss|
    requires forall j, i :: 0 <= j < |hss| && 0 <= i < |hss[j]| ==> |hss[j][i]| == band.se + 1
    decreases |hss| - j
  {
    if j == |hss| then Some([])
    else if j >= |segments| then None
    else
      match DecodeBlocks(band, t.ac[band.tbl], segments[j], hss[j], 0, 0)
      case None => None
      case Some(vs) =>
        match DecodePieces(band, t, segments, hss, j + 1)
        case None => None
        case Some(vss) => Some([vs] + vss)
  }

  function DecodeBandStream(band: Band, t: Tables, src: seq<Byte>,
                            hss: seq<seq<seq<int>>>): (r: Option<seq<seq<seq<int>>>>)
    requires band.Ok() && band.tbl < |t.ac|
    requires forall j, i :: 0 <= j < |hss| && 0 <= i < |hss[j]| ==> |hss[j][i]| == band.se + 1
  {
    DecodePieces(band, t, AllBits(Segments(src, 0, [])), hss, 0)
  }

  function KnownPieces(band: Band, pieces: seq<seq<CoefBlock>>, order: seq<nat>, first: bool,
                       al: nat): (hss: seq<seq<seq<int>>>)
    requires band.Ok() && IsOrder(order, band.se)
    ensures |hss| == |pieces| && forall j :: 0 <= j < |hss| ==> hss[j] == KnownsOf(band, pieces[j], order, first, al)
    ensures forall j, i :: 0 <= j < |hss| && 0 <= i < |hss[j]| ==> |hss[j][i]| == band.se + 1
  {
    var hss := seq(|pieces|, j requires 0 <= j < |pieces| => KnownsOf(band, pieces[j], order, first, al));
    assert forall j :: 0 <= j < |pieces| ==> AllAgree(band, hss[j], BandsOf(band, pieces[j], order, al)) by {
      forall j | 0 <= j < |pieces| ensures AllAgree(band, hss[j], BandsOf(band, pieces[j], order, al)) {
        KnownsAgree(band, pieces[j], order, first, al);
      }
    }
    hss
  }

  function BandPieces(band: Band, pieces: seq<seq<CoefBlock>>, order: seq<nat>, al: nat): (vss: seq<seq<seq<int>>>)
    requires band.Ok() && IsOrder(order, band.se)
    ensures |vss| == |pieces| && forall j :: 0 <= j < |vss| ==> vss[j] == BandsOf(band, pieces[j], order, al)
  {
    seq(|pieces|, j requires 0 <= j < |pieces| => BandsOf(band, pieces[j], order, al))
  }

  lemma PieceDecodes(band: Band, t: Tables, piece: seq<CoefBlock>, order: seq<nat>, first: bool, al: nat,
                     data: seq<Byte>)
    requires band.Ok() && band.tbl < |t.ac| && IsOrder(order, band.se) && Sends(band, t, piece, order, first, al, data)
    ensures (forall i :: 0 <= i < |piece| ==> |KnownsOf(band, piece, order, first, al)[i]| == band.se + 1)
    ensures DecodeBlocks(band, t.ac[band.tbl], ByteBits(data, 0), KnownsOf(band, piece, order, first, al), 0, 0)
         == Some(BandsOf(band, piece, order, al))
  {
    assert Open(0, piece);
    KnownsAgree(band, piece, order, first, al);
    var hs, vs := KnownsOf(band, piece, order, first, al), BandsOf(band, piece, order, al);
    var p := PieceItems(band, piece, order, first, al);
    AllBitsSpelled([data]);
    assert SentAll([data]) == [SentBytes(data)];
    SegmentHolds(t, [], p, AllBits([data]), Deliver(t, [], Nothing, p));
    HuffmanRunsRoundTrip.ScanRoundTrip(band, t, hs, vs, Nothing);
  }

  lemma {:induction false} PiecesDecode(band: Band, t: Tables, pieces: seq<seq<CoefBlock>>, order: seq<nat>,
                                        first: bool, al: nat,
                                        datas: seq<seq<Byte>>, j: nat)
    requires band.Ok() && band.tbl < |t.ac| && IsOrder(order, band.se) && j <= |pieces| == |datas|
    requires forall x :: 0 <= x < |pieces| ==> Sends(band, t, pieces[x], order, first, al, datas[x])
    ensures DecodePieces(band, t, AllBits(datas), KnownPieces(band, pieces, order, first, al), j)
         == Some(BandPieces(band, pieces, order, al)[j..])
    decreases |pieces| - j
  {
    if j < |pieces| {
      PieceDecodes(band, t, pieces[j], order, first, al, datas[j]);
      PiecesDecode(band, t, pieces, order, first, al, datas, j + 1);
      var vss := BandPieces(band, pieces, order, al);
      assert vss[j..] == [vss[j]] + vss[j + 1..];
    }
  }

  // ----- a scan -----

  /** The first intervals are encoded. */
  ghost predicate AllSent(band: Band, t: Tables, pieces: seq<seq<CoefBlock>>, order: seq<nat>, first: bool, al: nat,
                          datas: seq<seq<Byte>>)
    requires band.Ok() && IsOrder(order, band.se)
  {
    |datas| <= |pieces| && forall x :: 0 <= x < |datas| ==> Sends(band, t, pieces[x], order, first, al, datas[x])
  }

  lemma SentNext(band: Band, t: Tables, pieces: seq<seq<CoefBlock>>, order: seq<nat>, first: bool, al: nat,
                 datas: seq<seq<Byte>>, data: seq<Byte>)
    requires band.Ok() && IsOrder(order, band.se) && AllSent(band, t, pieces, order, first, al, datas)
    requires |datas| < |pieces|
    requires Sends(band, t, pieces[|datas|], order, first, al, data)
    ensures AllSent(band, t, pieces, order, first, al, datas + [data])
    ensures |datas| + 1 == |pieces| ==> AllSendable(band, t, pieces, order, first, al)
  {
    forall x | 0 <= x <= |datas| ensures PieceSendable(band, t, pieces[x], order, first, al) {
      assert Open(0, pieces[x]);
    }
  }

  /** The bytes of these intervals, with restart markers between them. */
  ghost predicate Sequel(out: seq<Byte>, datas: seq<seq<Byte>>) {
    |datas| > 0 && out == Joined(datas[..|datas| - 1]) + Stuff(datas[|datas| - 1])
  }

  lemma NextSequel(out: seq<Byte>, datas: seq<seq<Byte>>, data: seq<Byte>)
    requires if datas == [] then out == [] else out == Joined(datas)
    ensures Sequel(out + Stuff(data), datas + [data])
    ensures out + Stuff(data) + RestartMarker(|datas|) == Joined(datas + [data])
  {
    JoinedNext(datas, data);
    assert (datas + [data])[..|datas|] == datas;
  }

  /** Encode the intervals of a scan, with restart markers between them. */
  method EncodePieces(band: Band, t: Tables, pieces: seq<seq<CoefBlock>>, order: seq<nat>, first: bool, al: nat)
    returns (ok: bool, out: seq<Byte>, ghost datas: seq<seq<Byte>>)
    requires band.Ok() && t.Usable() && band.tbl < |t.ac| && IsOrder(order, band.se) && |pieces| > 0
    ensures ok == AllSendable(band, t, pieces, order, first, al)
    ensures ok ==> |datas| == |pieces| && Sequel(out, datas) && AllSent(band, t, pieces, order, first, al, datas)
  {
    out, datas, ok := [], [], true;
    var i := 0;
    while true
      invariant ok && i == |datas| < |pieces| && out == Joined(datas)
      invariant AllSent(band, t, pieces, order, first, al, datas)
      decreases |pieces| - i
    {
      ghost var data;
      var bytes;
      ok, bytes, data := EncodePiece(band, t, pieces[i], order, first, al);
      if !ok {
        return;
      }
      NextSequel(out, datas, data);
      SentNext(band, t, pieces, order, first, al, datas, data);
      out := out + bytes;
      datas := datas + [data];
      if i + 1 == |pieces| {
        return;
      }
      out := out + RestartMarker(i);
      i := i + 1;
    }
  }

  lemma PiecesRead(band: Band, t: Tables, pieces: seq<seq<CoefBlock>>, order: seq<nat>, first: bool, al: nat,
                   out: seq<Byte>, datas: seq<seq<Byte>>, marker: Byte)
    requires band.Ok() && band.tbl < |t.ac| && IsOrder(order, band.se) && marker != 0 && !IsRestart(marker)
    requires |datas| == |pieces| && Sequel(out, datas) && AllSent(band, t, pieces, order, first, al, datas)
    ensures DecodeBandStream(band, t, out + [0xFF, marker], KnownPieces(band, pieces, order, first, al))
         == Some(BandPieces(band, pieces, order, al))
  {
    var last := |datas| - 1;
    StreamIsRead(datas[..last], datas[last], marker);
    assert datas[..last] + [datas[last]] == datas;
    PiecesDecode(band, t, pieces, order, first, al, datas, 0);
    assert BandPieces(band, pieces, order, al)[0..] == BandPieces(band, pieces, order, al);
  }

  /** Encoding an AC scan, first or refinement, and decoding the bytes gives every coefficient of the
      band after the point transform, whatever the restart interval; it fails exactly if a coefficient is
      out of range or a symbol has no code. */
  method SendBand(band: Band, t: Tables, blocks: seq<CoefBlock>, order: seq<nat>, first: bool, al: nat, interval: nat,
                  marker: Byte)
    returns (ok: bool, out: seq<Byte>)
    requires band.Ok() && t.Usable() && band.tbl < |t.ac| && IsOrder(order, band.se) && marker != 0
    requires !IsRestart(marker)
    ensures ok == AllSendable(band, t, Intervals(blocks, interval), order, first, al)
    ensures var pieces := Intervals(blocks, interval);
            var src := out + [0xFF, marker];
            var received := DecodeBandStream(band, t, src, KnownPieces(band, pieces, order, first, al));
            ok ==> received == Some(BandPieces(band, pieces, order, al))
  {
    var pieces := Intervals(blocks, interval);
    ghost var datas;
    ok, out, datas := EncodePieces(band, t, pieces, order, first, al);
    if ok {
      PiecesRead(band, t, pieces, order, first, al, out, datas, marker);
    }
  }
}
