/** Reading the byte stream of a sequential Huffman scan back. */
module HuffmanStream {
  import opened Numbers
  import opened Coefficients
  import opened Stuffing
  import opened HuffmanBits
  import opened HuffmanModel
  import opened HuffmanScanModel
  import opened HuffmanEncoding

  predicate IsRestart(m: Byte) {
    0xD0 <= m <= 0xD7
  }

  /** Remove the stuffing from pos on and split the data at restart markers; any other marker ends
      it. cur is the data of the current segment so far. */
  function Segments(src: seq<Byte>, pos: nat, cur: seq<Byte>): (segs: seq<seq<Byte>>)
    ensures |segs| > 0
    decreases |src| - pos
  {
    if pos >= |src| then [cur]
    else if src[pos] != 0xFF then Segments(src, pos + 1, cur + [src[pos]])
    else if pos + 1 >= |src| then [cur]
    else if src[pos + 1] == 0 then Segments(src, pos + 2, cur + [0xFF])
    else if IsRestart(src[pos + 1]) then [cur] + Segments(src, pos + 2, [])
    else [cur]
  }

  /** src holds s at pos. */
  predicate At(src: seq<Byte>, pos: nat, s: seq<Byte>) {
    pos + |s| <= |src| && src[pos..pos + |s|] == s
  }

  lemma AtSplit(src: seq<Byte>, pos: nat, a: seq<Byte>, b: seq<Byte>)
    requires At(src, pos, a + b)
    ensures At(src, pos, a) && At(src, pos + |a|, b)
  {
    var s := src[pos..pos + |a + b|];
    assert s[..|a|] == a && s[|a|..] == b;
    assert src[pos..pos + |a|] == s[..|a|];
    assert src[pos + |a|..pos + |a| + |b|] == s[|a|..];
  }

  /** Stuffed bytes are read back. */
  lemma {:induction false} ReadStuffed(src: seq<Byte>, pos: nat, u: seq<Byte>, cur: seq<Byte>)
    requires At(src, pos, Stuff(u))
    ensures Segments(src, pos, cur) == Segments(src, pos + |Stuff(u)|, cur + u)
    decreases |u|
  {
    if u == [] {
      assert cur + u == cur;
    } else {
      var v, b := u[..|u| - 1], u[|u| - 1];
      StuffSnoc(u);
      AtSplit(src, pos, Stuff(v), StuffByte(b));
      ReadStuffed(src, pos, v, cur);
      ReadStuffedByte(src, pos, u, v, b, cur);
    }
  }

  /** The last byte of them. */
  lemma ReadStuffedByte(src: seq<Byte>, pos: nat, u: seq<Byte>, v: seq<Byte>, b: Byte, cur: seq<Byte>)
    requires u == v + [b] && Stuff(u) == Stuff(v) + StuffByte(b) && At(src, pos + |Stuff(v)|, StuffByte(b))
    requires Segments(src, pos, cur) == Segments(src, pos + |Stuff(v)|, cur + v)
    ensures Segments(src, pos, cur) == Segments(src, pos + |Stuff(u)|, cur + u)
  {
    ReadByte(src, pos + |Stuff(v)|, b, cur + v);
    assert cur + v + [b] == cur + u;
  }

  lemma StuffSnoc(u: seq<Byte>)
    requires u != []
    ensures Stuff(u) == Stuff(u[..|u| - 1]) + StuffByte(u[|u| - 1])
  {
  }

  lemma ReadByte(src: seq<Byte>, p: nat, b: Byte, cur: seq<Byte>)
    requires At(src, p, StuffByte(b))
    ensures Segments(src, p, cur) == Segments(src, p + |StuffByte(b)|, cur + [b])
  {
    assert src[p..p + |StuffByte(b)|][0] == b;
    if b == 255 {
      assert src[p..p + 2][1] == 0;
    }
  }

  lemma ReadRestart(src: seq<Byte>, p: nat, n: nat, cur: seq<Byte>)
    requires At(src, p, RestartMarker(n))
    ensures Segments(src, p, cur) == [cur] + Segments(src, p + 2, [])
  {
    assert src[p..p + 2][0] == 0xFF && src[p..p + 2][1] == RestartMarker(n)[1];
  }

  /** One more segment. */
  lemma ReadSegment(src: seq<Byte>, pos: nat, u: seq<Byte>, n: nat)
    requires At(src, pos, Stuff(u)) && At(src, pos + |Stuff(u)|, RestartMarker(n))
    ensures Segments(src, pos, []) == [u] + Segments(src, pos + |Stuff(u)| + 2, [])
  {
    ReadStuffed(src, pos, u, []);
    ReadRestart(src, pos + |Stuff(u)|, n, u);
    assert [] + u == u;
  }

  lemma SegmentsSnoc(segs: seq<seq<Byte>>, rest: seq<seq<Byte>>)
    requires segs != []
    ensures segs[..|segs| - 1] + ([segs[|segs| - 1]] + rest) == segs + rest
  {
  }

  /** So are all finished segments. */
  lemma {:induction false} ReadJoined(src: seq<Byte>, segs: seq<seq<Byte>>)
    requires At(src, 0, Joined(segs))
    ensures Segments(src, 0, []) == segs + Segments(src, |Joined(segs)|, [])
    decreases |segs|
  {
    if segs != [] {
      var init, u := segs[..|segs| - 1], segs[|segs| - 1];
      AtSplit(src, 0, Joined(init) + Stuff(u), RestartMarker(|segs| - 1));
      AtSplit(src, 0, Joined(init), Stuff(u));
      ReadJoined(src, init);
      ReadSegment(src, |Joined(init)|, u, |segs| - 1);
      SegmentsSnoc(segs, Segments(src, |Joined(segs)|, []));
    } else {
      assert Segments(src, 0, []) == [] + Segments(src, 0, []);
    }
  }

  /** The bits of the bytes of u from i on. */
  function ByteBits(u: seq<Byte>, i: nat): (b: Bits)
    requires i <= |u|
    decreases |u| - i
  {
    if i == |u| then NoBits else Low(u[i], 8, ByteBits(u, i + 1))
  }

  lemma {:induction false} ByteBitsSent(u: seq<Byte>, i: nat)
    requires i <= |u|
    ensures After(SentBytes(u[..i]), ByteBits(u, i)) == SentBytes(u)
    decreases |u| - i
  {
    if i == |u| {
      assert u[..i] == u;
    } else {
      assert u[..i + 1] == u[..i] + [u[i]];
      SentBytesSnoc(u[..i], u[i]);
      LowThen(SentBytes(u[..i]), u[i], 8, ByteBits(u, i + 1));
      ByteBitsSent(u, i + 1);
    }
  }

  function AllBits(segs: seq<seq<Byte>>): (b: seq<Bits>)
    ensures |b| == |segs|
  {
    seq(|segs|, i requires 0 <= i < |segs| => ByteBits(segs[i], 0))
  }

  lemma AllBitsSpelled(segs: seq<seq<Byte>>)
    ensures Spelled(AllBits(segs), SentAll(segs))
  {
    forall j | 0 <= j < |segs| ensures After(Nothing, AllBits(segs)[j]) == SentAll(segs)[j] {
      ByteBitsSent(segs[j], 0);
      assert segs[j][..0] == [];
    }
  }

  /** Decode n MCUs from a byte stream. */
  function DecodeStream(scan: HuffScan, t: Tables, src: seq<Byte>, n: nat): (r: Option<seq<seq<seq<int>>>>)
    requires Tabled(scan, t)
  {
    var segments := AllBits(Segments(src, 0, []));
    scan.DecodeScan(t, segments, 0, segments[0], n, scan.Zeros(), scan.interval)
  }

  /** What the encoder wrote is read back as it was delivered. */
  lemma StreamIsRead(segs: seq<seq<Byte>>, data: seq<Byte>, marker: Byte)
    requires marker != 0 && !IsRestart(marker)
    ensures Segments(Joined(segs) + Stuff(data) + [0xFF, marker], 0, []) == segs + [data]
  {
    var src := Joined(segs) + Stuff(data) + [0xFF, marker];
    assert src[0..|src|] == src;
    AtSplit(src, 0, Joined(segs) + Stuff(data), [0xFF, marker]);
    AtSplit(src, 0, Joined(segs), Stuff(data));
    ReadJoined(src, segs);
    ReadStuffed(src, |Joined(segs)|, data, []);
    var p := |Joined(segs)| + |Stuff(data)|;
    assert src[p] == 0xFF && src[p + 1] == marker;
    assert [] + data == data;
  }

  /** Encoding a scan and decoding the bytes gives back every coefficient of every block, whatever
      the tables, as long as all blocks are in range and all symbols have codes. */
  method SendScan(scan: HuffScan, t: Tables, mcus: seq<seq<CoefBlock>>, order: seq<nat>, marker: Byte)
    returns (ok: bool, out: seq<Byte>)
    requires Tabled(scan, t) && t.Usable() && IsOrder(order, scan.se) && scan.Shaped(ZigsOf(mcus, order, scan.se))
    requires marker != 0 && !IsRestart(marker)
    ensures var z := ZigsOf(mcus, order, scan.se);
            && ok == ScanSendable(scan, t, z, 0, scan.Zeros(), scan.interval)
            && (ok ==> DecodeStream(scan, t, out + [0xFF, marker], |mcus|) == Some(z))
  {
    ghost var z := ZigsOf(mcus, order, scan.se);
    ghost var segs, data;
    ok, out, segs, data := EncodeScan(scan, t, mcus, order);
    if ok {
      StreamDecodes(scan, t, z, out, segs, data, marker);
    }
  }

  lemma StreamDecodes(scan: HuffScan, t: Tables, z: seq<seq<Zigzag>>, out: seq<Byte>, segs: seq<seq<Byte>>,
                      data: seq<Byte>, marker: Byte)
    requires Tabled(scan, t) && scan.Shaped(z) && scan.Legal(z, 0, scan.Zeros(), scan.interval) && marker != 0
    requires !IsRestart(marker)
    requires Coded(t, scan.ScanItems(z, 0, scan.Zeros(), scan.interval)) && out == Joined(segs) + Stuff(data)
    requires SentAll(segs) + [SentBytes(data)]
          == Deliver(t, [], Nothing, scan.ScanItems(z, 0, scan.Zeros(), scan.interval))
    ensures DecodeStream(scan, t, out + [0xFF, marker], |z|) == Some(z)
  {
    var p := scan.ScanItems(z, 0, scan.Zeros(), scan.interval);
    var goal := Deliver(t, [], Nothing, p);
    var segments := AllBits(segs + [data]);
    StreamIsRead(segs, data, marker);
    AllBitsSpelled(segs + [data]);
    assert SentAll(segs + [data]) == goal;
    SegmentHolds(t, [], p, segments, goal);
    ScanRoundTrip(scan, t, [], z, 0, scan.Zeros(), scan.interval, Nothing, segments, goal);
    assert z[0..] == z;
    assert HuffmanScanModel.Expand(0);
  }
}
