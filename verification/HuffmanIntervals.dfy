/**
 Restart intervals of sequential scans: how many segments there are, which MCUs each of them holds, and
 that each is read by itself, with all predictions zero at its start.
 */
module HuffmanIntervals {
  import opened Numbers
  import opened Coefficients
  import opened Stuffing
  import opened HuffmanBits
  import opened HuffmanModel
  import opened HuffmanScanModel
  import opened HuffmanEncoding
  import opened HuffmanStream

  // ----- what the intervals are -----

  /** The MCUs in pieces of r, and the last piece with what is left; all in one if r is 0. */
  function Pieces(z: seq<seq<Zigzag>>, r: nat): (pieces: seq<seq<seq<Zigzag>>>)
    ensures |pieces| > 0
  {
    if r == 0 || |z| <= r then [z] else [z[..r]] + Pieces(z[r..], r)
  }

  lemma Products(k: nat, r: nat)
    requires k >= 1
    ensures k * r == (k - 1) * r + r && (k + 1) * r == k * r + r && (k - 1) * r >= 0
  {
  }

  /** There are |z| / r pieces, rounding up. */
  lemma {:induction false} PiecesNumber(z: seq<seq<Zigzag>>, r: nat, k: nat)
    requires r > 0 && z != [] && k >= 1 && (k - 1) * r < |z| <= k * r
    ensures |Pieces(z, r)| == k
    decreases |z|
  {
    Products(k, r);
    if k >= 2 {
      Products(k - 1, r);
      PiecesNumber(z[r..], r, k - 1);
    }
  }

  lemma TailSlice(z: seq<seq<Zigzag>>, r: nat, a: nat, b: nat)
    requires r <= |z| && a <= b <= |z| - r
    ensures z[r..][a..b] == z[r + a..r + b]
  {
  }

  /** Piece j holds the MCUs from j * r on. */
  lemma {:induction false} PieceAt(z: seq<seq<Zigzag>>, r: nat, j: nat)
    requires r > 0 && j < |Pieces(z, r)|
    ensures j * r <= |z|
    ensures Pieces(z, r)[j] == z[j * r..if (j + 1) * r < |z| then (j + 1) * r else |z|]
    decreases j
  {
    if j == 0 {
      assert z[..|z|] == z;
    } else {
      var rest := z[r..];
      Products(j, r);
      PieceAt(rest, r, j - 1);
      var from, to := (j - 1) * r, if j * r < |rest| then j * r else |rest|;
      assert Pieces(z, r)[j] == Pieces(rest, r)[j - 1] == rest[from..to];
      TailSlice(z, r, from, to);
    }
  }

  // ----- reading a segment by itself -----

  /** n MCUs, last being the predictions; what is left of the bits is returned too. */
  function DecodeMcus(scan: HuffScan, t: Tables, b: Bits, n: nat,
                      last: seq<int>): (o: Option<(seq<seq<seq<int>>>, Bits)>)
    requires Tabled(scan, t) && |last| == |scan.dcTbl|
    decreases n
  {
    if n == 0 then Some(([], b))
    else
      match scan.DecodeMcu(t, b, 0, last)
      case None => None
      case Some((mcu, b1)) =>
        match DecodeMcus(scan, t, b1, n - 1, scan.LastDecoded(mcu, 0, last))
        case None => None
        case Some((mcus, b2)) => Some(([mcu] + mcus, b2))
  }

  /** Fewer than eight ones. */
  predicate IsFill(b: Bits, n: nat) {
    match b case NoBits => true case Bit(bit, rest) => n > 0 && bit == 1 && IsFill(rest, n - 1)
  }

  /** The segment b holds these MCUs and nothing else but ones that fill its last byte. */
  predicate HoldsAlone(scan: HuffScan, t: Tables, b: Bits, mcus: seq<seq<Zigzag>>)
    requires Tabled(scan, t)
  {
    match DecodeMcus(scan, t, b, |mcus|, scan.Zeros())
    case None => false
    case Some((got, left)) => got == mcus && IsFill(left, 7)
  }

  lemma {:induction false} OnesFill(k: nat)
    requires k <= 7
    ensures IsFill(Low(0x7F, k, NoBits), k)
    decreases k
  {
    if k > 0 {
      OnesFill(k - 1);
      SevenOnes(k - 1);
    }
  }

  lemma SevenOnes(k: nat)
    requires k <= 6
    ensures Shr(0x7F, k) % 2 == 1
  {
    assert Shr(0x7F, 1) == 0x3F && Shr(0x7F, 2) == 0x1F && Shr(0x7F, 3) == 0xF;
    assert Shr(0x7F, 4) == 7 && Shr(0x7F, 5) == 3 && Shr(0x7F, 6) == 1;
  }

  lemma {:induction false} FillMore(b: Bits, k: nat, n: nat)
    requires IsFill(b, k) && k <= n
    ensures IsFill(b, n)
    decreases k
  {
    if b.Bit? {
      FillMore(b.rest, k - 1, n - 1);
    }
  }

  lemma PaddingFills(n: nat)
    requires n <= 7
    ensures IsFill(Padding(n), 7)
  {
    if n > 0 {
      OnesFill(8 - n);
      FillMore(Padding(n), 8 - n, 7);
    }
  }

  // ----- one segment -----

  /** The MCUs up to the next restart marker, if so many are left in the interval. */
  function Ahead(scan: HuffScan, n: nat, togo: nat): (m: nat)
    ensures m <= n
  {
    if scan.interval == 0 || togo >= n then n else togo
  }

  /** p is what comes after a segment: the end of the scan, or a marker and the MCUs from i on. */
  ghost predicate Follows(scan: HuffScan, z: seq<seq<Zigzag>>, i: nat, p: Items)
    requires scan.Ok() && scan.Shaped(z) && i <= |z|
  {
    if i == |z| then p == NoItem
    else
      && scan.interval > 0 && scan.Legal(z, i, scan.Zeros(), scan.interval)
      && p == Restart(scan.ScanItems(z, i, scan.Zeros(), scan.interval))
  }

  lemma {:induction false} MarkerFollows(scan: HuffScan, z: seq<seq<Zigzag>>, i: nat, last: seq<int>)
    requires scan.Ok() && scan.Shaped(z) && i <= |z| && |last| == |scan.dcTbl| && scan.interval > 0
    requires scan.Legal(z, i, last, 0)
    ensures Follows(scan, z, i, scan.ScanItems(z, i, last, 0))
  {
    if i < |z| {
      assert scan.Restarted(last, 0) == scan.Zeros() == scan.Restarted(scan.Zeros(), scan.interval);
      assert scan.Left(0) == scan.Left(scan.interval);
      assert scan.Legal(z, i, scan.Zeros(), scan.interval);
    }
  }

  /** One MCU, and then m more. */
  lemma {:induction false} McusRead(scan: HuffScan, t: Tables, b: Bits, b1: Bits, left: Bits, z: seq<seq<Zigzag>>,
                                    i: nat, m: nat, last: seq<int>)
    requires Tabled(scan, t) && scan.Shaped(z) && i + m < |z| && |last| == |scan.dcTbl|
    requires scan.DecodeMcu(t, b, 0, last) == Some((z[i], b1))
    requires DecodeMcus(scan, t, b1, m, scan.LastAfter(z[i], 0, last)) == Some((z[i + 1..i + 1 + m], left))
    ensures DecodeMcus(scan, t, b, m + 1, last) == Some((z[i..i + 1 + m], left))
  {
    SameLast(scan, z[i], 0, last);
    OneThenMore(z, i, m);
  }

  lemma OneThenMore(z: seq<seq<Zigzag>>, i: nat, m: nat)
    requires i + m < |z|
    ensures z[i..i + 1 + m] == [z[i]] + z[i + 1..i + 1 + m]
  {
  }

  /** What the items are if no marker is due. */
  lemma {:induction false} ItemsNext(scan: HuffScan, z: seq<seq<Zigzag>>, i: nat, last: seq<int>, togo: nat)
    requires scan.Ok() && scan.Shaped(z) && i < |z| && |last| == |scan.dcTbl| && scan.Legal(z, i, last, togo)
    requires scan.interval == 0 || togo > 0
    ensures scan.McuLegal(z[i], 0, last) && scan.Legal(z, i + 1, scan.LastAfter(z[i], 0, last), scan.Left(togo))
    ensures var rest := scan.ScanItems(z, i + 1, scan.LastAfter(z[i], 0, last), scan.Left(togo));
            scan.ScanItems(z, i, last, togo) == scan.McuItems(z[i], 0, last, rest)
    ensures Ahead(scan, |z| - i, togo) == 1 + Ahead(scan, |z| - (i + 1), scan.Left(togo))
  {
    assert !scan.Due(togo) && scan.Restarted(last, togo) == last;
  }

  /** The MCUs up to the next marker are read from the items' bits; then p comes, with s' sent. */
  ghost predicate ReadsUpTo(scan: HuffScan, t: Tables, done: seq<Sent>, z: seq<seq<Zigzag>>, i: nat, m: nat,
                            last: seq<int>, items: Items, s: Sent, s': Sent, p: Items)
    requires Tabled(scan, t) && scan.Shaped(z) && i + m <= |z| && |last| == |scan.dcTbl|
  {
    forall x: nat :: Expand(x) ==>
      && Coded(t, items) && Coded(t, p) && Follows(scan, z, i + m, p)
      && DecodeMcus(scan, t, ItemBits(t, items, s), m, last) == Some((z[i..i + m], ItemBits(t, p, s')))
      && Deliver(t, done, s, items) == Deliver(t, done, s', p)
  }

  lemma {:induction false} ReadsNothing(scan: HuffScan, t: Tables, done: seq<Sent>, z: seq<seq<Zigzag>>, i: nat,
                                        last: seq<int>, items: Items, s: Sent)
    requires Tabled(scan, t) && scan.Shaped(z) && i <= |z| && |last| == |scan.dcTbl|
    requires Coded(t, items) && Follows(scan, z, i, items)
    ensures ReadsUpTo(scan, t, done, z, i, 0, last, items, s, s, items)
  {
    assert z[i..i + 0] == [];
  }

  /** MCU i is read from the items' bits; then rest comes, with s1 sent. */
  ghost predicate ReadsOne(scan: HuffScan, t: Tables, done: seq<Sent>, z: seq<seq<Zigzag>>, i: nat, last: seq<int>,
                           items: Items, s: Sent, rest: Items, s1: Sent)
    requires Tabled(scan, t) && scan.Shaped(z) && i < |z| && |last| == |scan.dcTbl|
  {
    forall x: nat :: Expand(x) ==>
      && Coded(t, items) && Coded(t, rest)
      && scan.DecodeMcu(t, ItemBits(t, items, s), 0, last) == Some((z[i], ItemBits(t, rest, s1)))
      && Deliver(t, done, s, items) == Deliver(t, done, s1, rest)
  }

  lemma {:induction false} ReadsMore(scan: HuffScan, t: Tables, done: seq<Sent>, z: seq<seq<Zigzag>>, i: nat, m: nat,
                                     last: seq<int>, items: Items, s: Sent, rest: Items, s1: Sent, s': Sent, p: Items)
    requires Tabled(scan, t) && scan.Shaped(z) && i + m < |z| && |last| == |scan.dcTbl|
    requires ReadsOne(scan, t, done, z, i, last, items, s, rest, s1)
    requires ReadsUpTo(scan, t, done, z, i + 1, m, scan.LastAfter(z[i], 0, last), rest, s1, s', p)
    ensures ReadsUpTo(scan, t, done, z, i, m + 1, last, items, s, s', p)
  {
    assert Expand(0);
    McusRead(scan, t, ItemBits(t, items, s), ItemBits(t, rest, s1), ItemBits(t, p, s'), z, i, m, last);
  }

  /** The first MCU, if no marker is due. */
  lemma {:induction false} FirstRead(scan: HuffScan, t: Tables, done: seq<Sent>, z: seq<seq<Zigzag>>, i: nat,
                                     last: seq<int>, togo: nat, items: Items, s: Sent)
    returns (last1: seq<int>, left: nat, rest: Items, s1: Sent)
    requires Tabled(scan, t) && scan.Shaped(z) && i < |z| && |last| == |scan.dcTbl| && scan.Legal(z, i, last, togo)
    requires items == scan.ScanItems(z, i, last, togo) && Coded(t, items) && (scan.interval == 0 || togo > 0)
    ensures last1 == scan.LastAfter(z[i], 0, last) && scan.Legal(z, i + 1, last1, left)
    ensures rest == scan.ScanItems(z, i + 1, last1, left) && Coded(t, rest)
    ensures ReadsOne(scan, t, done, z, i, last, items, s, rest, s1)
    ensures Ahead(scan, |z| - i, togo) == Ahead(scan, |z| - (i + 1), left) + 1
  {
    ItemsNext(scan, z, i, last, togo);
    last1, left := scan.LastAfter(z[i], 0, last), scan.Left(togo);
    rest := scan.ScanItems(z, i + 1, last1, left);
    s1 := McuRoundTrip(scan, t, done, z[i], 0, last, rest, s);
    assert z[i][0..] == z[i];
  }

  lemma {:induction false} SegmentRead(scan: HuffScan, t: Tables, done: seq<Sent>, z: seq<seq<Zigzag>>, i: nat,
                                       last: seq<int>, togo: nat, items: Items, s: Sent)
    returns (s': Sent, p: Items)
    requires Tabled(scan, t) && scan.Shaped(z) && i <= |z| && |last| == |scan.dcTbl| && scan.Legal(z, i, last, togo)
    requires items == scan.ScanItems(z, i, last, togo) && Coded(t, items)
    ensures ReadsUpTo(scan, t, done, z, i, Ahead(scan, |z| - i, togo), last, items, s, s', p)
    decreases |z| - i, 1
  {
    if i < |z| && (scan.interval == 0 || togo > 0) {
      s', p := SegmentGoesOn(scan, t, done, z, i, last, togo, items, s);
    } else {
      s', p := s, items;
      SegmentOver(scan, t, done, z, i, last, togo, items, s);
    }
  }

  lemma {:induction false} SegmentGoesOn(scan: HuffScan, t: Tables, done: seq<Sent>, z: seq<seq<Zigzag>>, i: nat,
                                         last: seq<int>, togo: nat, items: Items, s: Sent)
    returns (s': Sent, p: Items)
    requires Tabled(scan, t) && scan.Shaped(z) && i < |z| && |last| == |scan.dcTbl| && scan.Legal(z, i, last, togo)
    requires items == scan.ScanItems(z, i, last, togo) && Coded(t, items) && (scan.interval == 0 || togo > 0)
    ensures ReadsUpTo(scan, t, done, z, i, Ahead(scan, |z| - i, togo), last, items, s, s', p)
    decreases |z| - i, 0
  {
    var last1, left, rest, s1 := FirstRead(scan, t, done, z, i, last, togo, items, s);
    var m := Ahead(scan, |z| - (i + 1), left);
    s', p := SegmentRead(scan, t, done, z, i + 1, last1, left, rest, s1);
    ReadsMore(scan, t, done, z, i, m, last, items, s, rest, s1, s', p);
  }

  lemma {:induction false} SegmentOver(scan: HuffScan, t: Tables, done: seq<Sent>, z: seq<seq<Zigzag>>, i: nat,
                                       last: seq<int>, togo: nat, items: Items, s: Sent)
    requires Tabled(scan, t) && scan.Shaped(z) && i <= |z| && |last| == |scan.dcTbl| && scan.Legal(z, i, last, togo)
    requires items == scan.ScanItems(z, i, last, togo) && Coded(t, items)
    requires i == |z| || (scan.interval > 0 && togo == 0)
    ensures ReadsUpTo(scan, t, done, z, i, Ahead(scan, |z| - i, togo), last, items, s, s, items)
  {
    if i < |z| {
      MarkerFollows(scan, z, i, last);
    }
    ReadsNothing(scan, t, done, z, i, last, items, s);
  }

  // ----- all segments -----

  /** From MCU i on the segments from j on hold the pieces, each by itself. */
  ghost predicate AllAlone(scan: HuffScan, t: Tables, segments: seq<Bits>, j: nat, pieces: seq<seq<seq<Zigzag>>>)
    requires Tabled(scan, t)
  {
    j + |pieces| == |segments| && forall k :: 0 <= k < |pieces| ==> HoldsAlone(scan, t, segments[j + k], pieces[k])
  }

  lemma {:induction false} SegmentAlone(scan: HuffScan, t: Tables, done: seq<Sent>, z: seq<seq<Zigzag>>, i: nat, m: nat,
                                        items: Items, s': Sent, p: Items, segments: seq<Bits>, goal: seq<Sent>)
    requires Tabled(scan, t) && scan.Shaped(z) && i + m <= |z| && Coded(t, items)
    requires ReadsUpTo(scan, t, done, z, i, m, scan.Zeros(), items, Nothing, s', p)
    requires Deliver(t, done, Nothing, items) == goal && Spelled(segments, goal)
    ensures |done| < |segments| && HoldsAlone(scan, t, segments[|done|], z[i..i + m])
  {
    assert Expand(0);
    SegmentHolds(t, done, items, segments, goal);
    PaddingFills(Phase(s'));
  }

  lemma {:induction false} SegmentsAlone(scan: HuffScan, t: Tables, done: seq<Sent>, z: seq<seq<Zigzag>>, i: nat,
                                         segments: seq<Bits>, goal: seq<Sent>)
    requires Tabled(scan, t) && scan.Shaped(z) && i <= |z| && scan.Legal(z, i, scan.Zeros(), scan.interval)
    requires Coded(t, scan.ScanItems(z, i, scan.Zeros(), scan.interval)) && Spelled(segments, goal)
    requires Deliver(t, done, Nothing, scan.ScanItems(z, i, scan.Zeros(), scan.interval)) == goal
    ensures AllAlone(scan, t, segments, |done|, Pieces(z[i..], scan.interval))
    decreases |z| - i
  {
    var items, m := scan.ScanItems(z, i, scan.Zeros(), scan.interval), Ahead(scan, |z| - i, scan.interval);
    var s', p := SegmentRead(scan, t, done, z, i, scan.Zeros(), scan.interval, items, Nothing);
    SegmentAlone(scan, t, done, z, i, m, items, s', p, segments, goal);
    SegmentDelivered(scan, t, done, z, i, m, items, s', p, goal);
    if i + m < |z| {
      SegmentsAlone(scan, t, done + [Padded(s')], z, i + m, segments, goal);
    }
    PieceJoins(scan, t, segments, |done|, z, i, m);
  }

  /** A segment, and those that follow it. */
  lemma {:induction false} PieceJoins(scan: HuffScan, t: Tables, segments: seq<Bits>, j: nat, z: seq<seq<Zigzag>>,
                                      i: nat, m: nat)
    requires Tabled(scan, t) && i + m <= |z| && j < |segments| && HoldsAlone(scan, t, segments[j], z[i..i + m])
    requires m == Ahead(scan, |z| - i, scan.interval)
    requires if i + m == |z| then |segments| == j + 1
             else scan.interval > 0 && AllAlone(scan, t, segments, j + 1, Pieces(z[i + m..], scan.interval))
    ensures AllAlone(scan, t, segments, j, Pieces(z[i..], scan.interval))
  {
    var rest := z[i..];
    if i + m == |z| {
      assert z[i..i + m] == rest;
    } else {
      assert rest[m..] == z[i + m..] && rest[..m] == z[i..i + m];
      PieceFirst(scan, t, segments, j, rest, m);
    }
  }

  /** What comes after a segment begins with nothing sent and nothing predicted. */
  lemma {:induction false} SegmentDelivered(scan: HuffScan, t: Tables, done: seq<Sent>, z: seq<seq<Zigzag>>, i: nat,
                                            m: nat, items: Items, s': Sent, p: Items, goal: seq<Sent>)
    requires Tabled(scan, t) && scan.Shaped(z) && i + m <= |z| && Coded(t, items)
    requires ReadsUpTo(scan, t, done, z, i, m, scan.Zeros(), items, Nothing, s', p)
    requires Deliver(t, done, Nothing, items) == goal
    ensures i + m == |z| ==> |goal| == |done| + 1
    ensures i + m < |z| ==>
              && scan.interval > 0 && scan.Legal(z, i + m, scan.Zeros(), scan.interval)
              && var next := scan.ScanItems(z, i + m, scan.Zeros(), scan.interval);
                 Coded(t, next) && Deliver(t, done + [Padded(s')], Nothing, next) == goal
  {
    assert Expand(0);
  }

  lemma {:induction false} PieceFirst(scan: HuffScan, t: Tables, segments: seq<Bits>, j: nat, z: seq<seq<Zigzag>>,
                                      m: nat)
    requires Tabled(scan, t) && 0 < m == scan.interval < |z| && j < |segments|
    requires HoldsAlone(scan, t, segments[j], z[..m]) && AllAlone(scan, t, segments, j + 1, Pieces(z[m..], m))
    ensures AllAlone(scan, t, segments, j, Pieces(z, m))
  {
    var pieces, rest := Pieces(z, m), Pieces(z[m..], m);
    assert pieces == [z[..m]] + rest;
    forall k | 0 <= k < |pieces| ensures HoldsAlone(scan, t, segments[j + k], pieces[k]) {
      if k > 0 {
        assert HoldsAlone(scan, t, segments[j + 1 + (k - 1)], rest[k - 1]);
      }
    }
  }

  // ----- the bytes of a scan -----

  lemma {:induction false} InByteIs(n: nat)
    ensures InByte(n) == n % 8
  {
    if n > 7 {
      InByteIs(n - 8);
    }
  }

  /** The segments of a scan and the restart markers between them. */
  function Written(segs: seq<seq<Byte>>, j: nat): (out: seq<Byte>)
    requires j < |segs|
    decreases |segs| - j
  {
    if j == |segs| - 1 then Stuff(segs[j]) else Stuff(segs[j]) + [0xFF, 0xD0 + j % 8] + Written(segs, j + 1)
  }

  /** The bytes of a scan: as many segments as there are restart intervals, each with its MCUs alone, and
      markers between them that count from 0 to 7 and begin again. */
  ghost predicate InIntervals(scan: HuffScan, t: Tables, z: seq<seq<Zigzag>>, out: seq<Byte>)
    requires Tabled(scan, t)
  {
    exists segs: seq<seq<Byte>> :: SegmentsOf(scan, t, z, out, segs)
  }

  ghost predicate SegmentsOf(scan: HuffScan, t: Tables, z: seq<seq<Zigzag>>, out: seq<Byte>, segs: seq<seq<Byte>>)
    requires Tabled(scan, t)
  {
    && segs != [] && out == Written(segs, 0)
    && AllAlone(scan, t, AllBits(segs), 0, Pieces(z, scan.interval))
  }

  lemma {:induction false} WrittenMore(segs: seq<seq<Byte>>, u: seq<Byte>, j: nat)
    requires j < |segs|
    ensures Written(segs + [u], j) == Written(segs, j) + RestartMarker(|segs| - 1) + Stuff(u)
    decreases |segs| - j
  {
    InByteIs(|segs| - 1);
    if j < |segs| - 1 {
      WrittenMore(segs, u, j + 1);
    } else {
      assert (segs + [u])[j] == segs[j] && (segs + [u])[j + 1] == u;
    }
  }

  lemma {:induction false} JoinedIsWritten(segs: seq<seq<Byte>>, data: seq<Byte>)
    ensures Joined(segs) + Stuff(data) == Written(segs + [data], 0)
    decreases |segs|
  {
    if segs == [] {
      assert Joined(segs) + Stuff(data) == Stuff(data);
    } else {
      var init, u := segs[..|segs| - 1], segs[|segs| - 1];
      assert init + [u] == segs;
      JoinedIsWritten(init, u);
      WrittenMore(segs, data, 0);
    }
  }

  /** What the encoder writes is in intervals. */
  lemma StreamInIntervals(scan: HuffScan, t: Tables, z: seq<seq<Zigzag>>, segs: seq<seq<Byte>>, data: seq<Byte>)
    requires Tabled(scan, t) && scan.Shaped(z) && scan.Legal(z, 0, scan.Zeros(), scan.interval)
    requires Coded(t, scan.ScanItems(z, 0, scan.Zeros(), scan.interval))
    requires SentAll(segs) + [SentBytes(data)]
          == Deliver(t, [], Nothing, scan.ScanItems(z, 0, scan.Zeros(), scan.interval))
    ensures InIntervals(scan, t, z, Joined(segs) + Stuff(data))
  {
    var all := segs + [data];
    AllBitsSpelled(all);
    SentAllNext(segs, data);
    SegmentsAlone(scan, t, [], z, 0, AllBits(all), SentAll(all));
    assert z[0..] == z;
    JoinedIsWritten(segs, data);
    assert SegmentsOf(scan, t, z, Joined(segs) + Stuff(data), all);
  }

  /** Code a scan: with a restart interval r > 0 there are |z| / r segments, rounding up (PiecesNumber), and
      segment j holds the MCUs from j * r on (PieceAt). */
  method SendIntervals(scan: HuffScan, t: Tables, mcus: seq<seq<CoefBlock>>, order: seq<nat>)
    returns (ok: bool, out: seq<Byte>)
    requires Tabled(scan, t) && t.Usable() && IsOrder(order, scan.se) && scan.Shaped(ZigsOf(mcus, order, scan.se))
    ensures ok ==> InIntervals(scan, t, ZigsOf(mcus, order, scan.se), out)
  {
    ghost var segs, data;
    ok, out, segs, data := EncodeScan(scan, t, mcus, order);
    if ok {
      StreamInIntervals(scan, t, ZigsOf(mcus, order, scan.se), segs, data);
    }
  }
}
