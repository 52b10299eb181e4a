/**
 Sequential Huffman scans: the items of all MCUs with the restart markers between them, the byte
 segments they become, and a decoder for those segments.
 */
module HuffmanScanModel {
  import opened Numbers
  import opened Coefficients
  import opened HuffmanTable
  import opened HuffmanBits
  import opened HuffmanModel

  /** The tables of each component of a scan, the component of each block of an MCU, the last
      coefficient of a block, and the restart interval (0 for none). */
  datatype HuffScan = HuffScan(dcTbl: seq<nat>, acTbl: seq<nat>, membership: seq<nat>, se: nat, interval: nat) {
    predicate Ok() {
      && |dcTbl| == |acTbl| && se < 64
      && forall b :: 0 <= b < |membership| ==> membership[b] < |dcTbl|
    }

    function Zeros(): (last: seq<int>) {
      seq(|dcTbl|, i => 0)
    }

    predicate McuShaped(mcu: seq<Zigzag>) {
      |mcu| == |membership| && forall b :: 0 <= b < |mcu| ==> |mcu[b]| == se + 1
    }

    predicate Shaped(mcus: seq<seq<Zigzag>>) {
      forall i :: 0 <= i < |mcus| ==> McuShaped(mcus[i])
    }

    /** Last DC values after blocks b and on. */
    function LastAfter(mcu: seq<Zigzag>, b: nat, last: seq<int>): (r: seq<int>)
      requires Ok() && McuShaped(mcu) && b <= |mcu| && |last| == |dcTbl|
      ensures |r| == |dcTbl|
      decreases |mcu| - b
    {
      if b == |mcu| then last else LastAfter(mcu, b + 1, last[membership[b] := mcu[b][0]])
    }

    predicate McuLegal(mcu: seq<Zigzag>, b: nat, last: seq<int>)
      requires Ok() && McuShaped(mcu) && b <= |mcu| && |last| == |dcTbl|
      decreases |mcu| - b
    {
      b == |mcu| ||
      (BlockLegal(mcu[b], last[membership[b]], se) && McuLegal(mcu, b + 1, last[membership[b] := mcu[b][0]]))
    }

    /** The items of blocks b and on of an MCU, and then everything after it. */
    function McuItems(mcu: seq<Zigzag>, b: nat, last: seq<int>, rest: Items): (p: Items)
      requires Ok() && McuShaped(mcu) && b <= |mcu| && |last| == |dcTbl| && McuLegal(mcu, b, last)
      decreases |mcu| - b
    {
      if b == |mcu| then rest
      else
        var ci := membership[b];
        BlockItems(dcTbl[ci], acTbl[ci], mcu[b], last[ci], se, McuItems(mcu, b + 1, last[ci := mcu[b][0]], rest))
    }

    /** A restart marker is due before the next MCU. */
    predicate Due(togo: nat) {
      interval != 0 && togo == 0
    }

    /** MCUs left in the interval after one more. */
    function Left(togo: nat): (r: nat) {
      if interval == 0 then togo else if togo == 0 then interval - 1 else togo - 1
    }

    function Restarted(last: seq<int>, togo: nat): (r: seq<int>)
      requires |last| == |dcTbl|
      ensures |r| == |dcTbl|
    {
      if Due(togo) then Zeros() else last
    }

    predicate Legal(mcus: seq<seq<Zigzag>>, i: nat, last: seq<int>, togo: nat)
      requires Ok() && Shaped(mcus) && i <= |mcus| && |last| == |dcTbl|
      decreases |mcus| - i
    {
      i == |mcus| ||
      (var last0 := Restarted(last, togo);
       McuLegal(mcus[i], 0, last0) && Legal(mcus, i + 1, LastAfter(mcus[i], 0, last0), Left(togo)))
    }

    /** The items of MCU i and on. */
    function ScanItems(mcus: seq<seq<Zigzag>>, i: nat, last: seq<int>, togo: nat): (p: Items)
      requires Ok() && Shaped(mcus) && i <= |mcus| && |last| == |dcTbl| && Legal(mcus, i, last, togo)
      decreases |mcus| - i
    {
      if i == |mcus| then NoItem
      else
        var last0 := Restarted(last, togo);
        var p := McuItems(mcus[i], 0, last0, ScanItems(mcus, i + 1, LastAfter(mcus[i], 0, last0), Left(togo)));
        if Due(togo) then Restart(p) else p
    }

    // ----- decoding -----

    function DecodeMcu(t: Tables, b: Bits, k: nat, last: seq<int>): (r: Option<(seq<seq<int>>, Bits)>)
      requires Ok() && k <= |membership| && |last| == |dcTbl|
      requires forall ci :: 0 <= ci < |dcTbl| ==> dcTbl[ci] < |t.dc| && acTbl[ci] < |t.ac|
      decreases |membership| - k
    {
      if k == |membership| then Some(([], b))
      else
        var ci := membership[k];
        match DecodeBlock(t.dc[dcTbl[ci]], t.ac[acTbl[ci]], b, last[ci], se)
        case None => None
        case Some((c, b1)) =>
          if c == [] then None
          else
            match DecodeMcu(t, b1, k + 1, last[ci := c[0]])
            case None => None
            case Some((mcu, b2)) => Some(([c] + mcu, b2))
    }

    /** Last DC values after a decoded MCU. */
    function LastDecoded(mcu: seq<seq<int>>, k: nat, last: seq<int>): (r: seq<int>)
      requires Ok() && k <= |membership| && |last| == |dcTbl|
      ensures |r| == |dcTbl|
      decreases |membership| - k
    {
      if k >= |mcu| || k == |membership| || mcu[k] == [] then last
      else LastDecoded(mcu, k + 1, last[membership[k] := mcu[k][0]])
    }

    /** n MCUs from segment j on, of which b has not been read; a new segment is begun where a
        restart is due. */
    function DecodeScan(t: Tables, segments: seq<Bits>, j: nat, b: Bits, n: nat, last: seq<int>,
                        togo: nat): (r: Option<seq<seq<seq<int>>>>)
      requires Ok() && |last| == |dcTbl|
      requires forall ci :: 0 <= ci < |dcTbl| ==> dcTbl[ci] < |t.dc| && acTbl[ci] < |t.ac|
      decreases n
    {
      if n == 0 then Some([])
      else if Due(togo) && j + 1 >= |segments| then None
      else
        var j0, b0 := if Due(togo) then j + 1 else j, if Due(togo) then segments[j + 1] else b;
        var last0 := Restarted(last, togo);
        match DecodeMcu(t, b0, 0, last0)
        case None => None
        case Some((mcu, b1)) =>
          match DecodeScan(t, segments, j0, b1, n - 1, LastDecoded(mcu, 0, last0), Left(togo))
          case None => None
          case Some(mcus) => Some([mcu] + mcus)
    }
  }

  /** The tables of every component are there. */
  predicate Tabled(scan: HuffScan, t: Tables) {
    scan.Ok() && forall ci :: 0 <= ci < |scan.dcTbl| ==> scan.dcTbl[ci] < |t.dc| && scan.acTbl[ci] < |t.ac|
  }

  /** An MCU is recovered. */
  lemma {:induction false} McuRoundTrip(scan: HuffScan, t: Tables, done: seq<Sent>, mcu: seq<Zigzag>, b: nat,
                                        last: seq<int>, rest: Items, s: Sent)
    returns (s': Sent)
    requires Tabled(scan, t) && scan.McuShaped(mcu) && b <= |mcu| && |last| == |scan.dcTbl|
    requires scan.McuLegal(mcu, b, last)
    requires Coded(t, scan.McuItems(mcu, b, last, rest))
    ensures Coded(t, rest)
    ensures scan.DecodeMcu(t, ItemBits(t, scan.McuItems(mcu, b, last, rest), s), b, last)
         == Some((mcu[b..], ItemBits(t, rest, s')))
    ensures Deliver(t, done, s, scan.McuItems(mcu, b, last, rest)) == Deliver(t, done, s', rest)
    decreases |mcu| - b
  {
    if b == |mcu| {
      s' := s;
    } else {
      var ci := scan.membership[b];
      var last1 := last[ci := mcu[b][0]];
      s' := BlockRoundTrip(t, done, scan.dcTbl[ci], scan.acTbl[ci], mcu[b], last[ci], scan.se,
                           scan.McuItems(mcu, b + 1, last1, rest), s);
      s' := McuRoundTrip(scan, t, done, mcu, b + 1, last1, rest, s');
      assert mcu[b..] == [mcu[b]] + mcu[b + 1..];
    }
  }

  lemma {:induction false} SameLast(scan: HuffScan, mcu: seq<Zigzag>, b: nat, last: seq<int>)
    requires scan.Ok() && scan.McuShaped(mcu) && b <= |mcu| && |last| == |scan.dcTbl|
    ensures scan.LastDecoded(mcu, b, last) == scan.LastAfter(mcu, b, last)
    decreases |mcu| - b
  {
    if b < |mcu| {
      SameLast(scan, mcu, b + 1, last[scan.membership[b] := mcu[b][0]]);
    }
  }

  /** Bits sent from nothing determine the bits. */
  function List(s: Sent, p: Bits): (r: Bits) {
    match s
    case Nothing => p
    case AndThen(past, b) => List(past, Bit(b, p))
  }

  lemma {:induction false} ListAfter(s: Sent, p: Bits)
    ensures List(After(s, p), NoBits) == List(s, p)
    decreases p
  {
    if p.Bit? {
      ListAfter(AndThen(s, p.b), p.rest);
    }
  }

  /** The bits of each segment. */
  ghost predicate Spelled(segments: seq<Bits>, goal: seq<Sent>) {
    |segments| == |goal| && forall j :: 0 <= j < |goal| ==> After(Nothing, segments[j]) == goal[j]
  }

  /** A segment holds the bits of its items. */
  lemma SegmentHolds(t: Tables, done: seq<Sent>, p: Items, segments: seq<Bits>, goal: seq<Sent>)
    requires Coded(t, p) && Deliver(t, done, Nothing, p) == goal && Spelled(segments, goal)
    ensures |done| < |segments| && segments[|done|] == ItemBits(t, p, Nothing)
  {
    DeliverCurrent(t, done, Nothing, p);
    ListAfter(Nothing, segments[|done|]);
    ListAfter(Nothing, ItemBits(t, p, Nothing));
  }

  // Always true. Mentioning it expands the predicate below.
  ghost predicate Expand(x: nat) {
    true
  }

  /** From its segment j on, of which b is left, the scan decodes to mcus. */
  ghost predicate Decodes(scan: HuffScan, t: Tables, segments: seq<Bits>, j: nat, b: Bits, last: seq<int>, togo: nat,
                          mcus: seq<seq<seq<int>>>)
    requires Tabled(scan, t) && |last| == |scan.dcTbl|
  {
    forall x: nat :: Expand(x) ==> scan.DecodeScan(t, segments, j, b, |mcus|, last, togo) == Some(mcus)
  }

  /** One round of the decoder. */
  lemma DecodeScanStep(scan: HuffScan, t: Tables, segments: seq<Bits>, j: nat, b: Bits, last: seq<int>, togo: nat,
                       b1: Bits, mcus: seq<seq<Zigzag>>)
    requires Tabled(scan, t) && scan.Shaped(mcus) && |last| == |scan.dcTbl| && mcus != []
    requires (scan.Due(togo) ==> j + 1 < |segments|)
    requires var last0 := scan.Restarted(last, togo);
             && scan.DecodeMcu(t, if scan.Due(togo) then segments[j + 1] else b, 0, last0) == Some((mcus[0], b1))
             && Decodes(scan, t, segments, if scan.Due(togo) then j + 1 else j, b1, scan.LastAfter(mcus[0], 0, last0),
                        scan.Left(togo), mcus[1..])
    ensures Decodes(scan, t, segments, j, b, last, togo, mcus)
  {
    assert Expand(0);
    SameLast(scan, mcus[0], 0, scan.Restarted(last, togo));
    assert mcus == [mcus[0]] + mcus[1..];
  }

  /** One MCU, with the restart marker that may precede it. */
  lemma ScanStep(scan: HuffScan, t: Tables, done: seq<Sent>, mcus: seq<seq<Zigzag>>, i: nat, last: seq<int>, togo: nat,
                 s: Sent, segments: seq<Bits>, goal: seq<Sent>)
    returns (done1: seq<Sent>, s1: Sent)
    requires Tabled(scan, t) && scan.Shaped(mcus) && i < |mcus| && |last| == |scan.dcTbl|
    requires scan.Legal(mcus, i, last, togo)
    requires Coded(t, scan.ScanItems(mcus, i, last, togo))
    requires Deliver(t, done, s, scan.ScanItems(mcus, i, last, togo)) == goal && Spelled(segments, goal)
    ensures |done1| == |done| + if scan.Due(togo) then 1 else 0
    ensures var last0 := scan.Restarted(last, togo);
            var rest := scan.ScanItems(mcus, i + 1, scan.LastAfter(mcus[i], 0, last0), scan.Left(togo));
            && Coded(t, rest) && Deliver(t, done1, s1, rest) == goal && (scan.Due(togo) ==> |done| + 1 < |segments|)
            && scan.DecodeMcu(t,
                              if scan.Due(togo) then segments[|done| + 1]
                              else ItemBits(t, scan.ScanItems(mcus, i, last, togo), s),
                              0,
                              last0)
               == Some((mcus[i], ItemBits(t, rest, s1)))
  {
    var last0 := scan.Restarted(last, togo);
    var rest := scan.ScanItems(mcus, i + 1, scan.LastAfter(mcus[i], 0, last0), scan.Left(togo));
    var p := scan.McuItems(mcus[i], 0, last0, rest);
    done1, s1 := done, s;
    if scan.Due(togo) {
      done1, s1 := done + [Padded(s)], Nothing;
      SegmentHolds(t, done1, p, segments, goal);
    }
    s1 := McuRoundTrip(scan, t, done1, mcus[i], 0, last0, rest, s1);
    assert mcus[i][0..] == mcus[i];
  }

  /** Once delivered, the segments decode to the MCUs they were made from. */
  lemma {:induction false} ScanRoundTrip(scan: HuffScan, t: Tables, done: seq<Sent>, mcus: seq<seq<Zigzag>>, i: nat,
                                         last: seq<int>, togo: nat, s: Sent, segments: seq<Bits>, goal: seq<Sent>)
    requires Tabled(scan, t) && scan.Shaped(mcus) && i <= |mcus| && |last| == |scan.dcTbl|
    requires scan.Legal(mcus, i, last, togo)
    requires Coded(t, scan.ScanItems(mcus, i, last, togo))
    requires Deliver(t, done, s, scan.ScanItems(mcus, i, last, togo)) == goal && Spelled(segments, goal)
    ensures Decodes(scan, t, segments, |done|, ItemBits(t, scan.ScanItems(mcus, i, last, togo), s), last, togo,
                    mcus[i..])
    decreases |mcus| - i
  {
    if i < |mcus| {
      var last1 := scan.LastAfter(mcus[i], 0, scan.Restarted(last, togo));
      var done1, s1 := ScanStep(scan, t, done, mcus, i, last, togo, s, segments, goal);
      ScanRoundTrip(scan, t, done1, mcus, i + 1, last1, scan.Left(togo), s1, segments, goal);
      assert mcus[i..][1..] == mcus[i + 1..];
      DecodeScanStep(scan, t, segments, |done|, ItemBits(t, scan.ScanItems(mcus, i, last, togo), s), last, togo,
                     ItemBits(t, scan.ScanItems(mcus, i + 1, last1, scan.Left(togo)), s1), mcus[i..]);
    }
  }
}
