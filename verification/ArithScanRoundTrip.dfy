/** Whole scans through the encoder, the byte stream and the decoder. */
module ArithScanRoundTrip {
  import opened Numbers
  import opened IntervalCoder
  import opened Coefficients
  import opened ArithModel
  import opened ArithScanModel
  import opened ArithEncoding
  import opened ArithDecoding
  import opened ArithBlockDecoding
  import opened ArithRoundTrip
  import opened ArithScanCoding
  import opened Stuffing

  /** Which blocks of the image each MCU of a scan holds, and for each block of the image where it
      is sent: its MCU, or |mcus| if the scan does not send it, and its slot there. */
  datatype Layout = Layout(mcus: seq<seq<nat>>, place: seq<nat>, slot: seq<nat>) {
    predicate Ok(info: ScanInfo) {
      && |place| == |slot|
      && (forall i :: 0 <= i < |mcus| ==> |mcus[i]| == |info.membership|)
      && (forall i, b :: 0 <= i < |mcus| && 0 <= b < |mcus[i]| ==>
            mcus[i][b] < |place| && place[mcus[i][b]] == i && slot[mcus[i][b]] == b)
      && (forall x :: 0 <= x < |place| && place[x] < |mcus| ==>
            slot[x] < |mcus[place[x]]| && mcus[place[x]][slot[x]] == x)
    }
  }

  /** The blocks of MCU i, taken from the image. */
  function McuOf(layout: Layout, info: ScanInfo, image: seq<CoefBlock>, i: nat): (mcu: seq<CoefBlock>)
    requires layout.Ok(info) && |image| == |layout.place| && i < |layout.mcus|
    ensures |mcu| == |info.membership| && forall b :: 0 <= b < |mcu| ==> mcu[b] == image[layout.mcus[i][b]]
  {
    seq(|layout.mcus[i]|, b requires 0 <= b < |layout.mcus[i]| => image[layout.mcus[i][b]])
  }

  function McusOf(layout: Layout, info: ScanInfo, image: seq<CoefBlock>): (mcus: seq<seq<CoefBlock>>)
    requires layout.Ok(info) && |image| == |layout.place|
    ensures |mcus| == |layout.mcus| && McusOk(info, mcus)
    ensures forall i :: 0 <= i < |mcus| ==> mcus[i] == McuOf(layout, info, image, i)
  {
    seq(|layout.mcus|, i requires 0 <= i < |layout.mcus| => McuOf(layout, info, image, i))
  }

  /** Every decision of a scan. */
  ghost function ScanHistory(info: ScanInfo, layout: Layout, image: seq<CoefBlock>): (h: History)
    requires info.Ok() && layout.Ok(info) && |image| == |layout.place|
  {
    Extend(Start, ScanPlan(info, InitDcState(|info.dcTbl|), McusOf(layout, info, image), 0))
  }

  /** Encode one scan of the image. */
  method EncodeScan(info: ScanInfo, layout: Layout, image: seq<CoefBlock>) returns (out: seq<Byte>, ghost u: seq<Byte>)
    requires info.Ok() && layout.Ok(info) && |image| == |layout.place|
    ensures out == Stuff(u) && Spells(u, Run(ScanHistory(info, layout, image)))
  {
    var enc := new McuEncoder(info);
    ghost var mcus, goal := McusOf(layout, info, image), ScanHistory(info, layout, image);
    var i := 0;
    while i < |layout.mcus|
      invariant enc.Valid() && enc.info == info && fresh(enc) && fresh(enc.e) && i <= |mcus|
      invariant Extend(enc.e.log, ScanPlan(info, enc.State(), mcus, i)) == goal
    {
      ghost var rest := ScanPlan(info, AfterMcu(info, enc.State(), mcus[i], 0), mcus, i + 1);
      enc.EncodeMcu(McuOf(layout, info, image, i), rest);
      i := i + 1;
    }
    enc.e.FinishPass();
    out, u := enc.e.out, enc.e.sent;
  }

  /** The byte stream of a scan: its data and the marker that follows. */
  lemma StreamHolds(u: seq<Byte>, marker: Byte)
    requires marker != 0 && marker != 255
    ensures Holds(Stuff(u) + [0xFF, marker], u)
  {
    var src, n := Stuff(u) + [0xFF, marker], |Stuff(u)|;
    assert src[n] == 0xFF && src[n + 1] == marker;
  }

  /** No block that the scan sends can mislead the decoder. */
  ghost predicate ScanBefore(info: ScanInfo, layout: Layout, was: seq<CoefBlock>, orig: seq<CoefBlock>)
    requires info.Ok() && |was| == |orig| == |layout.place|
  {
    forall x :: 0 <= x < |was| && layout.place[x] < |layout.mcus| ==> Decodable(info, was[x], orig[x])
  }

  /** The blocks of the MCUs before MCU i hold orig as far as the scan sends it; the others are as
      they were. */
  ghost predicate Received(info: ScanInfo, layout: Layout, now: seq<CoefBlock>, was: seq<CoefBlock>,
                           orig: seq<CoefBlock>, i: nat)
    requires info.Ok() && |now| == |was| == |orig| == |layout.place| && i <= |layout.mcus|
  {
    forall e: nat :: Expand(e) ==> forall x :: 0 <= x < |now| ==>
      if layout.place[x] < i then Updated(info, now[x], was[x], orig[x]) else now[x] == was[x]
  }

  lemma McuBefore(info: ScanInfo, layout: Layout, now: seq<CoefBlock>, was: seq<CoefBlock>, orig: seq<CoefBlock>,
                  i: nat)
    requires info.Ok() && layout.Ok(info) && |now| == |was| == |orig| == |layout.place| && i < |layout.mcus|
    requires ScanBefore(info, layout, was, orig) && Received(info, layout, now, was, orig, i)
    ensures AllBefore(info, McuOf(layout, info, now, i), McuOf(layout, info, orig, i))
  {
    assert Expand(0);
    var mcu := McuOf(layout, info, now, i);
    forall b | 0 <= b < |mcu| ensures Decodable(info, mcu[b], McuOf(layout, info, orig, i)[b]) {
      assert layout.place[layout.mcus[i][b]] == i;
    }
  }

  lemma ReceivedNext(info: ScanInfo, layout: Layout, next: seq<CoefBlock>, now: seq<CoefBlock>, was: seq<CoefBlock>,
                     orig: seq<CoefBlock>, i: nat)
    requires info.Ok() && layout.Ok(info) && |next| == |now| == |was| == |orig| == |layout.place| && i < |layout.mcus|
    requires Received(info, layout, now, was, orig, i)
    requires forall x :: 0 <= x < |now| && layout.place[x] != i ==> next[x] == now[x]
    requires McuReceived(info, McuOf(layout, info, next, i), McuOf(layout, info, now, i), McuOf(layout, info, orig, i),
                         |layout.mcus[i]|)
    ensures Received(info, layout, next, was, orig, i + 1)
  {
    assert Expand(0);
    var mcu := McuOf(layout, info, next, i);
    forall x | 0 <= x < |now|
      ensures if layout.place[x] < i + 1 then Updated(info, next[x], was[x], orig[x]) else next[x] == was[x]
    {
      if layout.place[x] == i {
        assert mcu[layout.slot[x]] == next[x];
      }
    }
  }

  /** The arrays of MCU i. */
  function ArraysOf(layout: Layout, info: ScanInfo, blocks: seq<array<Coef>>, i: nat): (mcu: seq<array<Coef>>)
    requires layout.Ok(info) && |blocks| == |layout.place| && i < |layout.mcus|
    ensures |mcu| == |info.membership| && forall b :: 0 <= b < |mcu| ==> mcu[b] == blocks[layout.mcus[i][b]]
    ensures Blocks(blocks) ==> Blocks(mcu)
  {
    assert forall b :: 0 <= b < |info.membership| ==> layout.slot[layout.mcus[i][b]] == b;
    seq(|layout.mcus[i]|, b requires 0 <= b < |layout.mcus[i]| => blocks[layout.mcus[i][b]])
  }

  lemma ContentsOf(layout: Layout, info: ScanInfo, blocks: seq<array<Coef>>, i: nat)
    requires layout.Ok(info) && |blocks| == |layout.place| && i < |layout.mcus| && Blocks(blocks)
    ensures Contents(ArraysOf(layout, info, blocks, i)) == McuOf(layout, info, Contents(blocks), i)
  {
  }

  lemma ArraysApart(layout: Layout, info: ScanInfo, blocks: seq<array<Coef>>, i: nat, x: nat)
    requires layout.Ok(info) && |blocks| == |layout.place| && i < |layout.mcus| && Blocks(blocks)
    requires x < |blocks| && layout.place[x] != i
    ensures blocks[x] !in ArraysOf(layout, info, blocks, i)
  {
  }

  /** Decode MCU i of a scan into its blocks. */
  method DecodeMcuOf(dec: McuDecoder, layout: Layout, i: nat, blocks: seq<array<Coef>>, ghost orig: seq<CoefBlock>,
                     ghost st: DcState, ghost rest: Plan)
    requires dec.Valid() && layout.Ok(dec.info) && |blocks| == |orig| == |layout.place| && i < |layout.mcus|
    requires Blocks(blocks) && StateOk(dec.info, st)
    modifies dec, dec.d, blocks
    ensures dec.Valid() && (old(dec.d.ct) == -1 ==> dec.d.ct == -1)
    ensures forall x :: 0 <= x < |blocks| && layout.place[x] != i ==> Contents(blocks)[x] == old(Contents(blocks))[x]
    ensures var mcu, now := McuOf(layout, dec.info, orig, i), McuOf(layout, dec.info, Contents(blocks), i);
            var was := old(McuOf(layout, dec.info, Contents(blocks), i));
            old(dec.OnTrack(st, McuPlan(dec.info, st, mcu, 0, rest))) && AllBefore(dec.info, was, mcu) ==>
              if McuCodable(dec.info, st, mcu, 0) then
                dec.OnTrack(AfterMcu(dec.info, st, mcu, 0), rest) && McuReceived(dec.info, now, was, mcu, |mcu|)
              else dec.d.ct == -1
  {
    var mcu := ArraysOf(layout, dec.info, blocks, i);
    ghost var was := Contents(blocks);
    ContentsOf(layout, dec.info, blocks, i);
    dec.DecodeMcu(mcu, McuOf(layout, dec.info, orig, i), st, rest);
    ContentsOf(layout, dec.info, blocks, i);
    forall x | 0 <= x < |blocks| && layout.place[x] != i ensures Contents(blocks)[x] == was[x] {
      ArraysApart(layout, dec.info, blocks, i, x);
    }
  }

  /** Decode MCU i of a scan into its blocks. */
  method DecodeScanMcu(dec: McuDecoder, layout: Layout, i: nat, blocks: seq<array<Coef>>, ghost was: seq<CoefBlock>,
                       ghost orig: seq<CoefBlock>, ghost st: DcState, ghost rest: Plan)
    requires dec.Valid() && layout.Ok(dec.info) && |blocks| == |was| == |orig| == |layout.place| && i < |layout.mcus|
    requires Blocks(blocks) && StateOk(dec.info, st)
    modifies dec, dec.d, blocks
    ensures dec.Valid() && (old(dec.d.ct) == -1 ==> dec.d.ct == -1)
    ensures forall x :: 0 <= x < |blocks| && layout.place[x] != i ==> Contents(blocks)[x] == old(Contents(blocks))[x]
    ensures var mcu := McuOf(layout, dec.info, orig, i);
            old(&& dec.OnTrack(st, McuPlan(dec.info, st, mcu, 0, rest))
                && Received(dec.info, layout, Contents(blocks), was, orig, i))
            && ScanBefore(dec.info, layout, was, orig) ==>
              if McuCodable(dec.info, st, mcu, 0) then
                && dec.OnTrack(AfterMcu(dec.info, st, mcu, 0), rest)
                && Received(dec.info, layout, Contents(blocks), was, orig, i + 1)
              else dec.d.ct == -1
  {
    ghost var now := Contents(blocks);
    ghost var ready := Received(dec.info, layout, now, was, orig, i) && ScanBefore(dec.info, layout, was, orig);
    if ready {
      McuBefore(dec.info, layout, now, was, orig, i);
    }
    DecodeMcuOf(dec, layout, i, blocks, orig, st, rest);
    ghost var next := Contents(blocks);
    ghost var before, after := McuOf(layout, dec.info, now, i), McuOf(layout, dec.info, next, i);
    if ready && McuReceived(dec.info, after, before, McuOf(layout, dec.info, orig, i), |layout.mcus[i]|) {
      ReceivedNext(dec.info, layout, next, now, was, orig, i);
    }
  }

  /** Decode a scan whose data yields the decisions for orig into blocks that are ready for it.
      The decoder reports an error exactly when a DC difference was too large; otherwise every
      block sent holds orig as far as the scan sends it. Other blocks are left alone. */
  method DecodeScan(info: ScanInfo, layout: Layout, src: seq<Byte>, blocks: seq<array<Coef>>,
                    ghost orig: seq<CoefBlock>)
    returns (ok: bool)
    requires info.Ok() && layout.Ok(info) && |blocks| == |orig| == |layout.place| && Blocks(blocks)
    requires Yields(src, ScanHistory(info, layout, orig)) && ScanBefore(info, layout, Contents(blocks), orig)
    modifies blocks
    ensures ok == ScanCodable(info, InitDcState(|info.dcTbl|), McusOf(layout, info, orig), 0)
    ensures forall x :: 0 <= x < |blocks| && layout.place[x] >= |layout.mcus| ==>
              Contents(blocks)[x] == old(Contents(blocks))[x]
    ensures ok ==> Received(info, layout, Contents(blocks), old(Contents(blocks)), orig, |layout.mcus|)
  {
    ghost var st, mcus, was := InitDcState(|info.dcTbl|), McusOf(layout, info, orig), Contents(blocks);
    ghost var codable := ScanCodable(info, st, mcus, 0);
    var dec := new McuDecoder(info, src, ScanHistory(info, layout, orig));
    var i := 0;
    while i < |layout.mcus|
      invariant dec.Valid() && dec.info == info && fresh(dec) && fresh(dec.d) && i <= |mcus| && StateOk(info, st)
      invariant forall x :: 0 <= x < |blocks| && layout.place[x] >= |mcus| ==> Contents(blocks)[x] == was[x]
      invariant dec.d.ct == -1 ==> !codable
      invariant dec.d.ct != -1 ==>
                  dec.OnTrack(st, ScanPlan(info, st, mcus, i)) && codable == ScanCodable(info, st, mcus, i)
      invariant dec.d.ct != -1 ==> Received(info, layout, Contents(blocks), was, orig, i)
    {
      ghost var next := AfterMcu(info, st, mcus[i], 0);
      DecodeScanMcu(dec, layout, i, blocks, was, orig, st, ScanPlan(info, next, mcus, i + 1));
      if dec.OnTrack(next, ScanPlan(info, next, mcus, i + 1)) {
        dec.OnTrackIsAlive(next, ScanPlan(info, next, mcus, i + 1));
      }
      st := next;
      i := i + 1;
    }
    ok := dec.d.ct != -1;
  }

  /** Encode a scan and decode the result, followed by a marker. */
  method SendScan(info: ScanInfo, layout: Layout, image: seq<CoefBlock>, blocks: seq<array<Coef>>, marker: Byte)
    returns (ok: bool)
    requires info.Ok() && layout.Ok(info) && |blocks| == |image| == |layout.place| && Blocks(blocks)
    requires ScanBefore(info, layout, Contents(blocks), image) && marker != 0 && marker != 255
    modifies blocks
    ensures ok == ScanCodable(info, InitDcState(|info.dcTbl|), McusOf(layout, info, image), 0)
    ensures ok ==> Received(info, layout, Contents(blocks), old(Contents(blocks)), image, |layout.mcus|)
  {
    var out, u := EncodeScan(info, layout, image);
    StreamHolds(u, marker);
    BinaryRoundTrip(out + [0xFF, marker], u, ScanHistory(info, layout, image));
    ok := DecodeScan(info, layout, out + [0xFF, marker], blocks, image);
  }

  // ----- a scan that is coded but not decoded -----

  /** A first DC scan of one component, with one block in each MCU. */
  const DC_SCAN := ScanInfo(true, 0, 0, 0, 0, [0], [0], [0], seq(16, i => 0), seq(16, i => 0), seq(16, i => 0), [0])

  const TWO_BLOCKS := Layout([[0], [1]], [0, 1], [0, 0])

  /** A block with this DC coefficient. */
  function DcBlock(v: Coef): (block: CoefBlock) {
    seq(64, i => if i == 0 then v else 0)
  }

  /** The two values are as far apart as two coefficients can be: the encoder takes them, and a
      decoder reports an error. */
  lemma TooFarApart(image: seq<CoefBlock>)
    requires image == [DcBlock(0x7FFF), DcBlock(-0x8000)]
    ensures DC_SCAN.Ok() && TWO_BLOCKS.Ok(DC_SCAN) && |image| == |TWO_BLOCKS.place|
    ensures DcValue(image[1], 0) - DcValue(image[0], 0) == -0xFFFF
    ensures !ScanCodable(DC_SCAN, InitDcState(1), McusOf(TWO_BLOCKS, DC_SCAN, image), 0)
  {
    var mcus, st := McusOf(TWO_BLOCKS, DC_SCAN, image), InitDcState(1);
    assert mcus[0] == McuOf(TWO_BLOCKS, DC_SCAN, image, 0) && mcus[1] == McuOf(TWO_BLOCKS, DC_SCAN, image, 1);
    assert mcus[0][0] == image[0] && mcus[1][0] == image[1];
    var st' := NextDcState(DC_SCAN, st, 0, mcus[0][0]);
    assert st'.last[0] == 0x7FFF;
    assert AfterMcu(DC_SCAN, st, mcus[0], 0) == AfterMcu(DC_SCAN, st', mcus[0], 1) == st';
    assert !BlockCodable(DC_SCAN, st', 0, mcus[1][0]);
    assert !McuCodable(DC_SCAN, st', mcus[1], 0);
    assert !ScanCodable(DC_SCAN, st', mcus, 1);
  }

  /** Such a scan ends in an error. */
  method SendTooFarApart(blocks: seq<array<Coef>>) returns (ok: bool)
    requires |blocks| == 2 && Blocks(blocks) && forall x :: 0 <= x < 2 ==> blocks[x][..] == DcBlock(0)
    modifies blocks
    ensures !ok
  {
    var image := [DcBlock(0x7FFF), DcBlock(-0x8000)];
    TooFarApart(image);
    forall x | 0 <= x < 2 ensures Decodable(DC_SCAN, Contents(blocks)[x], image[x]) {
      assert BlankBand(Contents(blocks)[x], DC_SCAN.order, 0, 0);
    }
    ok := SendScan(DC_SCAN, TWO_BLOCKS, image, blocks, 0xD9);
  }
}
