/** All the scans of a script in turn, encoded and decoded: what the image finally holds. */
module ArithProgression {
  import opened Numbers
  import opened IntervalCoder
  import opened Coefficients
  import opened ArithModel
  import opened ArithScanModel
  import opened ArithBlockDecoding
  import opened ArithRoundTrip
  import opened ArithScanCoding
  import opened ArithScanRoundTrip
  import opened Stuffing
  import opened ScanScript

  /** The blocks of an image: the component of each, and whether it is real or only padding that
      completes the MCUs of interleaved scans. */
  datatype Image = Image(comp: seq<nat>, genuine: seq<bool>, order: seq<nat>, limSe: nat) {
    predicate Ok() {
      |comp| == |genuine| && IsOrder(order, limSe)
    }
  }

  datatype Setup = Setup(info: ScanInfo, layout: Layout)

  /** A scan set up for the entry sc of a script: it sends the real blocks of its components, and
      padding only if it is not an AC scan. */
  ghost predicate Fits(sc: Scan, setup: Setup, im: Image)
    requires im.Ok()
  {
    && setup.info.Ok() && setup.layout.Ok(setup.info) && |setup.layout.place| == |im.comp|
    && setup.info.ss == sc.ss && setup.info.se == sc.se <= im.limSe && setup.info.ah == sc.ah && setup.info.al == sc.al
    && setup.info.order == im.order
    && forall x :: 0 <= x < |im.comp| ==>
         if setup.layout.place[x] < |setup.layout.mcus| then im.comp[x] in sc.comps && (sc.ss == 0 || im.genuine[x])
         else !(im.comp[x] in sc.comps && im.genuine[x])
  }

  ghost predicate AllFit(script: seq<Scan>, setups: seq<Setup>, im: Image)
    requires im.Ok()
  {
    |setups| == |script| && forall i :: 0 <= i < |script| ==> Fits(script[i], setups[i], im)
  }

  /** What the decoder holds of a coefficient sent down to plane al, or not at all. */
  function Kept(v: Coef, k: nat, al: int): (r: Coef)
    requires al <= MAX_AH_AL
  {
    if al < 0 then 0 else Truncated(v, k, al)
  }

  /** After i scans, coefficient k of block x is held down to the last plane sent of it. */
  ghost predicate HeldAt(im: Image, script: seq<Scan>, i: nat, now: seq<CoefBlock>, orig: seq<CoefBlock>, x: nat,
                         k: nat)
    requires im.Ok() && i <= |script| && x < |now| == |orig| == |im.comp| && k <= im.limSe
  {
    var al := Last(script, i, im.comp[x], k);
    al <= MAX_AH_AL && (al < 0 || im.genuine[x] ==> now[x][im.order[k]] == Kept(orig[x][im.order[k]], k, al))
  }

  ghost predicate Held(im: Image, script: seq<Scan>, i: nat, now: seq<CoefBlock>, orig: seq<CoefBlock>)
    requires im.Ok() && i <= |script| && |now| == |orig| == |im.comp|
  {
    forall x, k :: 0 <= x < |now| && 0 <= k <= im.limSe ==> HeldAt(im, script, i, now, orig, x, k)
  }

  /** A block that is sent in an AC scan or is real is ready for the scan. */
  lemma HeldIsBefore(im: Image, script: seq<Scan>, i: nat, setup: Setup, now: seq<CoefBlock>, orig: seq<CoefBlock>,
                     x: nat)
    requires im.Ok() && i < |script| && |now| == |orig| == |im.comp| && Continuing(script)
    requires Held(im, script, i, now, orig)
    requires Fits(script[i], setup, im) && x < |now| && setup.layout.place[x] < |setup.layout.mcus|
    ensures im.genuine[x] || script[i].ah == 0 ==> Before(setup.info, now[x], orig[x])
    ensures Decodable(setup.info, now[x], orig[x])
  {
    assert Expand(0);
    var sc, c := script[i], im.comp[x];
    forall k | sc.ss <= k <= sc.se
      ensures Last(script, i, c, k) == if sc.ah == 0 then -1 else sc.ah
      ensures HeldAt(im, script, i, now, orig, x, k)
      ensures sc.ah == 0 ==> now[x][im.order[k]] == 0
      ensures sc.ah > 0 && im.genuine[x] ==> now[x][im.order[k]] == Truncated(orig[x][im.order[k]], k, sc.ah)
    {
      assert sc.Sends(c, k);
      LastBounded(script, i, c, k);
      assert HeldAt(im, script, i, now, orig, x, k);
    }
  }

  lemma ScriptBefore(im: Image, script: seq<Scan>, i: nat, setup: Setup, now: seq<CoefBlock>, orig: seq<CoefBlock>)
    requires im.Ok() && i < |script| && |now| == |orig| == |im.comp| && Continuing(script)
    requires Held(im, script, i, now, orig)
    requires Fits(script[i], setup, im)
    ensures ScanBefore(setup.info, setup.layout, now, orig)
  {
    forall x | 0 <= x < |now| && setup.layout.place[x] < |setup.layout.mcus|
      ensures Decodable(setup.info, now[x], orig[x])
    {
      HeldIsBefore(im, script, i, setup, now, orig, x);
    }
  }

  /** One scan takes every coefficient it sends down to its own bit plane. */
  lemma HeldNext(im: Image, script: seq<Scan>, i: nat, setup: Setup, next: seq<CoefBlock>, now: seq<CoefBlock>,
                 orig: seq<CoefBlock>)
    requires im.Ok() && i < |script| && |next| == |now| == |orig| == |im.comp| && Continuing(script)
    requires Held(im, script, i, now, orig)
    requires Fits(script[i], setup, im) && Received(setup.info, setup.layout, next, now, orig, |setup.layout.mcus|)
    ensures Held(im, script, i + 1, next, orig)
  {
    var j := i + 1;
    forall x, k | 0 <= x < |now| && 0 <= k <= im.limSe ensures HeldAt(im, script, j, next, orig, x, k)
    {
      CoefficientNext(im, script, i, setup, next, now, orig, x, k);
    }
  }

  lemma CoefficientNext(im: Image, script: seq<Scan>, i: nat, setup: Setup, next: seq<CoefBlock>, now: seq<CoefBlock>,
                        orig: seq<CoefBlock>, x: nat, k: nat)
    requires im.Ok() && i < |script| && |next| == |now| == |orig| == |im.comp| && Continuing(script)
    requires Held(im, script, i, now, orig)
    requires Fits(script[i], setup, im) && Received(setup.info, setup.layout, next, now, orig, |setup.layout.mcus|)
    requires x < |now| && k <= im.limSe
    ensures HeldAt(im, script, i + 1, next, orig, x, k)
  {
    assert Expand(0);
    assert HeldAt(im, script, i, now, orig, x, k);
    if setup.layout.place[x] < |setup.layout.mcus| {
      HeldIsBefore(im, script, i, setup, now, orig, x);
      assert Updated(setup.info, next[x], now[x], orig[x]);
      if !script[i].Sends(im.comp[x], k) {
        assert forall j :: script[i].ss <= j <= script[i].se ==> im.order[j] != im.order[k];
      }
    }
  }

  /** No DC difference of the scan is larger than a decoder accepts. */
  ghost predicate Codable(setup: Setup, image: seq<CoefBlock>) {
    && setup.info.Ok() && setup.layout.Ok(setup.info) && |setup.layout.place| == |image|
    && ScanCodable(setup.info, InitDcState(|setup.info.dcTbl|), McusOf(setup.layout, setup.info, image), 0)
  }

  /** Encode scan i of a script and decode it. */
  method SendNext(script: seq<Scan>, i: nat, setup: Setup, im: Image, image: seq<CoefBlock>, blocks: seq<array<Coef>>,
                  marker: Byte)
    returns (ok: bool)
    requires im.Ok() && i < |script| && Continuing(script) && Fits(script[i], setup, im) && marker != 0 && marker != 255
    requires |image| == |blocks| == |im.comp| && Blocks(blocks) && Held(im, script, i, Contents(blocks), image)
    modifies blocks
    ensures ok == Codable(setup, image)
    ensures ok ==> Held(im, script, i + 1, Contents(blocks), image)
  {
    ghost var now := Contents(blocks);
    ScriptBefore(im, script, i, setup, now, image);
    ok := SendScan(setup.info, setup.layout, image, blocks, marker);
    if ok {
      HeldNext(im, script, i, setup, Contents(blocks), now, image);
    }
  }

  /** Encode every scan of a script and decode each into the same image, until a decoder reports an
      error. Without one, every coefficient of every real block holds the original down to the
      last bit plane that the script sends of it: all of it if that is plane 0. */
  method SendScript(script: seq<Scan>, setups: seq<Setup>, im: Image, image: seq<CoefBlock>, blocks: seq<array<Coef>>,
                    marker: Byte)
    returns (ok: bool)
    requires im.Ok() && Continuing(script) && AllFit(script, setups, im) && marker != 0 && marker != 255
    requires |image| == |blocks| == |im.comp| && Blocks(blocks)
    requires forall x, k :: 0 <= x < |blocks| && 0 <= k < 64 ==> blocks[x][k] == 0
    modifies blocks
    ensures ok == forall i :: 0 <= i < |script| ==> Codable(setups[i], image)
    ensures ok ==> Held(im, script, |script|, Contents(blocks), image)
  {
    var i := 0;
    while i < |script|
      invariant i <= |script| && Held(im, script, i, Contents(blocks), image)
      invariant forall j :: 0 <= j < i ==> Codable(setups[j], image)
    {
      assert Fits(script[i], setups[i], im);
      ok := SendNext(script, i, setups[i], im, image, blocks, marker);
      if !ok {
        assert !Codable(setups[i], image);
        return;
      }
      i := i + 1;
    }
    ok := true;
  }

  /** A complete script leaves the image exact. */
  lemma CompleteIsExact(script: seq<Scan>, im: Image, now: seq<CoefBlock>, orig: seq<CoefBlock>, x: nat, k: nat)
    requires im.Ok() && |now| == |orig| == |im.comp| && Held(im, script, |script|, now, orig)
    requires x < |now| && im.genuine[x] && k <= im.limSe && Last(script, |script|, im.comp[x], k) == 0
    ensures now[x][im.order[k]] == orig[x][im.order[k]]
  {
    assert HeldAt(im, script, |script|, now, orig, x, k);
  }

  // ----- when DC differences are small enough -----

  /** DC values are within 15 bits once transformed. */
  ghost predicate DcInRange(setup: Setup, image: seq<CoefBlock>) {
    setup.info.al > 0 || forall x :: 0 <= x < |image| ==> -0x4000 <= image[x][0] <= 0x4000
  }

  ghost predicate StateInRange(st: DcState) {
    forall i :: 0 <= i < |st.last| ==> -0x4000 <= st.last[i] <= 0x4000
  }

  lemma DcValueInRange(block: CoefBlock, al: nat)
    requires al > 0 || -0x4000 <= block[0] <= 0x4000
    ensures -0x4000 <= DcValue(block, al) <= 0x4000
  {
    if al > 0 {
      ShrShr(block[0], 1, al - 1);
      ShrTowardsZero(block[0] / 2, al - 1);
      assert Shr(block[0], 1) == block[0] / 2;
    }
  }

  lemma {:induction false} McuInRange(info: ScanInfo, st: DcState, mcu: seq<CoefBlock>, b: nat)
    requires info.Ok() && StateOk(info, st) && b <= |mcu| == |info.membership| && StateInRange(st)
    requires info.al > 0 || forall i :: b <= i < |mcu| ==> -0x4000 <= mcu[i][0] <= 0x4000
    ensures McuCodable(info, st, mcu, b) && StateInRange(AfterMcu(info, st, mcu, b))
    decreases |mcu| - b
  {
    if b < |mcu| {
      DcValueInRange(mcu[b], info.al);
      McuInRange(info, NextDcState(info, st, info.membership[b], mcu[b]), mcu, b + 1);
    }
  }

  lemma {:induction false} ScanInRange(info: ScanInfo, st: DcState, mcus: seq<seq<CoefBlock>>, i: nat)
    requires info.Ok() && StateOk(info, st) && i <= |mcus| && McusOk(info, mcus) && StateInRange(st)
    requires info.al > 0 || forall j, b :: i <= j < |mcus| && 0 <= b < |mcus[j]| ==> -0x4000 <= mcus[j][b][0] <= 0x4000
    ensures ScanCodable(info, st, mcus, i)
    decreases |mcus| - i
  {
    if i < |mcus| {
      McuInRange(info, st, mcus[i], 0);
      ScanInRange(info, AfterMcu(info, st, mcus[i], 0), mcus, i + 1);
    }
  }

  /** With every DC value in 15 bits, or at least one bit plane left for later scans, no decoder
      reports an error. */
  lemma InRangeIsCodable(setup: Setup, image: seq<CoefBlock>)
    requires setup.info.Ok() && setup.layout.Ok(setup.info) && |setup.layout.place| == |image|
    requires DcInRange(setup, image)
    ensures Codable(setup, image)
  {
    var mcus := McusOf(setup.layout, setup.info, image);
    forall j, b | 0 <= j < |mcus| && 0 <= b < |mcus[j]|
      ensures setup.info.al > 0 || -0x4000 <= mcus[j][b][0] <= 0x4000
    {
      assert mcus[j] == McuOf(setup.layout, setup.info, image, j);
    }
    ScanInRange(setup.info, InitDcState(|setup.info.dcTbl|), mcus, 0);
  }
}
