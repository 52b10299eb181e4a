/** A whole image: from an accepted script to the coefficients that a decoder finally holds. */
module ArithImage {
  import opened Numbers
  import opened IntervalCoder
  import opened Coefficients
  import opened ArithScanModel
  import opened ArithScanCoding
  import opened ArithScanRoundTrip
  import opened ScanScript
  import opened ArithProgression
  import opened ArithLayout

  /** What the scans of an accepted script have in common, cut down to the coefficients of a block. */
  predicate ScanShaped(sc: Scan, n: nat, progressive: bool, limSe: nat) {
    && sc.CompsOk(n) && 0 <= sc.ss <= sc.se <= limSe && 0 <= sc.ah <= MAX_AH_AL && 0 <= sc.al <= MAX_AH_AL
    && (sc.ah > 0 ==> sc.ah == sc.al + 1)
    && if progressive then if sc.ss == 0 then sc.se == 0 else |sc.comps| == 1 else sc.ss == sc.ah == sc.al == 0
  }

  /** select_scan_parameters and per_scan_setup. */
  function SetupOf(g: Frame, sc: Scan, progressive: bool): (setup: Setup)
    requires g.Ok() && ScanShaped(sc, |g.comps|, progressive, g.limSe)
  {
    var cs := CompsOf(g, sc.comps);
    CompsSampled(g, sc.comps);
    var membership: seq<nat> :=
      if |cs| == 1 then [0] else seq(McuBlocks(cs), b requires 0 <= b < McuBlocks(cs) => MemberAt(cs, b).ci);
    Setup(
      ScanInfo(progressive, sc.ss, sc.se, sc.ah, sc.al,
               seq(|cs|, j requires 0 <= j < |cs| => cs[j].dcTbl), seq(|cs|, j requires 0 <= j < |cs| => cs[j].acTbl),
               membership, g.dcL, g.dcU, g.acK, g.order),
      if |cs| == 1 then SingleLayout(g, sc.comps[0]) else InterleavedLayout(g, sc.comps))
  }

  lemma SetupInfoOk(g: Frame, sc: Scan, progressive: bool)
    requires g.Ok() && ScanShaped(sc, |g.comps|, progressive, g.limSe)
    ensures SetupOf(g, sc, progressive).info.Ok()
  {
    CompsSampled(g, sc.comps);
  }

  lemma SingleOk(g: Frame, c: nat, info: ScanInfo)
    requires g.Ok() && c < |g.comps| && |info.membership| == 1
    ensures SingleLayout(g, c).Ok(info)
  {
    var layout := SingleLayout(g, c);
    forall i | 0 <= i < |layout.mcus|
      ensures layout.mcus[i] == [g.index(SinglePlaceAt(g, c, i))]
      ensures var k := layout.mcus[i][0]; k < |layout.place| && layout.place[k] == i && layout.slot[k] == 0
    {
      SingleMcu(g, c, i);
    }
    forall k | 0 <= k < |layout.place| && layout.place[k] < |layout.mcus|
      ensures layout.slot[k] < |layout.mcus[layout.place[k]]| && layout.mcus[layout.place[k]][layout.slot[k]] == k
    {
      SinglePlace(g, c, k);
    }
  }

  lemma InterleavedOk(g: Frame, comps: seq<int>, info: ScanInfo)
    requires g.Ok() && CompsIn(g, comps) && |info.membership| == McuBlocks(CompsOf(g, comps))
    ensures InterleavedLayout(g, comps).Ok(info)
  {
    var layout := InterleavedLayout(g, comps);
    forall i, b | 0 <= i < |layout.mcus| && 0 <= b < |layout.mcus[i]|
      ensures var k := layout.mcus[i][b]; k < |layout.place| && layout.place[k] == i && layout.slot[k] == b
    {
      InterleavedMcu(g, comps, i, b);
    }
    forall k | 0 <= k < |layout.place| && layout.place[k] < |layout.mcus|
      ensures layout.slot[k] < |layout.mcus[layout.place[k]]| && layout.mcus[layout.place[k]][layout.slot[k]] == k
    {
      InterleavedPlace(g, comps, k);
    }
  }

  /** The scan sends the real blocks of its components, and others only if it is interleaved. */
  lemma SetupSends(g: Frame, sc: Scan, progressive: bool, k: nat)
    requires g.Ok() && ScanShaped(sc, |g.comps|, progressive, g.limSe) && k < |g.places|
    ensures var layout, im := SetupOf(g, sc, progressive).layout, ImageOf(g);
            if layout.place[k] < |layout.mcus| then im.comp[k] in sc.comps && (|sc.comps| > 1 || im.genuine[k])
            else !(im.comp[k] in sc.comps && im.genuine[k])
  {
    if |sc.comps| == 1 {
      SinglePlace(g, sc.comps[0], k);
    } else {
      InterleavedPlace(g, sc.comps, k);
    }
  }

  /** A scan can be set up for every entry. */
  lemma SetupFits(g: Frame, sc: Scan, progressive: bool)
    requires g.Ok() && ScanShaped(sc, |g.comps|, progressive, g.limSe)
    ensures Fits(sc, SetupOf(g, sc, progressive), ImageOf(g))
  {
    var setup, im := SetupOf(g, sc, progressive), ImageOf(g);
    SetupInfoOk(g, sc, progressive);
    if |sc.comps| == 1 {
      SingleOk(g, sc.comps[0], setup.info);
    } else {
      InterleavedOk(g, sc.comps, setup.info);
    }
    forall k | 0 <= k < |im.comp|
      ensures if setup.layout.place[k] < |setup.layout.mcus| then
                im.comp[k] in sc.comps && (sc.ss == 0 || im.genuine[k])
              else !(im.comp[k] in sc.comps && im.genuine[k])
    {
      SetupSends(g, sc, progressive, k);
    }
  }

  // ----- accepted scripts -----

  /** The script that is followed: validated, and reduced if blocks are small. */
  function Followed(script: seq<Scan>, limSe: nat): (r: seq<Scan>) {
    if limSe < DCTSIZE2 - 1 then Reduced(script, |script|, limSe) else script
  }

  predicate AllShaped(script: seq<Scan>, n: nat, progressive: bool, limSe: nat) {
    forall i :: 0 <= i < |script| ==> ScanShaped(script[i], n, progressive, limSe)
  }

  lemma ValidShaped(script: seq<Scan>, n: nat, i: nat)
    requires Valid(script, n) && i < |script|
    ensures ScanShaped(script[i], n, Progressive(script), DCTSIZE2 - 1)
  {
    assert ScanOk(script, i, n);
    var sc := script[i];
    if Progressive(script) {
      assert ComponentOk(script, i, sc.comps[0]);
      assert sc.Continues(Last(script, i, sc.comps[0], sc.ss));
    }
  }

  lemma {:induction false} ReducedShaped(script: seq<Scan>, m: nat, n: nat, progressive: bool, limSe: nat)
    requires m <= |script| && AllShaped(script, n, progressive, DCTSIZE2 - 1)
    ensures AllShaped(Reduced(script, m, limSe), n, progressive, limSe)
  {
    if m > 0 {
      ReducedShaped(script, m - 1, n, progressive, limSe);
    }
  }

  /** Everything that an accepted script asks for can be set up. */
  lemma FollowedShaped(script: seq<Scan>, n: nat, limSe: nat)
    requires Valid(script, n) && limSe < DCTSIZE2
    ensures AllShaped(Followed(script, limSe), n, Progressive(script), limSe) && Continuing(Followed(script, limSe))
  {
    forall i | 0 <= i < |script| ensures ScanShaped(script[i], n, Progressive(script), DCTSIZE2 - 1) {
      ValidShaped(script, n, i);
    }
    ValidContinues(script, n);
    if limSe < DCTSIZE2 - 1 {
      ReducedShaped(script, |script|, n, Progressive(script), limSe);
      ReducedContinues(script, |script|, limSe);
    }
  }

  /** Reduction does not change what is sent last of a coefficient. */
  lemma FollowedLast(script: seq<Scan>, limSe: nat, c: int, k: nat)
    requires k <= limSe
    ensures Last(Followed(script, limSe), |Followed(script, limSe)|, c, k) == Last(script, |script|, c, k)
  {
    if limSe < DCTSIZE2 - 1 {
      var r := Reduced(script, |script|, limSe);
      ReducedPlanes(script, |script|, limSe, c, k);
      LastPlane(r, |r|, c, k);
      LastPlane(script, |script|, c, k);
    }
  }

  function SetupsOf(g: Frame, script: seq<Scan>, progressive: bool): (setups: seq<Setup>)
    requires g.Ok() && AllShaped(script, |g.comps|, progressive, g.limSe)
    ensures |setups| == |script| && forall i :: 0 <= i < |script| ==> setups[i] == SetupOf(g, script[i], progressive)
  {
    seq(|script|, i requires 0 <= i < |script| => SetupOf(g, script[i], progressive))
  }

  lemma SetupsFit(g: Frame, script: seq<Scan>, progressive: bool)
    requires g.Ok() && AllShaped(script, |g.comps|, progressive, g.limSe)
    ensures AllFit(script, SetupsOf(g, script, progressive), ImageOf(g))
  {
    var setups := SetupsOf(g, script, progressive);
    forall i | 0 <= i < |script| ensures Fits(script[i], setups[i], ImageOf(g)) {
      SetupFits(g, script[i], progressive);
    }
  }

  // ----- the image -----

  /** No DC difference of any scan is larger than a decoder accepts. */
  ghost predicate AllCodable(g: Frame, script: seq<Scan>, image: seq<CoefBlock>)
    requires g.Ok() && Valid(script, |g.comps|) && g.limSe < DCTSIZE2
  {
    FollowedShaped(script, |g.comps|, g.limSe);
    var setups := SetupsOf(g, Followed(script, g.limSe), Progressive(script));
    forall i :: 0 <= i < |setups| ==> Codable(setups[i], image)
  }

  /** Every coefficient of every real block is the original down to the last bit plane that the script
      sends of it. */
  ghost predicate Shown(g: Frame, script: seq<Scan>, now: seq<CoefBlock>, image: seq<CoefBlock>)
    requires g.Ok() && |now| == |image| == |g.places|
  {
    forall x, k :: 0 <= x < |now| && 0 <= k <= g.limSe && g.Genuine(g.places[x]) ==>
      ShownAt(g, now[x], image[x], k, Last(script, |script|, g.places[x].comp, k))
  }

  ghost predicate ShownAt(g: Frame, now: CoefBlock, orig: CoefBlock, k: nat, al: int)
    requires g.Ok() && k <= g.limSe
  {
    && al <= MAX_AH_AL
    && now[g.order[k]] == Kept(orig[g.order[k]], k, al)
    && (al == 0 ==> now[g.order[k]] == orig[g.order[k]])
  }

  lemma HeldIsShown(g: Frame, script: seq<Scan>, now: seq<CoefBlock>, image: seq<CoefBlock>)
    requires g.Ok() && Valid(script, |g.comps|) && g.limSe < DCTSIZE2 && |now| == |image| == |g.places|
    requires var r := Followed(script, g.limSe); Held(ImageOf(g), r, |r|, now, image)
    ensures Shown(g, script, now, image)
  {
    var r := Followed(script, g.limSe);
    forall x, k | 0 <= x < |now| && 0 <= k <= g.limSe && g.Genuine(g.places[x])
      ensures ShownAt(g, now[x], image[x], k, Last(script, |script|, g.places[x].comp, k))
    {
      assert HeldAt(ImageOf(g), r, |r|, now, image, x, k);
      FollowedLast(script, g.limSe, g.places[x].comp, k);
    }
  }

  /** With DC values of 15 bits no scan of any script is rejected. */
  lemma SmallIsCodable(g: Frame, script: seq<Scan>, image: seq<CoefBlock>)
    requires g.Ok() && Valid(script, |g.comps|) && g.limSe < DCTSIZE2 && |image| == |g.places|
    requires forall x :: 0 <= x < |image| ==> -0x4000 <= image[x][0] <= 0x4000
    ensures AllCodable(g, script, image)
  {
    FollowedShaped(script, |g.comps|, g.limSe);
    var r := Followed(script, g.limSe);
    var setups := SetupsOf(g, r, Progressive(script));
    SetupsFit(g, r, Progressive(script));
    forall i | 0 <= i < |setups| ensures Codable(setups[i], image) {
      assert Fits(r[i], setups[i], ImageOf(g));
      InRangeIsCodable(setups[i], image);
    }
  }

  /** Encode all scans of an accepted script and decode them, in turn, into an image of zeros: a decoder
      reports an error exactly if a DC difference was too large, and otherwise every coefficient is held
      down to the last bit plane that the script sends of it, exactly so if that is plane 0. */
  method SendImage(g: Frame, script: seq<Scan>, image: seq<CoefBlock>, blocks: seq<array<Coef>>, marker: Byte)
    returns (ok: bool)
    requires g.Ok() && Valid(script, |g.comps|) && g.limSe < DCTSIZE2 && marker != 0 && marker != 255
    requires |image| == |blocks| == |g.places| && Blocks(blocks)
    requires forall x, k :: 0 <= x < |blocks| && 0 <= k < 64 ==> blocks[x][k] == 0
    modifies blocks
    ensures ok == AllCodable(g, script, image)
    ensures ok ==> Shown(g, script, Contents(blocks), image)
  {
    FollowedShaped(script, |g.comps|, g.limSe);
    var r := Followed(script, g.limSe);
    var setups := SetupsOf(g, r, Progressive(script));
    SetupsFit(g, r, Progressive(script));
    ok := SendScript(r, setups, ImageOf(g), image, blocks, marker);
    if ok {
      HeldIsShown(g, script, Contents(blocks), image);
    }
  }
}
