/**
 Scan scripts: the validator, the reduction for small blocks and the recommended progression.
 A script sends the bit planes of each coefficient of each component over one or more scans.
 */
module ScanScript {
  const MAX_COMPONENTS := 10
  const MAX_COMPS_IN_SCAN := 4
  const DCTSIZE2 := 64
  const MAX_AH_AL := 10  // for 8-bit samples

  /** comps lists component_index[0 .. comps_in_scan]. */
  datatype Scan = Scan(comps: seq<int>, ss: int, se: int, ah: int, al: int) {
    predicate Sends(c: int, k: int) {
      c in comps && ss <= k <= se
    }

    /** One to four known components, in SOF order. */
    predicate CompsOk(n: nat) {
      && 1 <= |comps| <= MAX_COMPS_IN_SCAN
      && (forall j :: 0 <= j < |comps| ==> 0 <= comps[j] < n)
      && (forall i, j :: 0 <= i < j < |comps| ==> comps[i] < comps[j])
    }

    predicate ProgressionOk() {
      && 0 <= ss <= se < DCTSIZE2 && 0 <= ah <= MAX_AH_AL && 0 <= al <= MAX_AH_AL
      && (if ss == 0 then se == 0 else |comps| == 1)
    }

    predicate SequentialOk() {
      ss == 0 && se == DCTSIZE2 - 1 && ah == 0 && al == 0
    }

    /** The first scan of a coefficient starts afresh, a later one sends the next lower plane. */
    predicate Continues(last: int) {
      if last < 0 then ah == 0 else ah == last && al == ah - 1
    }
  }

  /** Al of the latest of the first i scans that sends coefficient k of component c, or -1. */
  function Last(script: seq<Scan>, i: nat, c: int, k: int): (al: int)
    requires i <= |script|
  {
    if i == 0 then -1
    else if script[i - 1].Sends(c, k) then script[i - 1].al
    else Last(script, i - 1, c, k)
  }

  predicate Progressive(script: seq<Scan>) {
    |script| > 0 && !(script[0].ss == 0 && script[0].se == DCTSIZE2 - 1)
  }

  predicate ComponentOk(script: seq<Scan>, i: nat, c: int)
    requires i < |script|
  {
    && (script[i].ss != 0 ==> Last(script, i, c, 0) >= 0)
    && (forall k :: script[i].ss <= k <= script[i].se ==> script[i].Continues(Last(script, i, c, k)))
  }

  /** Scan i may follow the scans before it. */
  predicate ScanOk(script: seq<Scan>, i: nat, n: nat)
    requires i < |script|
  {
    && script[i].CompsOk(n)
    && (if Progressive(script) then
          && script[i].ProgressionOk()
          && forall j :: 0 <= j < |script[i].comps| ==> ComponentOk(script, i, script[i].comps[j])
        else
          && script[i].SequentialOk()
          && forall j :: 0 <= j < |script[i].comps| ==> Last(script, i, script[i].comps[j], 0) < 0)
  }

  /** What the validator accepts: every scan may follow those before it, and some DC data is sent
      for each component. */
  predicate Valid(script: seq<Scan>, n: nat) {
    && |script| > 0
    && (forall i :: 0 <= i < |script| ==> ScanOk(script, i, n))
    && (forall c :: 0 <= c < n ==> Last(script, |script|, c, 0) >= 0)
  }

  // ----- the validator -----

  datatype Verdict = Accepted(progressive: bool) | BadScan(scanno: nat) | MissingData

  method CheckComponents(scan: Scan, n: nat) returns (ok: bool)
    ensures ok == scan.CompsOk(n)
  {
    if |scan.comps| <= 0 || |scan.comps| > MAX_COMPS_IN_SCAN {
      return false;
    }
    var ci := 0;
    while ci < |scan.comps|
      invariant ci <= |scan.comps|
      invariant forall j :: 0 <= j < ci ==> 0 <= scan.comps[j] < n
      invariant forall i, j :: 0 <= i < j < ci ==> scan.comps[i] < scan.comps[j]
    {
      var thisi := scan.comps[ci];
      if thisi < 0 || thisi >= n || (ci > 0 && thisi <= scan.comps[ci - 1]) {
        return false;
      }
      ci := ci + 1;
    }
    ok := true;
  }

  /** last_bitpos holds Last after i scans. */
  ghost predicate Tracks(bitpos: array2<int>, script: seq<Scan>, i: nat)
    requires i <= |script|
    reads bitpos
  {
    bitpos.Length1 == DCTSIZE2 &&
    forall c, k :: 0 <= c < bitpos.Length0 && 0 <= k < DCTSIZE2 ==> bitpos[c, k] == Last(script, i, c, k)
  }

  /** Within scan i: its first m components have been noted. */
  ghost predicate TracksWithin(bitpos: array2<int>, script: seq<Scan>, i: nat, m: nat)
    requires i < |script| && m <= |script[i].comps|
    reads bitpos
  {
    bitpos.Length1 == DCTSIZE2 &&
    forall c, k :: 0 <= c < bitpos.Length0 && 0 <= k < DCTSIZE2 ==>
      bitpos[c, k] == if c in script[i].comps[..m] then Last(script, i + 1, c, k) else Last(script, i, c, k)
  }

  /** Check scan i for its component m, and note what it sends. */
  method CheckComponent(bitpos: array2<int>, script: seq<Scan>, i: nat, m: nat) returns (ok: bool)
    requires i < |script| && script[i].CompsOk(bitpos.Length0) && script[i].ProgressionOk() && m < |script[i].comps|
    requires TracksWithin(bitpos, script, i, m)
    modifies bitpos
    ensures ok == ComponentOk(script, i, script[i].comps[m])
    ensures ok ==> TracksWithin(bitpos, script, i, m + 1)
  {
    var scan, c := script[i], script[i].comps[m];
    if scan.ss != 0 && bitpos[c, 0] < 0 {
      return false;
    }
    var coefi := scan.ss;
    while coefi <= scan.se
      invariant scan.ss <= coefi <= scan.se + 1
      invariant forall k :: scan.ss <= k < coefi ==> scan.Continues(Last(script, i, c, k))
      invariant forall x, k :: 0 <= x < bitpos.Length0 && 0 <= k < DCTSIZE2 ==>
        bitpos[x, k] == if x == c && scan.ss <= k < coefi then scan.al else old(bitpos[x, k])
    {
      if bitpos[c, coefi] < 0 {
        if scan.ah != 0 {
          return false;
        }
      } else {
        if scan.ah != bitpos[c, coefi] || scan.al != scan.ah - 1 {
          return false;
        }
      }
      bitpos[c, coefi] := scan.al;
      coefi := coefi + 1;
    }
    ok := true;
    assert scan.comps[..m + 1] == scan.comps[..m] + [c];
  }

  /** Check scan i of a progressive script. */
  method CheckProgressive(bitpos: array2<int>, script: seq<Scan>, i: nat) returns (ok: bool)
    requires i < |script| && script[i].CompsOk(bitpos.Length0) && Tracks(bitpos, script, i)
    modifies bitpos
    ensures ok
         == (&& script[i].ProgressionOk()
             && forall j :: 0 <= j < |script[i].comps| ==> ComponentOk(script, i, script[i].comps[j]))
    ensures ok ==> Tracks(bitpos, script, i + 1)
  {
    var scan := script[i];
    if scan.ss < 0 || scan.ss >= DCTSIZE2 || scan.se < scan.ss || scan.se >= DCTSIZE2
       || scan.ah < 0 || scan.ah > MAX_AH_AL || scan.al < 0 || scan.al > MAX_AH_AL {
      return false;
    }
    if scan.ss == 0 {
      if scan.se != 0 {
        return false;
      }
    } else {
      if |scan.comps| != 1 {
        return false;
      }
    }
    var ci := 0;
    while ci < |scan.comps|
      invariant ci <= |scan.comps| && TracksWithin(bitpos, script, i, ci)
      invariant forall j :: 0 <= j < ci ==> ComponentOk(script, i, scan.comps[j])
    {
      var good := CheckComponent(bitpos, script, i, ci);
      if !good {
        return false;
      }
      ci := ci + 1;
    }
    assert scan.comps[..ci] == scan.comps;
    ok := true;
  }

  /** component_sent holds the components sent by the first i scans. */
  ghost predicate TracksSent(sent: array<bool>, script: seq<Scan>, i: nat)
    requires i <= |script|
    reads sent
  {
    forall c :: 0 <= c < sent.Length ==> sent[c] == (Last(script, i, c, 0) >= 0)
  }

  /** Check scan i of a sequential script. */
  method CheckSequential(sent: array<bool>, script: seq<Scan>, i: nat) returns (ok: bool)
    requires i < |script| && script[i].CompsOk(sent.Length) && TracksSent(sent, script, i)
    modifies sent
    ensures ok
         == (&& script[i].SequentialOk()
             && forall j :: 0 <= j < |script[i].comps| ==> Last(script, i, script[i].comps[j], 0) < 0)
    ensures ok ==> TracksSent(sent, script, i + 1)
  {
    var scan := script[i];
    if scan.ss != 0 || scan.se != DCTSIZE2 - 1 || scan.ah != 0 || scan.al != 0 {
      return false;
    }
    var ci := 0;
    while ci < |scan.comps|
      invariant ci <= |scan.comps|
      invariant forall j :: 0 <= j < ci ==> Last(script, i, scan.comps[j], 0) < 0
      invariant forall c :: 0 <= c < sent.Length ==> sent[c] == (c in scan.comps[..ci] || Last(script, i, c, 0) >= 0)
    {
      var thisi := scan.comps[ci];
      if sent[thisi] {
        return false;
      }
      sent[thisi] := true;
      ci := ci + 1;
    }
    assert scan.comps[..ci] == scan.comps;
    ok := true;
  }

  /** The first scan that may not follow those before it. */
  ghost predicate FirstBad(script: seq<Scan>, i: nat, n: nat) {
    i < |script| && !ScanOk(script, i, n) && forall j :: 0 <= j < i ==> ScanOk(script, j, n)
  }

  /** Accepts exactly the valid scripts, and otherwise names the first scan at fault. */
  method ValidateScript(script: seq<Scan>, n: nat) returns (verdict: Verdict)
    requires n <= MAX_COMPONENTS
    ensures verdict.Accepted? <==> Valid(script, n)
    ensures verdict.Accepted? ==> verdict.progressive == Progressive(script)
    ensures verdict.BadScan? ==> if verdict.scanno == 0 then script == [] else FirstBad(script, verdict.scanno - 1, n)
    ensures verdict.MissingData? ==> forall i :: 0 <= i < |script| ==> ScanOk(script, i, n)
  {
    if |script| <= 0 {
      return BadScan(0);
    }
    var progressive := script[0].ss != 0 || script[0].se != DCTSIZE2 - 1;
    var bitpos := new int[n, DCTSIZE2]((c, k) => -1);
    var sent := new bool[n](c => false);
    var i := 0;
    while i < |script|
      invariant i <= |script| && forall j :: 0 <= j < i ==> ScanOk(script, j, n)
      invariant progressive ==> Tracks(bitpos, script, i)
      invariant !progressive ==> TracksSent(sent, script, i)
    {
      var good := CheckComponents(script[i], n);
      if good {
        if progressive {
          good := CheckProgressive(bitpos, script, i);
        } else {
          good := CheckSequential(sent, script, i);
        }
      }
      if !good {
        assert !ScanOk(script, i, n);
        return BadScan(i + 1);
      }
      i := i + 1;
    }
    var ci := 0;
    while ci < n
      invariant ci <= n && forall c :: 0 <= c < ci ==> Last(script, |script|, c, 0) >= 0
    {
      if if progressive then bitpos[ci, 0] < 0 else !sent[ci] {
        return MissingData;
      }
      ci := ci + 1;
    }
    verdict := Accepted(progressive);
  }

  // ----- what a valid script sends -----

  /** The (Ah, Al) of those of the first i scans that send coefficient k of component c, in order. */
  function Planes(script: seq<Scan>, i: nat, c: int, k: int): (p: seq<(int, int)>)
    requires i <= |script|
  {
    if i == 0 then []
    else if script[i - 1].Sends(c, k) then Planes(script, i - 1, c, k) + [(script[i - 1].ah, script[i - 1].al)]
    else Planes(script, i - 1, c, k)
  }

  /** First everything from some bit plane up, then one plane at a time, highest first. */
  predicate Descending(p: seq<(int, int)>) {
    (|p| > 0 ==> p[0].0 == 0) && (forall j :: 0 <= j < |p| ==> p[j].1 >= 0) &&
    forall j :: 0 < j < |p| ==> p[j].0 == p[j - 1].1 && p[j].1 == p[j - 1].1 - 1
  }

  lemma {:induction false} LastPlane(script: seq<Scan>, i: nat, c: int, k: int)
    requires i <= |script|
    ensures var p := Planes(script, i, c, k); Last(script, i, c, k) == if p == [] then -1 else p[|p| - 1].1
  {
    if i > 0 && !script[i - 1].Sends(c, k) {
      LastPlane(script, i - 1, c, k);
    }
  }

  /** In a sequential script a component is sent whole or not at all. */
  lemma {:induction false} SentWhole(script: seq<Scan>, i: nat, n: nat, c: int, k: int)
    requires i <= |script| && forall j :: 0 <= j < i ==> ScanOk(script, j, n)
    requires !Progressive(script) && 0 <= k < DCTSIZE2
    ensures Last(script, i, c, k) == Last(script, i, c, 0)
  {
    if i > 0 {
      assert ScanOk(script, i - 1, n);
      SentWhole(script, i - 1, n, c, k);
    }
  }

  /** In both modes, each scan continues what was sent of every coefficient it covers. */
  lemma ScanContinues(script: seq<Scan>, i: nat, n: nat, c: int, k: int)
    requires i < |script| && (forall j :: 0 <= j <= i ==> ScanOk(script, j, n)) && script[i].Sends(c, k)
    ensures script[i].Continues(Last(script, i, c, k)) && 0 <= script[i].al <= MAX_AH_AL
    ensures script[i].ss > 0 ==> Last(script, i, c, 0) >= 0
  {
    assert ScanOk(script, i, n);
    var j :| 0 <= j < |script[i].comps| && script[i].comps[j] == c;
    if Progressive(script) {
      assert ComponentOk(script, i, script[i].comps[j]);
    } else {
      SentWhole(script, i, n, c, k);
    }
  }

  /** Every scan continues what was sent of every coefficient it covers. */
  ghost predicate Continuing(script: seq<Scan>) {
    forall i, c, k :: 0 <= i < |script| && script[i].Sends(c, k) ==>
      script[i].Continues(Last(script, i, c, k)) && 0 <= script[i].al <= MAX_AH_AL
  }

  lemma ValidContinues(script: seq<Scan>, n: nat)
    requires Valid(script, n)
    ensures Continuing(script)
  {
    forall i, c, k | 0 <= i < |script| && script[i].Sends(c, k)
      ensures script[i].Continues(Last(script, i, c, k)) && 0 <= script[i].al <= MAX_AH_AL
    {
      ScanContinues(script, i, n, c, k);
    }
  }

  lemma {:induction false} LastBounded(script: seq<Scan>, i: nat, c: int, k: int)
    requires i <= |script| && Continuing(script)
    ensures -1 <= Last(script, i, c, k) <= MAX_AH_AL
  {
    if i > 0 {
      LastBounded(script, i - 1, c, k);
    }
  }

  /** Every coefficient of every component is sent with Ah = 0 first and then in contiguous
      descending bit planes. */
  lemma {:induction false} ValidDescends(script: seq<Scan>, i: nat, n: nat, c: int, k: int)
    requires Valid(script, n) && i <= |script|
    ensures Descending(Planes(script, i, c, k))
  {
    if i > 0 {
      ValidDescends(script, i - 1, n, c, k);
      if script[i - 1].Sends(c, k) {
        ScanContinues(script, i - 1, n, c, k);
        LastPlane(script, i - 1, c, k);
      }
    }
  }

  /** A sequential script sends everything at once. */
  lemma SequentialIsComplete(script: seq<Scan>, n: nat, c: int, k: int)
    requires Valid(script, n) && !Progressive(script) && 0 <= c < n && 0 <= k < DCTSIZE2
    ensures Last(script, |script|, c, k) == 0
  {
    SentWhole(script, |script|, n, c, k);
    AllPlanesSent(script, |script|, n, c);
  }

  lemma {:induction false} AllPlanesSent(script: seq<Scan>, i: nat, n: nat, c: int)
    requires i <= |script| && !Progressive(script) && forall j :: 0 <= j < i ==> ScanOk(script, j, n)
    ensures Last(script, i, c, 0) <= 0
  {
    if i > 0 {
      assert ScanOk(script, i - 1, n);
      AllPlanesSent(script, i - 1, n, c);
    }
  }

  // ----- reduction for small blocks -----

  /** The scan cut down to the coefficients of a smaller block. */
  function Limited(sc: Scan, limSe: int): (r: Scan) {
    if sc.se > limSe then sc.(se := limSe) else sc
  }

  /** The first n scans, those out of range dropped and the others limited. */
  function Reduced(script: seq<Scan>, n: nat, limSe: int): (r: seq<Scan>)
    requires n <= |script|
    ensures |r| <= n
  {
    if n == 0 then []
    else if script[n - 1].ss > limSe then Reduced(script, n - 1, limSe)
    else Reduced(script, n - 1, limSe) + [Limited(script[n - 1], limSe)]
  }

  /** Compact the script in place; returns the new number of scans. */
  method ReduceScript(script: array<Scan>, limSe: int) returns (numScans: nat)
    modifies script
    ensures numScans <= script.Length && script[..numScans] == Reduced(old(script[..]), script.Length, limSe)
  {
    var idxout, idxin := 0, 0;
    while idxin < script.Length
      invariant idxout <= idxin <= script.Length
      invariant script[..idxout] == Reduced(old(script[..]), idxin, limSe)
      invariant forall j :: idxin <= j < script.Length ==> script[j] == old(script[j])
    {
      if idxin != idxout {
        script[idxout] := script[idxin];
      }
      if script[idxout].ss <= limSe {
        if script[idxout].se > limSe {
          script[idxout] := script[idxout].(se := limSe);
        }
        idxout := idxout + 1;
      }
      idxin := idxin + 1;
    }
    numScans := idxout;
  }

  /** Last and Planes look only at the scans counted. */
  lemma {:induction false} PlanesOfPrefix(script: seq<Scan>, more: seq<Scan>, i: nat, c: int, k: int)
    requires i <= |script|
    ensures Planes(script + more, i, c, k) == Planes(script, i, c, k)
    ensures Last(script + more, i, c, k) == Last(script, i, c, k)
  {
    if i > 0 {
      PlanesOfPrefix(script, more, i - 1, c, k);
    }
  }

  /** Reduction keeps what is sent of every coefficient that a small block has, and sends nothing
      of the others. */
  lemma {:induction false} ReducedPlanes(script: seq<Scan>, n: nat, limSe: int, c: int, k: int)
    requires n <= |script|
    ensures var r := Reduced(script, n, limSe);
            Planes(r, |r|, c, k) == if k <= limSe then Planes(script, n, c, k) else []
  {
    if n > 0 {
      ReducedPlanes(script, n - 1, limSe, c, k);
      if script[n - 1].ss <= limSe {
        PlanesOfPrefix(Reduced(script, n - 1, limSe), [Limited(script[n - 1], limSe)], |Reduced(script, n - 1, limSe)|,
                       c, k);
      }
    }
  }

  /** So a reduced script still continues what it sends. */
  lemma {:induction false} ReducedContinues(script: seq<Scan>, n: nat, limSe: int)
    requires n <= |script| && Continuing(script)
    ensures Continuing(Reduced(script, n, limSe))
  {
    if n > 0 && script[n - 1].ss > limSe {
      ReducedContinues(script, n - 1, limSe);
    } else if n > 0 {
      ReducedContinues(script, n - 1, limSe);
      var r, sc := Reduced(script, n - 1, limSe), Limited(script[n - 1], limSe);
      forall i, c, k | 0 <= i < |r| + 1 && (r + [sc])[i].Sends(c, k)
        ensures (r + [sc])[i].Continues(Last(r + [sc], i, c, k)) && 0 <= (r + [sc])[i].al <= MAX_AH_AL
      {
        PlanesOfPrefix(r, [sc], i, c, k);
        if i == |r| {
          assert script[n - 1].Sends(c, k);
          ReducedPlanes(script, n - 1, limSe, c, k);
          LastPlane(r, |r|, c, k);
          LastPlane(script, n - 1, c, k);
        }
      }
    }
  }

  // ----- the recommended progression -----

  /** One scan for each of the first n components. */
  function ComponentScans(n: nat, ss: int, se: int, ah: int, al: int): (r: seq<Scan>)
    ensures |r| == n
  {
    seq(n, ci => Scan([ci], ss, se, ah, al))
  }

  /** One interleaved DC scan if the components fit in it, else one for each. */
  function DcScans(n: nat, ah: int, al: int): (r: seq<Scan>) {
    if n <= MAX_COMPS_IN_SCAN then [Scan(seq(n, ci => ci), 0, 0, ah, al)] else ComponentScans(n, 0, 0, ah, al)
  }

  function LumaScan(ss: int, se: int, ah: int, al: int): (r: seq<Scan>) {
    [Scan([0], ss, se, ah, al)]
  }

  /** Both chroma components, the second one first. */
  function ChromaScans(ss: int, se: int, ah: int, al: int): (r: seq<Scan>) {
    [Scan([2], ss, se, ah, al), Scan([1], ss, se, ah, al)]
  }

  function ColourStart(): (r: seq<Scan>) {
    DcScans(3, 0, 1) + LumaScan(1, 5, 0, 2) + ChromaScans(1, 63, 0, 1) + LumaScan(6, 63, 0, 2) + LumaScan(1, 63, 2, 1)
  }

  function ColourScript(): (r: seq<Scan>) {
    ColourStart() + DcScans(3, 1, 0) + ChromaScans(1, 63, 1, 0) + LumaScan(1, 63, 1, 0)
  }

  function GeneralStart(n: nat): (r: seq<Scan>) {
    DcScans(n, 0, 1) + ComponentScans(n, 1, 5, 0, 2) + ComponentScans(n, 6, 63, 0, 2)
  }

  function GeneralScript(n: nat): (r: seq<Scan>) {
    GeneralStart(n) + ComponentScans(n, 1, 63, 2, 1) + DcScans(n, 1, 0) + ComponentScans(n, 1, 63, 1, 0)
  }

  method FillAScan(script: array<Scan>, pos: nat, ci: int, ss: int, se: int, ah: int, al: int) returns (next: nat)
    requires pos + 1 <= script.Length
    modifies script
    ensures next == pos + 1 && script[..next] == old(script[..pos]) + [Scan([ci], ss, se, ah, al)]
  {
    script[pos] := Scan([ci], ss, se, ah, al);
    next := pos + 1;
  }

  method FillScans(script: array<Scan>, pos: nat, ncomps: nat, ss: int, se: int, ah: int, al: int) returns (next: nat)
    requires pos + ncomps <= script.Length
    modifies script
    ensures next == pos + ncomps && script[..next] == old(script[..pos]) + ComponentScans(ncomps, ss, se, ah, al)
  {
    next := pos;
    var ci := 0;
    while ci < ncomps
      invariant ci <= ncomps && next == pos + ci && script[..pos] == old(script[..pos])
      invariant forall j :: 0 <= j < ci ==> script[pos + j] == Scan([j], ss, se, ah, al)
    {
      script[next] := Scan([ci], ss, se, ah, al);
      next := next + 1;
      ci := ci + 1;
    }
    assert forall j :: 0 <= j < ncomps ==> script[pos + j] == ComponentScans(ncomps, ss, se, ah, al)[j];
  }

  method FillDcScans(script: array<Scan>, pos: nat, ncomps: nat, ah: int, al: int) returns (next: nat)
    requires pos + |DcScans(ncomps, ah, al)| <= script.Length
    modifies script
    ensures next == pos + |DcScans(ncomps, ah, al)| && script[..next] == old(script[..pos]) + DcScans(ncomps, ah, al)
  {
    if ncomps <= MAX_COMPS_IN_SCAN {
      script[pos] := Scan(seq(ncomps, ci => ci), 0, 0, ah, al);
      next := pos + 1;
    } else {
      next := FillScans(script, pos, ncomps, 0, 0, ah, al);
    }
  }

  method FillColourStart(script: array<Scan>) returns (pos: nat)
    requires script.Length == 10
    modifies script
    ensures pos == |ColourStart()| && script[..pos] == ColourStart()
  {
    pos := FillDcScans(script, 0, 3, 0, 1);
    pos := FillAScan(script, pos, 0, 1, 5, 0, 2);
    pos := FillAScan(script, pos, 2, 1, 63, 0, 1);
    pos := FillAScan(script, pos, 1, 1, 63, 0, 1);
    pos := FillAScan(script, pos, 0, 6, 63, 0, 2);
    pos := FillAScan(script, pos, 0, 1, 63, 2, 1);
  }

  method FillColourScript(script: array<Scan>)
    requires script.Length == 10
    modifies script
    ensures script[..] == ColourScript()
  {
    var pos := FillColourStart(script);
    pos := FillDcScans(script, pos, 3, 1, 0);
    pos := FillAScan(script, pos, 2, 1, 63, 1, 0);
    pos := FillAScan(script, pos, 1, 1, 63, 1, 0);
    pos := FillAScan(script, pos, 0, 1, 63, 1, 0);
    assert script[..pos] == script[..];
  }

  method FillGeneralScript(script: array<Scan>, ncomps: nat)
    requires script.Length == |GeneralScript(ncomps)|
    modifies script
    ensures script[..] == GeneralScript(ncomps)
  {
    var pos := FillDcScans(script, 0, ncomps, 0, 1);
    pos := FillScans(script, pos, ncomps, 1, 5, 0, 2);
    pos := FillScans(script, pos, ncomps, 6, 63, 0, 2);
    assert script[..pos] == GeneralStart(ncomps);
    pos := FillScans(script, pos, ncomps, 1, 63, 2, 1);
    pos := FillDcScans(script, pos, ncomps, 1, 0);
    pos := FillScans(script, pos, ncomps, 1, 63, 1, 0);
    assert script[..pos] == script[..];
  }

  /** Fills exactly the entries allocated. */
  method SimpleProgression(ncomps: nat, isYCbCr: bool) returns (script: array<Scan>)
    ensures fresh(script) && script[..] == if ncomps == 3 && isYCbCr then ColourScript() else GeneralScript(ncomps)
  {
    var nscans: nat;
    if ncomps == 3 && isYCbCr {
      nscans := 10;
    } else if ncomps > MAX_COMPS_IN_SCAN {
      nscans := 6 * ncomps;
    } else {
      nscans := 2 + 4 * ncomps;
    }
    script := new Scan[nscans](i => Scan([], 0, 0, 0, 0));
    if ncomps == 3 && isYCbCr {
      FillColourScript(script);
    } else {
      FillGeneralScript(script, ncomps);
    }
  }

  /** A valid start of a progressive script, after which coefficient k of component c has been sent
      down to plane level(c, k). */
  ghost predicate Stage(s: seq<Scan>, n: nat, level: (int, int) -> int) {
    && (s != [] ==> Progressive(s)) && (forall i :: 0 <= i < |s| ==> ScanOk(s, i, n))
    && forall c, k :: 0 <= c < n && 0 <= k < DCTSIZE2 ==> Last(s, |s|, c, k) == level(c, k)
  }

  ghost function Sent(sc: Scan, level: (int, int) -> int): (r: (int, int) -> int) {
    (c, k) => if sc.Sends(c, k) then sc.al else level(c, k)
  }

  lemma ScanOkOfPrefix(s: seq<Scan>, more: seq<Scan>, i: nat, n: nat)
    requires i < |s| && ScanOk(s, i, n)
    ensures ScanOk(s + more, i, n)
  {
    forall c, k ensures Last(s + more, i, c, k) == Last(s, i, c, k) {
      PlanesOfPrefix(s, more, i, c, k);
    }
    if Progressive(s) {
      forall j | 0 <= j < |s[i].comps| ensures ComponentOk(s + more, i, s[i].comps[j]) {
        assert ComponentOk(s, i, s[i].comps[j]);
      }
    }
  }

  lemma StageNext(s: seq<Scan>, n: nat, level: (int, int) -> int, sc: Scan)
    requires Stage(s, n, level) && sc.CompsOk(n) && sc.ProgressionOk()
    requires forall j :: 0 <= j < |sc.comps| ==> sc.ss != 0 ==> level(sc.comps[j], 0) >= 0
    requires forall j, k :: 0 <= j < |sc.comps| && sc.ss <= k <= sc.se ==> sc.Continues(level(sc.comps[j], k))
    ensures Stage(s + [sc], n, Sent(sc, level))
  {
    var t := s + [sc];
    forall c, k ensures Last(t, |s|, c, k) == Last(s, |s|, c, k) {
      PlanesOfPrefix(s, [sc], |s|, c, k);
    }
    forall j | 0 <= j < |sc.comps| ensures ComponentOk(t, |s|, sc.comps[j]) {
    }
    forall i | 0 <= i < |t| ensures ScanOk(t, i, n) {
      if i < |s| {
        ScanOkOfPrefix(s, [sc], i, n);
      }
    }
  }

  /** The same for one scan of each of the first m components. */
  lemma {:induction false} StageScans(s: seq<Scan>, n: nat, level: (int, int) -> int, m: nat, ss: int, se: int, ah: int,
                                      al: int)
    returns (next: (int, int) -> int)
    requires Stage(s, n, level) && m <= n && Scan([0], ss, se, ah, al).ProgressionOk()
    requires forall c :: 0 <= c < m ==> ss != 0 ==> level(c, 0) >= 0
    requires forall c, k :: 0 <= c < m && ss <= k <= se ==> Scan([c], ss, se, ah, al).Continues(level(c, k))
    ensures Stage(s + ComponentScans(m, ss, se, ah, al), n, next)
    ensures forall c, k :: next(c, k) == if 0 <= c < m && ss <= k <= se then al else level(c, k)
  {
    if m == 0 {
      next := level;
      assert s + ComponentScans(0, ss, se, ah, al) == s;
    } else {
      var sc := Scan([m - 1], ss, se, ah, al);
      next := StageScans(s, n, level, m - 1, ss, se, ah, al);
      StageNext(s + ComponentScans(m - 1, ss, se, ah, al), n, next, sc);
      next := Sent(sc, next);
      assert s + ComponentScans(m, ss, se, ah, al) == s + ComponentScans(m - 1, ss, se, ah, al) + [sc];
    }
  }

  lemma StageDc(s: seq<Scan>, n: nat, level: (int, int) -> int, ah: int, al: int) returns (next: (int, int) -> int)
    requires Stage(s, n, level) && 1 <= n && Scan([0], 0, 0, ah, al).ProgressionOk()
    requires forall c :: 0 <= c < n ==> Scan([c], 0, 0, ah, al).Continues(level(c, 0))
    ensures Stage(s + DcScans(n, ah, al), n, next)
    ensures forall c, k :: next(c, k) == if 0 <= c < n && k == 0 then al else level(c, k)
  {
    if n <= MAX_COMPS_IN_SCAN {
      var sc := Scan(seq(n, ci => ci), 0, 0, ah, al);
      StageNext(s, n, level, sc);
      next := Sent(sc, level);
      forall c | 0 <= c < n ensures c in sc.comps {
        assert sc.comps[c] == c;
      }
    } else {
      next := StageScans(s, n, level, n, 0, 0, ah, al);
    }
  }

  lemma StageIsValid(s: seq<Scan>, n: nat, level: (int, int) -> int)
    requires Stage(s, n, level) && s != [] && forall c, k :: 0 <= c < n && 0 <= k < DCTSIZE2 ==> level(c, k) == 0
    ensures Valid(s, n) && forall c, k :: 0 <= c < n && 0 <= k < DCTSIZE2 ==> Last(s, |s|, c, k) == 0
  {
  }

  lemma GeneralStage(n: nat) returns (f: (int, int) -> int)
    requires 1 <= n
    ensures Stage(GeneralStart(n), n, f)
    ensures forall c, k :: 0 <= c < n && 0 <= k < DCTSIZE2 ==> f(c, k) == if k == 0 then 1 else 2
  {
    var s: seq<Scan> := [];
    f := StageDc(s, n, (c, k) => -1, 0, 1);
    assert s + DcScans(n, 0, 1) == DcScans(n, 0, 1);
    s := DcScans(n, 0, 1);
    f := StageScans(s, n, f, n, 1, 5, 0, 2);
    f := StageScans(s + ComponentScans(n, 1, 5, 0, 2), n, f, n, 6, 63, 0, 2);
  }

  /** The all-purpose script is accepted and sends every coefficient to its last bit. */
  lemma GeneralIsComplete(n: nat)
    requires 1 <= n
    ensures Valid(GeneralScript(n), n)
    ensures forall c, k :: 0 <= c < n && 0 <= k < DCTSIZE2 ==> Last(GeneralScript(n), |GeneralScript(n)|, c, k) == 0
  {
    var f := GeneralStage(n);
    var s := GeneralStart(n);
    f := StageScans(s, n, f, n, 1, 63, 2, 1);
    s := s + ComponentScans(n, 1, 63, 2, 1);
    f := StageDc(s, n, f, 1, 0);
    s := s + DcScans(n, 1, 0);
    f := StageScans(s, n, f, n, 1, 63, 1, 0);
    s := s + ComponentScans(n, 1, 63, 1, 0);
    StageIsValid(s, n, f);
  }

  lemma StageOne(s: seq<Scan>, level: (int, int) -> int, c: nat, ss: int, se: int, ah: int, al: int)
    returns (next: (int, int) -> int)
    requires Stage(s, 3, level) && c < 3 && Scan([c], ss, se, ah, al).ProgressionOk() && level(c, 0) >= 0
    requires forall k :: ss <= k <= se ==> Scan([c], ss, se, ah, al).Continues(level(c, k))
    ensures Stage(s + [Scan([c], ss, se, ah, al)], 3, next)
    ensures forall d, k :: next(d, k) == if d == c && ss <= k <= se then al else level(d, k)
  {
    StageNext(s, 3, level, Scan([c], ss, se, ah, al));
    next := Sent(Scan([c], ss, se, ah, al), level);
  }

  lemma StageChroma(s: seq<Scan>, level: (int, int) -> int, ss: int, se: int, ah: int, al: int)
    returns (next: (int, int) -> int)
    requires Stage(s, 3, level) && Scan([1], ss, se, ah, al).ProgressionOk() && level(1, 0) >= 0 && level(2, 0) >= 0
    requires ss > 0
    requires forall c, k :: 1 <= c <= 2 && ss <= k <= se ==> Scan([c], ss, se, ah, al).Continues(level(c, k))
    ensures Stage(s + ChromaScans(ss, se, ah, al), 3, next)
    ensures forall c, k :: next(c, k) == if 1 <= c <= 2 && ss <= k <= se then al else level(c, k)
  {
    var v, u := Scan([2], ss, se, ah, al), Scan([1], ss, se, ah, al);
    next := StageOne(s, level, 2, ss, se, ah, al);
    next := StageOne(s + [v], next, 1, ss, se, ah, al);
    assert s + [v] + [u] == s + ChromaScans(ss, se, ah, al);
  }

  lemma ColourStage() returns (f: (int, int) -> int)
    ensures Stage(ColourStart(), 3, f)
    ensures forall c, k :: 0 <= c < 3 && 0 <= k < DCTSIZE2 ==> f(c, k) == 1
  {
    var s: seq<Scan> := [];
    f := StageDc(s, 3, (c, k) => -1, 0, 1);
    assert s + DcScans(3, 0, 1) == DcScans(3, 0, 1);
    s := DcScans(3, 0, 1);
    f := StageOne(s, f, 0, 1, 5, 0, 2);
    s := s + LumaScan(1, 5, 0, 2);
    f := StageChroma(s, f, 1, 63, 0, 1);
    s := s + ChromaScans(1, 63, 0, 1);
    f := StageOne(s, f, 0, 6, 63, 0, 2);
    f := StageOne(s + LumaScan(6, 63, 0, 2), f, 0, 1, 63, 2, 1);
  }

  /** So is the script for YCbCr images. */
  lemma ColourIsComplete()
    ensures Valid(ColourScript(), 3)
    ensures forall c, k :: 0 <= c < 3 && 0 <= k < DCTSIZE2 ==> Last(ColourScript(), |ColourScript()|, c, k) == 0
  {
    var f := ColourStage();
    var s := ColourStart();
    f := StageDc(s, 3, f, 1, 0);
    s := s + DcScans(3, 1, 0);
    f := StageChroma(s, f, 1, 63, 1, 0);
    s := s + ChromaScans(1, 63, 1, 0);
    f := StageOne(s, f, 0, 1, 63, 1, 0);
    s := s + LumaScan(1, 63, 1, 0);
    StageIsValid(s, 3, f);
  }
}
