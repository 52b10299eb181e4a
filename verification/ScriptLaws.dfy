/**
 What a legal script is, said scan by scan without the state of the validator, and the entries of the
 recommended scripts.
 */
module ScriptLaws {
  import opened ScanScript

  /** Scan i sends something of coefficient k of component c. */
  predicate SendsAt(script: seq<Scan>, i: nat, c: int, k: int)
    requires i < |script|
  {
    c in script[i].comps && script[i].ss <= k <= script[i].se
  }

  /** Scan j is the latest before scan i that does. */
  predicate LatestBefore(script: seq<Scan>, i: nat, c: int, k: int, j: int)
    requires i <= |script|
  {
    0 <= j < i && SendsAt(script, j, c, k) && forall x :: j < x < i ==> !SendsAt(script, x, c, k)
  }

  /** None of the first i scans does. */
  predicate NoneBefore(script: seq<Scan>, i: nat, c: int, k: int)
    requires i <= |script|
  {
    forall j :: 0 <= j < i ==> !SendsAt(script, j, c, k)
  }

  /** Ah is zero when a coefficient is first sent; after that each scan sends the bit plane below the one
      that was sent last. */
  ghost predicate PlaneByPlane(script: seq<Scan>, i: nat, c: int, k: int)
    requires i < |script|
  {
    && (NoneBefore(script, i, c, k) ==> script[i].ah == 0)
    && forall j :: LatestBefore(script, i, c, k, j) ==>
         script[i].ah == script[j].al && script[i].al == script[i].ah - 1
  }

  /** Scan i of a progressive script: DC coefficients alone, or AC coefficients of a single component whose
      DC coefficient was sent before. */
  ghost predicate ProgressiveScan(script: seq<Scan>, i: nat)
    requires i < |script|
  {
    var s := script[i];
    && 0 <= s.ss <= s.se <= 63 && 0 <= s.ah <= 10 && 0 <= s.al <= 10
    && (s.ss == 0 ==> s.se == 0) && (s.ss > 0 ==> |s.comps| == 1)
    && forall c :: c in s.comps ==>
         && (s.ss > 0 ==> !NoneBefore(script, i, c, 0))
         && forall k :: s.ss <= k <= s.se ==> PlaneByPlane(script, i, c, k)
  }

  /** Scan i of a sequential script: everything of components not sent before. */
  predicate SequentialScan(script: seq<Scan>, i: nat)
    requires i < |script|
  {
    var s := script[i];
    && s.ss == 0 && s.se == 63 && s.ah == 0 && s.al == 0
    && forall j, c :: 0 <= j < i && c in script[j].comps ==> c !in s.comps
  }

  /** One to four of n components, in the order of the frame header. */
  predicate ComponentsInOrder(s: Scan, n: nat) {
    && 1 <= |s.comps| <= 4
    && (forall c :: c in s.comps ==> 0 <= c < n)
    && forall x, y :: 0 <= x < y < |s.comps| ==> s.comps[x] < s.comps[y]
  }

  /** Scan i may stand where it does. */
  ghost predicate LegalScan(script: seq<Scan>, i: nat, n: nat)
    requires i < |script|
  {
    && ComponentsInOrder(script[i], n)
    && if script[0].ss == 0 && script[0].se == 63 then SequentialScan(script, i) else ProgressiveScan(script, i)
  }

  /** A legal script for n components. */
  ghost predicate Legal(script: seq<Scan>, n: nat) {
    && script != [] && (forall i :: 0 <= i < |script| ==> LegalScan(script, i, n))
    && forall c :: 0 <= c < n ==> !NoneBefore(script, |script|, c, 0)
  }

  /** What the validator remembers of a coefficient: Al of the latest scan that sent it. */
  lemma {:induction false} LastIsLatest(script: seq<Scan>, i: nat, c: int, k: int)
    requires i <= |script| && forall j :: 0 <= j < i ==> script[j].al >= 0
    ensures Last(script, i, c, k) < 0 <==> NoneBefore(script, i, c, k)
    ensures forall j :: LatestBefore(script, i, c, k, j) ==> Last(script, i, c, k) == script[j].al
    ensures !NoneBefore(script, i, c, k) ==> exists j :: LatestBefore(script, i, c, k, j)
  {
    if i > 0 {
      LastIsLatest(script, i - 1, c, k);
      if SendsAt(script, i - 1, c, k) {
        assert LatestBefore(script, i, c, k, i - 1);
      } else if !NoneBefore(script, i - 1, c, k) {
        var j :| LatestBefore(script, i - 1, c, k, j);
        assert LatestBefore(script, i, c, k, j);
      }
    }
  }

  /** The first bit plane above 0 that is sent, or the one below the last. */
  lemma ContinuesIsPlaneByPlane(script: seq<Scan>, i: nat, c: int, k: int)
    requires i < |script| && forall j :: 0 <= j < i ==> script[j].al >= 0
    ensures script[i].Continues(Last(script, i, c, k)) <==> PlaneByPlane(script, i, c, k)
  {
    LastIsLatest(script, i, c, k);
  }

  lemma ComponentsAre(s: Scan, n: nat)
    ensures s.CompsOk(n) <==> ComponentsInOrder(s, n)
  {
    assert forall j :: 0 <= j < |s.comps| ==> s.comps[j] in s.comps;
  }

  lemma ProgressiveIs(script: seq<Scan>, i: nat)
    requires i < |script| && forall j :: 0 <= j < i ==> script[j].al >= 0
    ensures ProgressiveScan(script, i) <==>
              && script[i].ProgressionOk()
              && forall j :: 0 <= j < |script[i].comps| ==> ComponentOk(script, i, script[i].comps[j])
  {
    var s := script[i];
    forall c | c in s.comps
      ensures ComponentOk(script, i, c) <==>
                && (s.ss != 0 ==> !NoneBefore(script, i, c, 0))
                && forall k :: s.ss <= k <= s.se ==> PlaneByPlane(script, i, c, k)
    {
      LastIsLatest(script, i, c, 0);
      forall k ensures s.Continues(Last(script, i, c, k)) <==> PlaneByPlane(script, i, c, k) {
        ContinuesIsPlaneByPlane(script, i, c, k);
      }
    }
  }

  lemma SequentialIs(script: seq<Scan>, i: nat)
    requires i < |script| && forall j :: 0 <= j < i ==> script[j].SequentialOk()
    ensures SequentialScan(script, i) <==>
              && script[i].SequentialOk()
              && forall j :: 0 <= j < |script[i].comps| ==> Last(script, i, script[i].comps[j], 0) < 0
  {
    forall c | c in script[i].comps
      ensures Last(script, i, c, 0) < 0 <==> forall j :: 0 <= j < i ==> c !in script[j].comps
    {
      LastIsLatest(script, i, c, 0);
      assert forall j :: 0 <= j < i ==> (SendsAt(script, j, c, 0) <==> c in script[j].comps);
    }
  }

  lemma {:induction false} ScansAre(script: seq<Scan>, i: nat, n: nat)
    requires 0 < i <= |script|
    ensures (forall j :: 0 <= j < i ==> ScanOk(script, j, n)) <==> (forall j :: 0 <= j < i ==> LegalScan(script, j, n))
    ensures (forall j :: 0 <= j < i ==> ScanOk(script, j, n)) ==>
              forall j :: 0 <= j < i ==> script[j].al >= 0 && (!Progressive(script) ==> script[j].SequentialOk())
  {
    if i > 1 {
      ScansAre(script, i - 1, n);
    }
    if forall j :: 0 <= j < i - 1 ==> ScanOk(script, j, n) {
      ScanIs(script, i - 1, n);
    }
  }

  lemma ScanIs(script: seq<Scan>, i: nat, n: nat)
    requires i < |script|
    requires forall j :: 0 <= j < i ==> script[j].al >= 0 && (!Progressive(script) ==> script[j].SequentialOk())
    ensures ScanOk(script, i, n) <==> LegalScan(script, i, n)
  {
    ComponentsAre(script[i], n);
    if Progressive(script) {
      ProgressiveIs(script, i);
    } else {
      SequentialIs(script, i);
    }
  }

  /** The validator accepts exactly the legal scripts. */
  lemma ValidIsLegal(script: seq<Scan>, n: nat)
    ensures Valid(script, n) <==> Legal(script, n)
  {
    if script != [] {
      ScansAre(script, |script|, n);
      if forall i :: 0 <= i < |script| ==> ScanOk(script, i, n) {
        forall c | 0 <= c < n
          ensures Last(script, |script|, c, 0) >= 0 <==> !NoneBefore(script, |script|, c, 0)
        {
          LastIsLatest(script, |script|, c, 0);
        }
      }
    }
  }

  // ----- the recommended scripts -----

  /** The ten scans for YCbCr images. */
  lemma ColourScans()
    ensures ColourScript() ==
            [Scan([0, 1, 2], 0, 0, 0, 1),
             Scan([0], 1, 5, 0, 2), Scan([2], 1, 63, 0, 1), Scan([1], 1, 63, 0, 1), Scan([0], 6, 63, 0, 2),
             Scan([0], 1, 63, 2, 1),
             Scan([0, 1, 2], 0, 0, 1, 0),
             Scan([2], 1, 63, 1, 0), Scan([1], 1, 63, 1, 0), Scan([0], 1, 63, 1, 0)]
  {
    assert seq(3, ci => ci) == [0, 1, 2];
  }

  /** Six groups of scans for other images: DC, AC in two parts, and then one more bit plane of AC, DC
      and AC. The DC scans are interleaved if there are at most four components. */
  lemma GeneralScans(n: nat, c: nat)
    requires c < n
    ensures var s, d := GeneralScript(n), if n <= 4 then 1 else n;
            && |s| == (if n <= 4 then 2 + 4 * n else 6 * n) == 2 * d + 4 * n
            && s[d + c] == Scan([c], 1, 5, 0, 2) && s[d + n + c] == Scan([c], 6, 63, 0, 2)
            && s[d + 2 * n + c] == Scan([c], 1, 63, 2, 1) && s[2 * d + 3 * n + c] == Scan([c], 1, 63, 1, 0)
            && (if n <= 4 then
                  && s[0].(comps := []) == Scan([], 0, 0, 0, 1) && s[1 + 3 * n].(comps := []) == Scan([], 0, 0, 1, 0)
                  && |s[0].comps| == |s[1 + 3 * n].comps| == n && s[0].comps[c] == s[1 + 3 * n].comps[c] == c
                else s[c] == Scan([c], 0, 0, 0, 1) && s[4 * n + c] == Scan([c], 0, 0, 1, 0))
  {
  }
}
