/**
 The sequence of passes over an image: which scans are gathered and written, in which order, and when
 the headers are written.
 */
module Passes {
  import opened ScanScript

  datatype PassType = MainPass | HuffOptPass | OutputPass

  /** What a pass does: statistics of a scan, or one of the parts of the file. */
  datatype Action = Gather(scan: int) | FrameHeader | ScanHeader(scan: int) | Output(scan: int)

  /** A refinement of DC coefficients needs no Huffman table. */
  predicate DcRefinement(s: Scan) {
    s.ss == 0 && s.ah != 0
  }

  // ----- what is to be done -----

  /** Scan k is gathered; first says that image data comes in during the first pass. */
  predicate Gathers(scans: seq<Scan>, optimize: bool, first: bool, k: nat)
    requires k < |scans|
  {
    optimize && ((first && k == 0) || !DcRefinement(scans[k]))
  }

  function Written(k: nat): (a: seq<Action>) {
    if k == 0 then [FrameHeader, ScanHeader(k), Output(k)] else [ScanHeader(k), Output(k)]
  }

  /** The actions of scan k come after those of the scans before it. */
  function After(b: seq<Action>, gathers: bool, k: nat): (a: seq<Action>) {
    b + (if gathers then [Gather(k)] else []) + Written(k)
  }

  /** The actions for the first n scans. */
  function Actions(scans: seq<Scan>, optimize: bool, first: bool, n: nat): (a: seq<Action>)
    requires n <= |scans|
  {
    if n == 0 then []
    else
      After(Actions(scans, optimize, first, n - 1), Gathers(scans, optimize, first, n - 1), n - 1)
  }

  function OutputsOf(a: seq<Action>): (r: seq<int>) {
    if a == [] then []
    else OutputsOf(a[..|a| - 1]) + if a[|a| - 1].Output? then [a[|a| - 1].scan] else []
  }

  lemma OutputsOfMore(a: seq<Action>, x: Action)
    ensures OutputsOf(a + [x]) == OutputsOf(a) + if x.Output? then [x.scan] else []
  {
    assert (a + [x])[..|a|] == a;
  }

  lemma OutputsOfWritten(a: seq<Action>, k: nat)
    ensures OutputsOf(a + Written(k)) == OutputsOf(a) + [k]
  {
    var b := if k == 0 then a + [FrameHeader] else a;
    if k == 0 {
      OutputsOfMore(a, FrameHeader);
    }
    OutputsOfMore(b, ScanHeader(k));
    OutputsOfMore(b + [ScanHeader(k)], Output(k));
    assert a + Written(k) == b + [ScanHeader(k)] + [Output(k)];
  }

  lemma OutputsOfGather(a: seq<Action>, gather: bool, k: nat)
    ensures OutputsOf(a + if gather then [Gather(k)] else []) == OutputsOf(a)
  {
    OutputsOfMore(a, Gather(k));
    assert a + [] == a;
  }

  /** The scans are written once each, in order. */
  lemma {:induction false} OutputsInOrder(scans: seq<Scan>, optimize: bool, first: bool, n: nat)
    requires n <= |scans|
    ensures var o := OutputsOf(Actions(scans, optimize, first, n)); |o| == n && forall k :: 0 <= k < n ==> o[k] == k
  {
    if n > 0 {
      OutputsInOrder(scans, optimize, first, n - 1);
      var a, gather := Actions(scans, optimize, first, n - 1), Gathers(scans, optimize, first, n - 1);
      OutputsOfGather(a, gather, n - 1);
      OutputsOfWritten(a + (if gather then [Gather(n - 1)] else []), n - 1);
    }
  }

  /** Where the frame header is written. */
  function FrameHeaderAt(scans: seq<Scan>, optimize: bool, first: bool): (i: nat)
    requires scans != []
  {
    if Gathers(scans, optimize, first, 0) then 1 else 0
  }

  /** The frame header is written once, before the first scan header. */
  lemma {:induction false} FrameHeaderOnce(scans: seq<Scan>, optimize: bool, first: bool, n: nat)
    requires 0 < n <= |scans|
    ensures var a, h := Actions(scans, optimize, first, n), FrameHeaderAt(scans, optimize, first);
            h < |a| && forall i :: 0 <= i < |a| ==> (a[i] == FrameHeader <==> i == h) && (a[i].ScanHeader? ==> i > h)
  {
    if n > 1 {
      FrameHeaderOnce(scans, optimize, first, n - 1);
    }
  }

  /** Where the statistics are gathered that the output at i needs. */
  predicate GatheredAt(a: seq<Action>, i: nat, j: nat)
    requires i < |a|
  {
    j < i && a[i].Output? && a[j] == Gather(a[i].scan) && forall x :: j < x < i ==> !a[x].Output?
  }

  /** The output at i, which is for scan k, follows its scan header and the statistics it needs. */
  ghost predicate Prepared(a: seq<Action>, i: nat, k: int, gathered: bool)
    requires i < |a|
  {
    && i > 0 && a[i - 1] == ScanHeader(k)
    && (gathered ==> i > 1 && (GatheredAt(a, i, i - 2) || (k == 0 && i > 2 && GatheredAt(a, i, i - 3))))
    && (!gathered ==> Gather(k) !in a)
  }

  lemma {:induction false} OutputPrepared(scans: seq<Scan>, optimize: bool, first: bool, n: nat, i: nat)
    requires n <= |scans| && i < |Actions(scans, optimize, first, n)| && Actions(scans, optimize, first, n)[i].Output?
    ensures var a := Actions(scans, optimize, first, n);
            0 <= a[i].scan < n && Prepared(a, i, a[i].scan, Gathers(scans, optimize, first, a[i].scan))
  {
    var b, gathers := Actions(scans, optimize, first, n - 1), Gathers(scans, optimize, first, n - 1);
    NoStrangeGathers(scans, optimize, first, n - 1);
    if i < |b| {
      OutputPrepared(scans, optimize, first, n - 1, i);
      EarlierPrepared(b, gathers, n - 1, i, Gathers(scans, optimize, first, b[i].scan));
    } else {
      LastPrepared(b, gathers, n - 1, i);
    }
  }

  lemma LastPrepared(b: seq<Action>, gathers: bool, k: nat, i: nat)
    requires Gather(k) !in b && |b| <= i < |After(b, gathers, k)| && After(b, gathers, k)[i].Output?
    ensures var a := After(b, gathers, k); a[i].scan == k && Prepared(a, i, k, gathers)
  {
  }

  lemma EarlierPrepared(b: seq<Action>, gathers: bool, k: nat, i: nat, gathered: bool)
    requires i < |b| && b[i].Output? && b[i].scan != k && Prepared(b, i, b[i].scan, gathered)
    ensures Prepared(After(b, gathers, k), i, b[i].scan, gathered)
  {
  }

  /** Each output follows its own scan header, with nothing written in between. When optimizing, its
      statistics are gathered first if it sends AC coefficients or a first bit plane, and also if the
      image data comes in with it; otherwise nothing is gathered. */
  lemma OutputsPrepared(scans: seq<Scan>, optimize: bool, first: bool, n: nat, i: nat)
    requires n <= |scans| && i < |Actions(scans, optimize, first, n)| && Actions(scans, optimize, first, n)[i].Output?
    ensures var a := Actions(scans, optimize, first, n);
            var k := a[i].scan;
            && 0 <= k < n
            && Prepared(a, i, k, optimize && (scans[k].ss != 0 || scans[k].ah == 0 || (first && k == 0)))
  {
    OutputPrepared(scans, optimize, first, n, i);
  }

  /** What leads up to an output. */
  predicate LeadsUp(x: Action, next: Action) {
    match x
    case Gather(k) => next == ScanHeader(k) || (k == 0 && next == FrameHeader)
    case FrameHeader => next == ScanHeader(0)
    case ScanHeader(k) => next == Output(k)
    case Output(_) => true
  }

  /** Nothing is gathered or begun in vain: statistics are followed by the headers of their scan, and a
      scan header by its scan. */
  lemma {:induction false} NothingElse(scans: seq<Scan>, optimize: bool, first: bool, n: nat, i: nat)
    requires n <= |scans| && i < |Actions(scans, optimize, first, n)|
    ensures var a := Actions(scans, optimize, first, n);
            a[i].Output? || (i + 1 < |a| && LeadsUp(a[i], a[i + 1]))
  {
    if i < |Actions(scans, optimize, first, n - 1)| {
      NothingElse(scans, optimize, first, n - 1, i);
    }
  }

  lemma {:induction false} NoStrangeGathers(scans: seq<Scan>, optimize: bool, first: bool, n: nat)
    requires n <= |scans|
    ensures forall k: int :: Gather(k) in Actions(scans, optimize, first, n) ==>
              0 <= k < n && Gathers(scans, optimize, first, k)
  {
    if n > 0 {
      NoStrangeGathers(scans, optimize, first, n - 1);
    }
  }

  // ----- the controller -----

  class MasterControl {
    const scans: seq<Scan>
    const optimize: bool
    var passType: PassType
    var passNumber: nat
    var scanNumber: nat
    var totalPasses: nat
    var isLastPass: bool
    var callPassStartup: bool
    var selected: int        // the scan that the parameters of the components were set up for
    var gathering: bool      // the mode of the entropy encoder
    ghost var log: seq<Action>

    /** transcode: the coefficients are there already. */
    constructor (scans: seq<Scan>, optimize: bool, transcode: bool)
      requires scans != []
      ensures this.scans == scans && this.optimize == optimize && !isLastPass && log == []
      ensures Ready(!transcode, 0) && (passType == MainPass <==> !transcode)
    {
      this.scans, this.optimize := scans, optimize;
      passType := if !transcode then MainPass else if optimize then HuffOptPass else OutputPass;
      scanNumber, passNumber := 0, 0;
      totalPasses := if optimize then |scans| * 2 else |scans|;
      isLastPass, callPassStartup, selected, gathering := false, false, -1, false;
      log := [];
    }

    /** Between passes: k scans are written. */
    ghost predicate Ready(first: bool, k: nat)
      reads this
    {
      && k == scanNumber < |scans| && totalPasses == (if optimize then 2 * |scans| else |scans|)
      && passNumber == (if optimize then 2 * k + (if passType == OutputPass then 1 else 0) else k)
      && (passType == MainPass ==> first && k == 0)
      && (passType == HuffOptPass ==> optimize && !(first && k == 0))
      && (passType == OutputPass && !optimize ==> !(first && k == 0))
      && (passType == OutputPass && optimize ==> selected == k && Gathers(scans, optimize, first, k))
      && log == Actions(scans, optimize, first, k) + (if passType == OutputPass && optimize then [Gather(k)] else [])
    }

    method SelectScan()
      requires scanNumber < |scans|
      modifies `selected
      ensures selected == scanNumber
    {
      selected := scanNumber;
    }

    method WriteHeaders(frame: bool)
      modifies `log
      ensures log == old(log) + (if frame then [FrameHeader] else []) + [ScanHeader(selected)]
    {
      if frame {
        log := log + [FrameHeader];
      }
      log := log + [ScanHeader(selected)];
    }

    /** In a pass: what of scan k is done already. */
    ghost predicate InPass(first: bool, k: nat)
      reads this
    {
      && k == scanNumber < |scans| && selected == k && totalPasses == (if optimize then 2 * |scans| else |scans|)
      && (passType == MainPass ==> first && k == 0 && gathering == optimize && callPassStartup == !optimize)
      && (passType == HuffOptPass ==> optimize && gathering && !callPassStartup && !(first && k == 0))
      && (passType == OutputPass ==> !gathering && !callPassStartup && (!optimize ==> !(first && k == 0)))
      && passNumber == (if optimize then 2 * k + (if passType == OutputPass then 1 else 0) else k)
      && isLastPass == (passNumber == totalPasses - 1)
      && (gathering ==> Gathers(scans, optimize, first, k))
      && log == Actions(scans, optimize, first, k) +
                (if passType != OutputPass then []
                 else
                   (if Gathers(scans, optimize, first, k) then [Gather(k)] else []) +
                   (if k == 0 then [FrameHeader] else []) + [ScanHeader(k)])
    }

    method PrepareForPass(ghost first: bool)
      requires Ready(first, scanNumber)
      modifies this
      ensures InPass(first, old(scanNumber)) && passNumber >= old(passNumber) && totalPasses == old(totalPasses)
      ensures old(passType) == MainPass ==> passType == MainPass
    {
      match passType {
        case MainPass =>
          SelectScan();
          gathering := optimize;
          callPassStartup := !optimize;
        case HuffOptPass =>
          SelectScan();
          if scans[selected].ss != 0 || scans[selected].ah == 0 {
            gathering, callPassStartup := true, false;
          } else {
            // a refinement of DC coefficients needs no table, and no optimization
            passType := OutputPass;
            passNumber := passNumber + 1;
            PrepareForOutput();
          }
        case OutputPass =>
          PrepareForOutput();
      }
      isLastPass := passNumber == totalPasses - 1;
    }

    method PrepareForOutput()
      requires scanNumber < |scans| && (optimize ==> selected == scanNumber)
      modifies `selected, `gathering, `callPassStartup, `log
      ensures selected == scanNumber && !gathering && !callPassStartup
      ensures log == old(log) + (if scanNumber == 0 then [FrameHeader] else []) + [ScanHeader(scanNumber)]
    {
      if !optimize {
        SelectScan();
      }
      gathering := false;
      WriteHeaders(scanNumber == 0);
      callPassStartup := false;
    }

    /** All data of a pass goes through the entropy encoder; headers come first if they are still due. */
    method RunPass(ghost first: bool)
      requires InPass(first, scanNumber)
      modifies `callPassStartup, `log
      ensures log == Actions(scans, optimize, first, scanNumber) +
                     (if Gathers(scans, optimize, first, scanNumber) then [Gather(scanNumber)] else []) +
                     (if gathering then [] else Written(scanNumber))
    {
      if callPassStartup {
        callPassStartup := false;
        WriteHeaders(true);
      }
      log := log + [if gathering then Gather(selected) else Output(selected)];
    }

    method FinishPass(ghost first: bool)
      requires scanNumber < |scans| && selected == scanNumber
      requires totalPasses == (if optimize then 2 * |scans| else |scans|)
      requires passNumber
            == (if optimize then 2 * scanNumber + (if passType == OutputPass then 1 else 0) else scanNumber)
      requires isLastPass == (passNumber == totalPasses - 1)
      requires passType == MainPass ==> first && scanNumber == 0 && gathering == optimize
      requires passType == HuffOptPass ==> optimize && gathering && !(first && scanNumber == 0)
      requires passType == OutputPass ==> !gathering
      requires gathering ==> Gathers(scans, optimize, first, scanNumber)
      requires log == Actions(scans, optimize, first, scanNumber) +
                      (if Gathers(scans, optimize, first, scanNumber) then [Gather(scanNumber)] else []) +
                      (if gathering then [] else Written(scanNumber))
      modifies `passType, `scanNumber, `passNumber
      ensures passNumber == old(passNumber) + 1
      ensures if isLastPass then log == Actions(scans, optimize, first, |scans|) else Ready(first, scanNumber)
    {
      match passType {
        case MainPass =>
          passType := OutputPass;
          if !optimize {
            scanNumber := scanNumber + 1;
          }
        case HuffOptPass =>
          passType := OutputPass;
        case OutputPass =>
          if optimize {
            passType := HuffOptPass;
          }
          scanNumber := scanNumber + 1;
      }
      passNumber := passNumber + 1;
    }

    /** The passes after the first, or all of them when transcoding. */
    method RemainingPasses(ghost first: bool)
      requires if isLastPass then log == Actions(scans, optimize, first, |scans|) else Ready(first, scanNumber)
      modifies this
      ensures log == Actions(scans, optimize, first, |scans|)
    {
      while !isLastPass
        invariant if isLastPass then log == Actions(scans, optimize, first, |scans|) else Ready(first, scanNumber)
        decreases !isLastPass, totalPasses - passNumber
      {
        PrepareForPass(first);
        RunPass(first);
        FinishPass(first);
      }
    }
  }

  /** An image is compressed: all scans are gathered, if that is wanted, and written. */
  method Compress(scans: seq<Scan>, optimize: bool, transcode: bool) returns (m: MasterControl)
    requires scans != []
    ensures m.log == Actions(scans, optimize, !transcode, |scans|)
  {
    m := new MasterControl(scans, optimize, transcode);
    if !transcode {
      m.PrepareForPass(true);
      m.RunPass(true);
      m.FinishPass(true);
    }
    m.RemainingPasses(!transcode);
  }
}
