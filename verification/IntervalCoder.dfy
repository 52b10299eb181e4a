/**
 The reference model of adaptive binary arithmetic coding: exact integers, no registers, no
 carries, no bytes. A coder is the half-open interval [low, low + a) at scale 2^n together with
 its statistics. The encoder and the decoder are both proved against it.
 */
module IntervalCoder {
  import opened AriTable
  import opened Numbers

  /** A statistics bin: the more probable symbol and the index of the estimation state. */
  datatype Stat = Stat(mps: Bit, index: Index)

  // Sixteen DC areas of 64 bins, sixteen AC areas of 256, and the fixed bin.
  const DC_STAT_BINS := 64
  const AC_STAT_BINS := 256
  const NUM_ARITH_TBLS := 16
  const AC_BASE := NUM_ARITH_TBLS * DC_STAT_BINS
  const FIXED_BIN := AC_BASE + NUM_ARITH_TBLS * AC_STAT_BINS
  const BINS := FIXED_BIN + 1

  type Context = c: nat | c < BINS
  type Stats = s: seq<Stat> | |s| == BINS witness seq(BINS, i => Stat(0, 0))
  type Table = t: nat | t < NUM_ARITH_TBLS

  type DcIndex = i: nat | i < DC_STAT_BINS
  type AcIndex = i: nat | i < AC_STAT_BINS

  function DcBin(tbl: Table, i: DcIndex): (ctx: Context) {
    DC_STAT_BINS * tbl + i
  }

  function AcBin(tbl: Table, i: AcIndex): (ctx: Context) {
    AC_BASE + AC_STAT_BINS * tbl + i
  }

  /** Every area zeroed; the fixed bin in the state that never moves. */
  function InitStats(): (s: Stats) {
    seq(BINS, i => Stat(0, if i == FIXED_BIN then FIXED_STATE else 0))
  }

  /** One binary decision and the bin it is coded with. */
  datatype Decision = Decision(ctx: Context, bit: Bit)

  /** Decisions still to be coded, first one outermost. */
  datatype Plan = Done | Next(d: Decision, rest: Plan)

  /** Decisions already coded, last one outermost. */
  datatype History = Start | Then(past: History, d: Decision)

  /** The history once all of p has been coded. */
  function Extend(h: History, p: Plan): (r: History)
    decreases p
  {
    match p
    case Done => h
    case Next(d, rest) => Extend(Then(h, d), rest)
  }

  /** The bin after a decision; rest is what the more probable symbol kept of the interval. */
  function Adapt(st: Stat, lps: bool, rest: int): (st': Stat) {
    var row := AriRow(st.index);
    if lps then Stat(if row.switchMps == 1 then 1 - st.mps else st.mps, row.nextLps)
    else if rest >= 0x8000 then st
    else Stat(st.mps, row.nextMps)
  }

  datatype Coder = Coder(low: nat, a: nat, n: nat, stats: Stats) {

    predicate Normal() {
      0x8000 <= a <= 0x1_0000
    }

    /** Divide the interval: upper part to the less probable symbol unless that is the larger. */
    function Split(d: Decision): (s: Coder)
      requires Normal()
      ensures 1 <= s.a <= 0x1_0000
    {
      var st := stats[d.ctx];
      var qe := AriRow(st.index).qe;
      var rest := a - qe;
      var lps := d.bit != st.mps;
      var stats' := stats[d.ctx := Adapt(st, lps, rest)];
      if lps == (rest >= qe) then Coder(low + rest, qe, n, stats') else Coder(low, rest, n, stats')
    }

    function Double(): (s: Coder) {
      Coder(2 * low, 2 * a, n + 1, stats)
    }

    function Renormalize(): (s: Coder)
      requires 1 <= a <= 0x1_0000
      ensures s.Normal() && s.n >= n
      decreases 0x1_0000 - a
    {
      if a >= 0x8000 then this else Double().Renormalize()
    }

    function Step(d: Decision): (s: Coder)
      requires Normal()
      ensures s.Normal() && s.n >= n
    {
      Split(d).Renormalize()
    }

    /** The fraction p / 2^m lies in the interval. */
    predicate Contains(p: nat, m: nat) {
      n <= m && Shl(low, m - n) <= p < Shl(low + a, m - n)
    }
  }

  function InitCoder(): (s: Coder)
    ensures s.Normal()
  {
    Coder(0, 0x1_0000, 0, InitStats())
  }

  /** The reference coder after coding h from the start of a segment. */
  function Run(h: History): (s: Coder)
    ensures s.Normal()
  {
    match h
    case Start => InitCoder()
    case Then(past, d) => Run(past).Step(d)
  }

  // ----- the fixed bin -----

  lemma AdaptFixed(lps: bool, rest: int)
    ensures Adapt(Stat(0, FIXED_STATE), lps, rest) == Stat(0, FIXED_STATE)
  {
    RowFromIsTableRow(FIXED_STATE, 0);
  }

  lemma {:induction false} RenormalizeKeepsStats(s: Coder)
    requires 1 <= s.a <= 0x1_0000
    ensures s.Renormalize().stats == s.stats
    decreases 0x1_0000 - s.a
  {
    if s.a < 0x8000 {
      RenormalizeKeepsStats(s.Double());
    }
  }

  /** Whatever is coded with it, the fixed bin keeps its state. */
  lemma {:induction false} FixedBinStays(h: History)
    ensures Run(h).stats[FIXED_BIN] == Stat(0, FIXED_STATE)
  {
    if h.Then? {
      FixedBinStays(h.past);
      var s := Run(h.past);
      AdaptFixed(h.d.bit != 0, s.a - AriRow(FIXED_STATE).qe);
      RenormalizeKeepsStats(s.Split(h.d));
    }
  }

  // ----- nesting: later intervals lie inside earlier ones -----

  lemma DoubleContains(s: Coder, p: nat, m: nat)
    requires s.Double().Contains(p, m)
    ensures s.Contains(p, m)
  {
    var k := m - s.n - 1;
    ShlAdd(s.low, s.low, k);
    ShlAdd(s.low + s.a, s.low + s.a, k);
    assert Shl(2 * s.low + 2 * s.a, k) == 2 * Shl(s.low + s.a, k);
  }

  lemma {:induction false} RenormalizeContains(s: Coder, p: nat, m: nat)
    requires 1 <= s.a <= 0x1_0000 && s.Renormalize().Contains(p, m)
    ensures s.Contains(p, m)
    decreases 0x1_0000 - s.a
  {
    if s.a < 0x8000 {
      RenormalizeContains(s.Double(), p, m);
      DoubleContains(s, p, m);
    }
  }

  lemma StepContains(s: Coder, d: Decision, p: nat, m: nat)
    requires s.Normal() && s.Step(d).Contains(p, m)
    ensures s.Split(d).Contains(p, m) && s.Contains(p, m)
  {
    var t := s.Split(d);
    RenormalizeContains(t, p, m);
    ShlOrder(s.low, t.low, m - s.n);
    ShlOrder(t.low + t.a, s.low + s.a, m - s.n);
  }

  /** The byte string u, read with zeros after its end, is a code for the interval of s. */
  ghost predicate Spells(u: seq<Byte>, s: Coder) {
    forall k: nat :: 8 * k >= s.n + 32 ==> s.Contains(PadVal(u, k), 8 * k - 16)
  }
}
