/**
 What adaptation does to a statistics bin, apart from the coders that rely on it: the bytes of the
 code, and the law that coding a symbol never makes it less likely.
 */
module ArithAdaptation {
  import opened AriTable
  import opened Numbers
  import opened IntervalCoder
  import opened ArithDecoding

  // ----- bins as bytes -----

  /** The byte of a bin: the more probable symbol in its first bit, the index in the others. */
  function StatByte(st: Stat): (b: nat) {
    0x80 * st.mps + st.index
  }

  /** (sv & 0x80) ^ next */
  function Exchanged(sv: nat, next: nat): (b: nat) {
    if sv < 0x80 then next else if next < 0x80 then next + 0x80 else next - 0x80
  }

  /** Estimate_after_LPS and Estimate_after_MPS, with the two low bytes of the packed table entry. */
  lemma AdaptedByte(st: Stat, lps: bool, rest: int)
    ensures var nl, nm := AriTab(st.index) % 0x100, AriTab(st.index) / 0x100 % 0x100;
            && (lps ==> StatByte(Adapt(st, lps, rest)) == Exchanged(StatByte(st), nl))
            && (!lps && rest < 0x8000 ==> StatByte(Adapt(st, lps, rest)) == Exchanged(StatByte(st), nm))
            && (!lps && rest >= 0x8000 ==> Adapt(st, lps, rest) == st)
  {
    AriTabUnpacks(st.index);
  }

  // ----- the law of adaptation -----

  function Qe(st: Stat): (qe: QeValue) {
    AriRow(st.index).qe
  }

  /** After a less probable symbol the symbols are switched or the estimate grows; after a more probable
      one it does not grow. The state that never moves is not reached. */
  predicate StateAdapts(i: Index) {
    var row := TableRow(i);
    && row.nextLps < FIXED_STATE && row.nextMps < FIXED_STATE
    && (row.switchMps == 1 || TableRow(row.nextLps).qe > row.qe)
    && TableRow(row.nextMps).qe <= row.qe
  }

  lemma StatesFrom0(i: Index)
    requires 0 <= i < 8
    ensures StateAdapts(i)
  {
    assert StateAdapts(0) && StateAdapts(1) && StateAdapts(2) && StateAdapts(3)
           && StateAdapts(4) && StateAdapts(5) && StateAdapts(6) && StateAdapts(7);
  }

  lemma StatesFrom8(i: Index)
    requires 8 <= i < 16
    ensures StateAdapts(i)
  {
    assert StateAdapts(8) && StateAdapts(9) && StateAdapts(10) && StateAdapts(11)
           && StateAdapts(12) && StateAdapts(13) && StateAdapts(14) && StateAdapts(15);
  }

  lemma StatesFrom16(i: Index)
    requires 16 <= i < 24
    ensures StateAdapts(i)
  {
    assert StateAdapts(16) && StateAdapts(17) && StateAdapts(18) && StateAdapts(19)
           && StateAdapts(20) && StateAdapts(21) && StateAdapts(22) && StateAdapts(23);
  }

  lemma StatesFrom24(i: Index)
    requires 24 <= i < 32
    ensures StateAdapts(i)
  {
    assert StateAdapts(24) && StateAdapts(25) && StateAdapts(26) && StateAdapts(27)
           && StateAdapts(28) && StateAdapts(29) && StateAdapts(30) && StateAdapts(31);
  }

  lemma StatesFrom32(i: Index)
    requires 32 <= i < 40
    ensures StateAdapts(i)
  {
    assert StateAdapts(32) && StateAdapts(33) && StateAdapts(34) && StateAdapts(35)
           && StateAdapts(36) && StateAdapts(37) && StateAdapts(38) && StateAdapts(39);
  }

  lemma StatesFrom40(i: Index)
    requires 40 <= i < 48
    ensures StateAdapts(i)
  {
    assert StateAdapts(40) && StateAdapts(41) && StateAdapts(42) && StateAdapts(43)
           && StateAdapts(44) && StateAdapts(45) && StateAdapts(46) && StateAdapts(47);
  }

  lemma StatesFrom48(i: Index)
    requires 48 <= i < 56
    ensures StateAdapts(i)
  {
    assert StateAdapts(48) && StateAdapts(49) && StateAdapts(50) && StateAdapts(51)
           && StateAdapts(52) && StateAdapts(53) && StateAdapts(54) && StateAdapts(55);
  }

  lemma StatesFrom56(i: Index)
    requires 56 <= i < 64
    ensures StateAdapts(i)
  {
    assert StateAdapts(56) && StateAdapts(57) && StateAdapts(58) && StateAdapts(59)
           && StateAdapts(60) && StateAdapts(61) && StateAdapts(62) && StateAdapts(63);
  }

  lemma StatesFrom64(i: Index)
    requires 64 <= i < 72
    ensures StateAdapts(i)
  {
    assert StateAdapts(64) && StateAdapts(65) && StateAdapts(66) && StateAdapts(67)
           && StateAdapts(68) && StateAdapts(69) && StateAdapts(70) && StateAdapts(71);
  }

  lemma StatesFrom72(i: Index)
    requires 72 <= i < 80
    ensures StateAdapts(i)
  {
    assert StateAdapts(72) && StateAdapts(73) && StateAdapts(74) && StateAdapts(75)
           && StateAdapts(76) && StateAdapts(77) && StateAdapts(78) && StateAdapts(79);
  }

  lemma StatesFrom80(i: Index)
    requires 80 <= i < 88
    ensures StateAdapts(i)
  {
    assert StateAdapts(80) && StateAdapts(81) && StateAdapts(82) && StateAdapts(83)
           && StateAdapts(84) && StateAdapts(85) && StateAdapts(86) && StateAdapts(87);
  }

  lemma StatesFrom88(i: Index)
    requires 88 <= i < 96
    ensures StateAdapts(i)
  {
    assert StateAdapts(88) && StateAdapts(89) && StateAdapts(90) && StateAdapts(91)
           && StateAdapts(92) && StateAdapts(93) && StateAdapts(94) && StateAdapts(95);
  }

  lemma StatesFrom96(i: Index)
    requires 96 <= i < 104
    ensures StateAdapts(i)
  {
    assert StateAdapts(96) && StateAdapts(97) && StateAdapts(98) && StateAdapts(99)
           && StateAdapts(100) && StateAdapts(101) && StateAdapts(102) && StateAdapts(103);
  }

  lemma StatesFrom104(i: Index)
    requires 104 <= i < 112
    ensures StateAdapts(i)
  {
    assert StateAdapts(104) && StateAdapts(105) && StateAdapts(106) && StateAdapts(107)
           && StateAdapts(108) && StateAdapts(109) && StateAdapts(110) && StateAdapts(111);
  }

  lemma StatesFrom112(i: Index)
    requires 112 <= i < 113
    ensures StateAdapts(i)
  {
    assert StateAdapts(112);
  }

  lemma AllStatesAdapt(i: Index)
    requires i < FIXED_STATE
    ensures StateAdapts(i)
  {
    if i < 8 {
      StatesFrom0(i);
    } else if i < 16 {
      StatesFrom8(i);
    } else if i < 24 {
      StatesFrom16(i);
    } else if i < 32 {
      StatesFrom24(i);
    } else if i < 40 {
      StatesFrom32(i);
    } else if i < 48 {
      StatesFrom40(i);
    } else if i < 56 {
      StatesFrom48(i);
    } else if i < 64 {
      StatesFrom56(i);
    } else if i < 72 {
      StatesFrom64(i);
    } else if i < 80 {
      StatesFrom72(i);
    } else if i < 88 {
      StatesFrom80(i);
    } else if i < 96 {
      StatesFrom88(i);
    } else if i < 104 {
      StatesFrom96(i);
    } else if i < 112 {
      StatesFrom104(i);
    } else {
      StatesFrom112(i);
    }
  }

  /** Coding bit with the bin was does not make it less likely. */
  predicate NoLessLikely(bit: Bit, was: Stat, now: Stat) {
    if bit == was.mps then now.mps == was.mps && Qe(now) <= Qe(was)
    else now.mps == bit || (now.mps == was.mps && Qe(now) > Qe(was))
  }

  lemma AdaptedNoLessLikely(bit: Bit, st: Stat, rest: int)
    requires st.index < FIXED_STATE
    ensures var now := Adapt(st, bit != st.mps, rest); now.index < FIXED_STATE && NoLessLikely(bit, st, now)
  {
    AllStatesAdapt(st.index);
    var row := TableRow(st.index);
    RowFromIsTableRow(st.index, 0);
    RowFromIsTableRow(row.nextLps, 0);
    RowFromIsTableRow(row.nextMps, 0);
  }

  /** A decision moves its own bin, and that one as it should. */
  lemma EncodedNoLessLikely(s: Coder, d: Decision)
    requires s.Normal() && s.stats[d.ctx].index < FIXED_STATE
    ensures var t := s.Step(d);
            && t.stats[d.ctx].index < FIXED_STATE && NoLessLikely(d.bit, s.stats[d.ctx], t.stats[d.ctx])
            && forall ctx: Context :: ctx != d.ctx ==> t.stats[ctx] == s.stats[ctx]
  {
    var st := s.stats[d.ctx];
    AdaptedNoLessLikely(d.bit, st, s.a - Qe(st));
    RenormalizeKeepsStats(s.Split(d));
  }

  lemma DecodedNoLessLikely(src: seq<Byte>, d: Decoder, ctx: Context)
    requires d.Live() && d.stats[ctx].index < FIXED_STATE
    ensures var (bit, e) := d.Decode(src, ctx);
            && e.stats[ctx].index < FIXED_STATE && NoLessLikely(bit, d.stats[ctx], e.stats[ctx])
            && forall c: Context :: c != ctx ==> e.stats[c] == d.stats[c]
  {
    NormalizeKeepsStats(src, d);
    var st := d.stats[ctx];
    var rest := d.Normalize(src).a - Qe(st);
    AdaptedNoLessLikely(0, st, rest);
    AdaptedNoLessLikely(1, st, rest);
    AdaptedNoLessLikely(0, st, 0);
    AdaptedNoLessLikely(1, st, 0);
  }

  /** In a fresh bin zero is the more probable symbol, and the first decision that is one switches it. */
  lemma FreshBinSwitches(ctx: Context)
    requires ctx != FIXED_BIN
    ensures InitStats()[ctx] == Stat(0, 0) && InitCoder().Step(Decision(ctx, 1)).stats[ctx] == Stat(1, 1)
  {
    RowFromIsTableRow(0, 0);
    RenormalizeKeepsStats(InitCoder().Split(Decision(ctx, 1)));
  }

  // ----- the two parts of the interval -----

  /** The interval is divided into a lower part and an upper part of size Qe, and the larger one goes to
      the more probable symbol. */
  lemma IntervalDivided(s: Coder, ctx: Context)
    requires s.Normal()
    ensures var st := s.stats[ctx];
            var m, l := s.Split(Decision(ctx, st.mps)), s.Split(Decision(ctx, 1 - st.mps));
            && m.a >= l.a && m.a + l.a == s.a && m.n == l.n == s.n
            && (l.a == Qe(st) || m.a == Qe(st))
            && (m.low == s.low || l.low == s.low)
            && (m.low > s.low ==> m.low == s.low + l.a && m.a == Qe(st))
            && (l.low > s.low ==> l.low == s.low + m.a && l.a == Qe(st))
            && m.low != l.low
  {
  }
}
