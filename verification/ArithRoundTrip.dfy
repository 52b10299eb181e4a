/**
 The decoder follows the reference coder decision by decision, for any byte string that spells a
 number in the coder's final interval.
 */
module ArithRoundTrip {
  import opened AriTable
  import opened Numbers
  import opened IntervalCoder
  import opened Stuffing
  import opened ArithEncoding
  import opened ArithDecoding

  // ----- reading back stuffed bytes -----

  lemma {:induction false} StuffPrefix(u: seq<Byte>, k: nat)
    requires k <= |u|
    ensures Stuff(u[..k]) <= Stuff(u)
    decreases |u| - k
  {
    if k == |u| {
      assert u[..k] == u;
    } else {
      StuffPrefix(u, k + 1);
      assert u[..k + 1] == u[..k] + [u[k]];
      StuffSnoc(u[..k], u[k]);
    }
  }

  /** src begins with the stuffed bytes of u, and a marker follows them (or the data ends). */
  ghost predicate Holds(src: seq<Byte>, u: seq<Byte>) {
    var n := |Stuff(u)|;
    && Stuff(u) <= src
    && SourceByte(src, n) == 0xFF && SkipFill(src, n + 1).0 != 0
  }

  /** The decoder has read k data bytes of u, counting zeros supplied after the marker. */
  ghost predicate At(d: Decoder, u: seq<Byte>, k: nat) {
    if k <= |u| then d.marker == 0 && d.pos == |Stuff(u[..k])| else d.marker != 0
  }

  lemma FetchReads(src: seq<Byte>, u: seq<Byte>, d: Decoder, k: nat)
    requires Holds(src, u) && At(d, u, k)
    ensures d.Fetch(src).0 == PadByte(u, k) && At(d.Fetch(src).1, u, k + 1)
  {
    if k < |u| {
      StuffPrefix(u, k + 1);
      assert u[..k + 1] == u[..k] + [u[k]];
      StuffSnoc(u[..k], u[k]);
      var p, s := d.pos, Stuff(u[..k + 1]);
      assert s <= src && s == Stuff(u[..k]) + StuffByte(u[k]);
      assert src[p] == s[p];
      if u[k] == 255 {
        assert src[p + 1] == s[p + 1] == 0;
      }
    } else if k == |u| {
      assert u[..k] == u;
    }
  }

  // ----- the decoder and the reference coder in step -----

  /** d holds the first k bytes of the code minus the interval base of s. */
  ghost predicate Synced(d: Decoder, s: Coder, u: seq<Byte>, k: nat) {
    && d.Running() && d.a == s.a && d.stats == s.stats
    && 8 * k == 16 + s.n + d.ct
    && d.c == PadVal(u, k) - Shl(s.low, d.ct)
    && At(d, u, k)
  }

  lemma ShiftInStep(src: seq<Byte>, u: seq<Byte>, d: Decoder, s: Coder, k: nat) returns (k': nat)
    requires Holds(src, u) && Synced(d, s, u, k) && d.a < 0x8000
    ensures Synced(d.Shift(src), s.Double(), u, k')
  {
    assert Shl(s.low, 1) == 2 * s.low;
    if d.ct > 0 {
      k' := k;
      ShlShl(s.low, 1, d.ct - 1);
    } else {
      k' := k + 1;
      FetchReads(src, u, d, k);
      ShlShl(s.low, 1, 7);
      Shl8(s.low);
    }
  }

  lemma {:induction false} NormalizeInStep(src: seq<Byte>, u: seq<Byte>, d: Decoder, s: Coder, k: nat)
    returns (k': nat)
    requires Holds(src, u) && Synced(d, s, u, k)
    ensures Synced(d.Normalize(src), s.Renormalize(), u, k')
    decreases 0x1_0000 - d.a
  {
    k' := k;
    if d.a < 0x8000 {
      k' := ShiftInStep(src, u, d, s, k);
      k' := NormalizeInStep(src, u, d.Shift(src), s.Double(), k');
    }
  }

  /** Comparing with the bytes read so far decides as comparing with all of them. */
  lemma Lookahead(u: seq<Byte>, v: int, ct: nat, k: nat, j: nat)
    ensures Shl(v, ct + 8 * j) <= PadVal(u, k + j) <==> Shl(v, ct) <= PadVal(u, k)
  {
    var x := PadVal(u, k);
    PadValFloor(u, k, j);
    ShlShl(v, ct, 8 * j);
    ShlOrder(Shl(v, ct), x, 8 * j);
    ShlOrder(x + 1, Shl(v, ct), 8 * j);
  }

  /** If the code lies in the part given to dec, the decoder answers with dec's bit. */
  lemma DecideInStep(src: seq<Byte>, u: seq<Byte>, d: Decoder, s: Coder, k: nat, dec: Decision, j: nat)
    requires d.Ready() && Synced(d, s, u, k)
    requires s.Split(dec).Contains(PadVal(u, k + j), 8 * (k + j) - 16)
    ensures d.Decide(dec.ctx).0 == dec.bit && Synced(d.Decide(dec.ctx).1, s.Split(dec), u, k)
  {
    var rest := s.a - AriRow(s.stats[dec.ctx].index).qe;
    Lookahead(u, s.low + rest, d.ct, k, j);
    ShlAdd(s.low, rest, d.ct);
  }

  /** The decoder, once normalized, is in step with s. */
  ghost predicate InStep(src: seq<Byte>, u: seq<Byte>, d: Decoder, s: Coder) {
    d.Live() && exists k: nat :: Synced(d.Normalize(src), s, u, k)
  }

  lemma InitInStep(src: seq<Byte>, u: seq<Byte>)
    requires Holds(src, u)
    ensures InStep(src, u, InitDecoder(), InitCoder())
  {
    var d := InitDecoder();
    assert At(d, u, 0);
    FetchReads(src, u, d, 0);
    var d1 := d.Shift(src);
    FetchReads(src, u, d1, 1);
    var d2 := d1.Shift(src);
    assert PadVal(u, 1) == PadByte(u, 0) && PadVal(u, 2) == 256 * PadVal(u, 1) + PadByte(u, 1);
    assert Synced(d2, InitCoder(), u, 2);
    assert d.Normalize(src) == d1.Normalize(src) == d2;
  }

  /** One decision, and the shifts before and after it. */
  lemma DecisionInStep(src: seq<Byte>, u: seq<Byte>, d: Decoder, s: Coder, dec: Decision, k: nat)
    requires Holds(src, u) && InStep(src, u, d, s) && s.Normal()
    requires 8 * k >= s.n + 32 && s.Split(dec).Contains(PadVal(u, k), 8 * k - 16)
    ensures d.Decode(src, dec.ctx).0 == dec.bit
    ensures InStep(src, u, d.Decode(src, dec.ctx).1, s.Step(dec))
  {
    var i: nat :| Synced(d.Normalize(src), s, u, i);
    DecideInStep(src, u, d.Normalize(src), s, i, dec, k - i);
    var _ := NormalizeInStep(src, u, d.Decode(src, dec.ctx).1, s.Split(dec), i);
  }

  /** The decoder yields every decision of a history whose interval holds the code. */
  lemma {:induction false} HistoryInStep(src: seq<Byte>, u: seq<Byte>, h: History, k: nat)
    requires Holds(src, u) && 8 * k >= Run(h).n + 32 && Run(h).Contains(PadVal(u, k), 8 * k - 16)
    ensures Yields(src, h) && InStep(src, u, After(src, h), Run(h))
  {
    match h
    case Start => InitInStep(src, u);
    case Then(past, dec) =>
      StepContains(Run(past), dec, PadVal(u, k), 8 * k - 16);
      HistoryInStep(src, u, past, k);
      DecisionInStep(src, u, After(src, past), Run(past), dec, k);
  }

  /** Binary round trip: any code for the final interval decodes to the same decisions, and leaves
      the decoder with the encoder's statistics. */
  lemma BinaryRoundTrip(src: seq<Byte>, u: seq<Byte>, h: History)
    requires Holds(src, u) && Spells(u, Run(h))
    ensures Yields(src, h)
    ensures After(src, h).Normalize(src).stats == Run(h).stats
  {
    var k := Run(h).n + 4;
    assert Run(h).Contains(PadVal(u, k), 8 * k - 16);
    HistoryInStep(src, u, h, k);
  }
}
