/**
 The arithmetic encoder: registers A and C, stacked 0xFF bytes that a carry may still reach, and
 zero bytes held back because they are dropped at the end of a segment. The class invariant
 says the registers and the bytes so far spell exactly the reference coder's interval.
 */
module ArithEncoding {
  import opened AriTable
  import opened Numbers
  import opened IntervalCoder
  import opened Stuffing

  /** Read with zeros after its end, u spells exactly the number code at scale 2^n. */
  ghost predicate IsSpelled(u: seq<Byte>, n: nat, code: nat) {
    forall k: nat :: 8 * k >= n + 32 ==> PadVal(u, k) == Shl(code, 8 * k - 16 - n)
  }

  /** A code for the interval of s survives being cut to bytes whose value agrees with it. */
  lemma CodeIsSpelled(s: Coder, code: nat, shift: nat, u: seq<Byte>, n: nat)
    requires s.n + shift == 8 * n + 11 && shift <= 11 && |u| <= n + 2
    requires s.low <= code < s.low + s.a
    requires Shl(Shl(Val(u), 8 * (n + 2 - |u|)), 11) == Shl(code, shift)
    ensures IsSpelled(u, s.n, code) && Spells(u, s)
  {
    var g := Shl(Val(u), 8 * (n + 2 - |u|));
    forall k: nat | 8 * k >= s.n + 32
      ensures PadVal(u, k) == Shl(code, 8 * k - 16 - s.n) && s.Contains(PadVal(u, k), 8 * k - 16)
    {
      var e := 8 * k - 16 - s.n;
      PadValExtended(u, n + 2, k);
      ShlShl(g, 11, e - shift);
      ShlShl(code, shift, e - shift);
      ShlOrder(s.low, code, e);
      ShlOrder(s.low + s.a, code, e);
    }
  }

  /** v has k final zero bits. */
  ghost predicate IsRound(v: int, k: nat) {
    exists q :: v == Shl(q, k)
  }

  // Always true. Mentioning it opens Roundest.
  ghost predicate OpenRound(x: nat) {
    true
  }

  /** No number in the interval of s has more final zero bits than code. */
  ghost predicate Roundest(s: Coder, code: nat) {
    forall x: nat :: OpenRound(x) ==>
      && s.low <= code < s.low + s.a && IsRound(code, 15)
      && (IsRound(code, 16) || forall v :: s.low <= v < s.low + s.a ==> !IsRound(v, 16))
  }

  /** A byte string that does not end in a zero byte spells no multiple of 2^j. */
  lemma FinalZeroBits(u: seq<Byte>, k: nat, y: int, j: nat)
    requires u != [] && u[|u| - 1] != 0 && |u| <= k && j == 8 * (k - |u|) + 8
    ensures PadVal(u, k) != Shl(y, j)
  {
    PadValPastEnd(u, k - |u|);
    ShlOctet(y, j - 8);
    ShlOrder(Val(u), 256 * y, j - 8);
    ShlOrder(256 * y, Val(u), j - 8);
  }

  lemma RoundIsUnique(s: Coder, code: nat, v: nat)
    requires s.Normal() && Roundest(s, code)
    requires IsRound(v, 16) && s.low <= v < s.low + s.a
    ensures v == code
  {
    assert OpenRound(0);
    var q :| v == Shl(q, 16);
    var r :| code == Shl(r, 16);
    ShlAdd(q, 1, 16);
    ShlAdd(r, 1, 16);
    ShlOctet(1, 8);
    Shl8(1);
    ShlOrder(q + 1, r, 16);
    ShlOrder(r + 1, q, 16);
  }

  /** A round code at scale 2^(n + e) is a round number of the interval. */
  lemma RoundCode(low: int, high: int, e: nat, y: int, j: nat) returns (v: int)
    requires j >= e + 16 && Shl(low, e) <= Shl(y, j) < Shl(high, e)
    ensures low <= v < high && IsRound(v, 16) && Shl(v, e) == Shl(y, j)
  {
    v := Shl(y, j - e);
    ShlShl(y, j - e, e);
    ShlShl(y, j - e - 16, 16);
    ShlOrder(low, v, e);
    ShlOrder(high, v, e);
  }

  /** The roundest number in the interval has no shorter spelling. */
  lemma ShortestCode(s: Coder, code: nat, u: seq<Byte>, w: seq<Byte>)
    requires s.Normal() && Roundest(s, code)
    requires IsSpelled(u, s.n, code) && (u != [] ==> u[|u| - 1] != 0)
    requires Spells(w, s)
    ensures |u| <= |w|
  {
    if |w| < |u| {
      var k := |u| + s.n + 5;
      var e, j := 8 * k - 16 - s.n, 8 * (k - |u|) + 8;
      assert PadVal(u, k) == Shl(code, e);
      if j <= e + 15 {
        assert OpenRound(0);
        var q :| code == Shl(q, 15);
        ShlShl(q, 15, e);
        ShlShl(q, 15 + e - j, j);
        FinalZeroBits(u, k, Shl(q, 15 + e - j), j);
      } else {
        var y := Shl(Val(w), 8 * (|u| - 1 - |w|));
        PadValPastEnd(w, k - |w|);
        ShlShl(Val(w), 8 * (|u| - 1 - |w|), j);
        assert s.Contains(PadVal(w, k), 8 * k - 16);
        var v := RoundCode(s.low, s.low + s.a, e, y, j);
        RoundIsUnique(s, code, v);
        FinalZeroBits(u, k, y, j);
      }
    }
  }

  /** The roundest number of the interval, cut to n + 2 bytes without final zeros, is a code for
      the interval and no code is shorter. */
  lemma FinishedSegment(s: Coder, code: nat, shift: nat, u: seq<Byte>, n: nat)
    requires s.Normal() && Roundest(s, code) && s.n + shift == 8 * n + 11 && shift <= 11
    requires |u| <= n + 2 && (u != [] ==> u[|u| - 1] != 0)
    requires Shl(Shl(Val(u), 8 * (n + 2 - |u|)), 11) == Shl(code, shift)
    ensures Spells(u, s) && forall w :: Spells(w, s) ==> |u| <= |w|
  {
    assert OpenRound(0);
    CodeIsSpelled(s, code, shift, u, n);
    forall w | Spells(w, s) ensures |u| <= |w| {
      ShortestCode(s, code, u, w);
    }
  }

  /** A register of whole bytes behind v. */
  lemma FinalSum(v: int, q: int)
    ensures Shl(0x1_0000 * v + q, 11) == 0x800_0000 * v + 0x800 * q
  {
    var g := 0x1_0000 * v + q;
    ShlOctet(g, 3);
    assert Shl(256 * g, 1) == 512 * g;
  }

  lemma RoundMultiple(q: int)
    ensures Shl(q, 15) == 0x8000 * q && Shl(q, 16) == 0x1_0000 * q
    ensures IsRound(0x8000 * q, 15) && IsRound(0x1_0000 * q, 16)
  {
    ShlOctet(q, 7);
    ShlOctet(q, 8);
    Shl8(q);
    assert Shl(q, 8) == 2 * Shl(q, 7);
  }

  class ArithEncoder {
    var c: int       // base of the coding interval, below the bytes already split off
    var a: int       // size of the coding interval
    var sc: nat      // stacked 0xFF bytes
    var zc: nat      // pending zero bytes
    var ct: int      // shifts until the next byte is split off
    var buffer: int  // most recent byte other than 0xFF, or -1 when there is none
    var stats: Stats
    var out: seq<Byte>

    ghost var coder: Coder      // the reference coder this encoder refines
    ghost var sent: seq<Byte>   // the bytes in out before stuffing
    ghost var log: History     // every decision coded since the start of the segment

    /** The number spelled by the bytes before the buffered one: sent, and held back zeros. */
    ghost function Held(): (v: int)
      reads this
    {
      Append(Val(sent), 0, zc)
    }

    /** The number spelled by every byte produced so far: held, buffered and stacked. */
    ghost function Value(): (v: int)
      reads this
    {
      Append(if buffer < 0 then Held() else 256 * Held() + buffer, 255, sc)
    }

    /** How many bytes that is. */
    ghost function Count(): (n: nat)
      reads this
    {
      |sent| + zc + (if buffer < 0 then 0 else 1) + sc
    }

    /** The segment written so far is legal and holds no zero byte that might still be dropped. */
    ghost predicate Legal()
      reads this
    {
      && -1 <= buffer <= 254
      && (buffer == -1 ==> sent == [] && zc == 0)
      && out == Stuff(sent)
      && (sent != [] ==> sent[|sent| - 1] != 0)
    }

    /** The registers and digits spell the interval of s, and the spacer bits are not exhausted. */
    ghost predicate Tracks(s: Coder)
      reads this
      requires 0 <= ct <= 11
    {
      && 0 <= c && s.a == a && s.stats == stats
      && s.low == Shl(Value(), 27 - ct) + c
      && s.n + ct == 8 * Count() + 11
      && if buffer == -1 then c + a <= Shl(1, 27 - ct) else ct <= 8 && c + a <= Shl(0x9_0000, 8 - ct)
    }

    /** The encoder state refines the reference coder. */
    ghost predicate Refines()
      reads this
    {
      Legal() && coder.Normal() && 1 <= ct <= 11 && Tracks(coder)
    }

    // Always true. Mentioning it expands Valid, which proofs about whole blocks never need.
    ghost predicate Expand(k: nat) {
      true
    }

    /** The state refines the reference coder, which has coded exactly what is in the log. */
    ghost predicate Valid()
      reads this
    {
      forall k: nat :: Expand(k) ==> Refines() && coder == Run(log)
    }

    /** Start of a scan or of a restart interval. */
    constructor ()
      ensures Valid() && log == Start && out == []
    {
      c, a, sc, zc, ct, buffer := 0, 0x1_0000, 0, 0, 11, -1;
      stats, out := InitStats(), [];
      coder, sent, log := InitCoder(), [], Start;
      new;
      assert Shl(0, 16) == 0 by { ShlAdd(0, 0, 16); }
      assert Shl(1, 16) == 0x1_0000 by { Shl8(1); ShlOctet(1, 8); }
    }

    method EmitByte(val: Byte)
      modifies `out
      ensures out == old(out) + [val]
    {
      out := out + [val];
    }

    /** Output a data byte that cannot be 0xFF. */
    method EmitPlain(val: Byte)
      requires val != 0xFF && out == Stuff(sent)
      modifies `out, `sent
      ensures sent == old(sent) + [val] && out == Stuff(sent)
    {
      EmitByte(val);
      StuffSnoc(sent, val);
      sent := sent + [val];
    }

    /** Output a data byte, with the zero byte that must follow 0xFF. */
    method EmitStuffed(val: Byte)
      requires out == Stuff(sent)
      modifies `out, `sent
      ensures sent == old(sent) + [val] && out == Stuff(sent)
    {
      EmitByte(val);
      if val == 0xFF {
        EmitByte(0x00);
        assert out == old(out) + [val, 0];
      }
      StuffSnoc(sent, val);
      sent := sent + [val];
    }

    /** Output the pending zero bytes. */
    method EmitZeros()
      requires out == Stuff(sent)
      modifies `out, `zc, `sent
      ensures zc == 0 && out == Stuff(sent) && (old(zc) == 0 ==> sent == old(sent))
      ensures Val(sent) == old(Held()) && |sent| == |old(sent)| + old(zc)
    {
      ghost var n := 0;
      while zc > 0
        invariant n + zc == old(zc) && out == Stuff(sent) && (n == 0 ==> sent == old(sent))
        invariant Val(sent) == Append(Val(old(sent)), 0, n) && |sent| == |old(sent)| + n
      {
        ValAppend(sent, 0);
        EmitPlain(0);
        zc, n := zc - 1, n + 1;
      }
    }

    /** Output the stacked 0xFF bytes, each with its stuffed zero. */
    method EmitStacked()
      requires out == Stuff(sent)
      modifies `out, `sc, `sent
      ensures sc == 0 && out == Stuff(sent)
      ensures Val(sent) == Append(Val(old(sent)), 255, old(sc)) && |sent| == |old(sent)| + old(sc)
      ensures old(sc) > 0 ==> sent[|sent| - 1] == 255
    {
      ghost var n := 0;
      while sc > 0
        invariant n + sc == old(sc) && out == Stuff(sent)
        invariant Val(sent) == Append(Val(old(sent)), 255, n) && |sent| == |old(sent)| + n
        invariant n > 0 ==> sent[|sent| - 1] == 255
      {
        ValAppend(sent, 0xFF);
        EmitStuffed(0xFF);
        sc, n := sc - 1, n + 1;
      }
    }

    /** Output the pending zero bytes and the buffered byte, raised by one. */
    method EmitRaised()
      requires out == Stuff(sent) && 0 <= buffer < 255
      modifies `out, `zc, `sent
      ensures zc == 0 && out == Stuff(sent) && |sent| == |old(sent)| + old(zc) + 1
      ensures Val(sent) == 256 * old(Held()) + buffer + 1 && sent[|sent| - 1] == buffer + 1
    {
      EmitZeros();
      ValAppend(sent, buffer + 1);
      EmitStuffed(buffer + 1);
    }

    /** A carry reached the stacked bytes: output the byte before them, raised by one. */
    method CarryOut()
      requires Legal() && 0 <= buffer
      modifies `out, `zc, `sc, `sent
      ensures Held() == old(Value()) + 1 && |sent| + zc == old(Count())
      ensures out == Stuff(sent) && sent != [] && sent[|sent| - 1] != 0 && sc == 0
    {
      EmitRaised();
      CarryThroughFF(256 * old(Held()) + buffer, sc);
      zc := zc + sc;
      sc := 0;
    }

    /** No carry can come any more: output the buffered byte and the stacked 0xFF bytes. */
    method FlushPending()
      requires Legal()
      modifies `out, `zc, `sc, `sent
      ensures Held() == old(Value()) && |sent| + zc == old(Count())
      ensures buffer == -1 ==> zc == 0
      ensures out == Stuff(sent) && (sent != [] ==> sent[|sent| - 1] != 0) && sc == 0
    {
      if buffer == 0 {
        zc := zc + 1;
      } else if buffer >= 0 {
        EmitZeros();
        ValAppend(sent, buffer);
        EmitPlain(buffer);
      }
      assert Append(Held(), 255, sc) == old(Value());
      if sc > 0 {
        if zc > 0 {
          EmitZeros();
        }
        EmitStacked();
      }
    }

    /** The spacer bits bound C when a byte is due: a carry finds a byte to go to, and the byte
        behind a carry is far from 0xFF. */
    lemma SpacerBits(s: Coder)
      requires ct == 0 && Tracks(s) && 1 <= a
      ensures c <= 0x900_0000 && (c >= 0x800_0000 ==> buffer != -1)
      ensures s.low == 0x800_0000 * Value() + c
    {
      Shl19(Value());
      Shl19(1);
      Shl8(0x9_0000);
    }

    /** Append temp to the bytes produced so far, carrying its excess over 0xFF into them. */
    method PushByte(temp: nat)
      requires Legal() && temp <= 0x120 && (temp > 0xFF ==> buffer != -1)
      modifies `out, `zc, `sc, `sent, `buffer
      ensures Legal() && (buffer == -1 ==> old(buffer) == -1 && temp == 0xFF)
      ensures Value() == 256 * old(Value()) + temp && Count() == old(Count()) + 1
    {
      if temp > 0xFF {
        if buffer >= 0 {
          CarryOut();
        }
        buffer := temp % 0x100;
      } else if temp == 0xFF {
        sc := sc + 1;
      } else {
        FlushPending();
        buffer := temp % 0x100;
      }
    }

    /** Another byte is ready in bits 19 to 27 of C, the topmost being a carry. */
    method ByteOut(ghost s: Coder)
      requires Legal() && ct == 0 && Tracks(s) && 1 <= a <= 0x1_0000
      modifies `out, `zc, `sc, `sent, `buffer, `c, `ct
      ensures Legal() && ct == 8 && Tracks(s)
    {
      var temp := c / 0x8_0000;
      SpacerBits(s);
      PushByte(temp);
      c := c % 0x8_0000;
      ct := ct + 8;
      Shl19(Value());
      Shl19(1);
    }

    /** One shift of both registers, and a byte whenever one is complete. */
    method Shift(ghost s: Coder)
      requires Legal() && 1 <= ct <= 11 && Tracks(s) && 1 <= a < 0x8000
      modifies `a, `out, `zc, `sc, `sent, `buffer, `c, `ct
      ensures Legal() && 1 <= ct <= 11 && Tracks(s.Double()) && a == 2 * old(a)
    {
      a := 2 * a;
      c := 2 * c;
      ct := ct - 1;
      if ct == 0 {
        ByteOut(s.Double());
      }
    }

    /** Shift until the interval is of normal size again; at least one shift is due. */
    method Renormalize(ghost s: Coder) returns (ghost r: Coder)
      requires Legal() && 1 <= ct <= 11 && Tracks(s) && 1 <= a < 0x8000
      modifies `a, `out, `zc, `sc, `sent, `buffer, `c, `ct
      ensures Legal() && 1 <= ct <= 11 && Tracks(r) && r == s.Renormalize()
    {
      r := s;
      while true
        invariant Legal() && 1 <= ct <= 11 && Tracks(r)
        invariant 1 <= a < 0x8000 && r.Renormalize() == s.Renormalize()
        decreases 0x8000 - a
      {
        Shift(r);
        r := r.Double();
        if a >= 0x8000 {
          break;
        }
      }
    }

    /** Give the interval to the symbol val and move the bin st to its next state; ready tells
        that the interval is still of normal size. */
    method Divide(st: Context, val: Bit, ghost s: Coder) returns (ready: bool)
      requires Legal() && coder.Normal() && 1 <= ct <= 11 && Tracks(coder)
      requires s == coder.Split(Decision(st, val))
      modifies `a, `c, `stats
      ensures Tracks(s) && ready == (a >= 0x8000)
    {
      var sv := stats[st];
      var row := AriRow(sv.index);
      var qe := row.qe;
      a := a - qe;
      if val != sv.mps {
        if a >= qe {
          c := c + a;
          a := qe;
        }
        stats := stats[st := Stat(if row.switchMps == 1 then 1 - sv.mps else sv.mps, row.nextLps)];
      } else {
        if a >= 0x8000 {
          return true;
        }
        if a < qe {
          c := c + a;
          a := qe;
        }
        stats := stats[st := Stat(sv.mps, row.nextMps)];
      }
      ready := false;
    }

    method EncodeStep(st: Context, val: Bit)
      requires Refines()
      modifies `a, `out, `zc, `sc, `sent, `buffer, `c, `ct, `stats, `coder
      ensures Refines() && coder == old(coder).Step(Decision(st, val))
    {
      ghost var s := coder.Split(Decision(st, val));
      var ready := Divide(st, val, s);
      if ready {
        coder := s;
        return;
      }
      coder := Renormalize(s);
    }

    /** Code one binary decision in the statistics bin st. */
    method ArithEncode(st: Context, val: Bit)
      requires Valid()
      modifies this
      ensures Valid() && log == Then(old(log), Decision(st, val))
    {
      assert Expand(0);
      EncodeStep(st, val);
      log := Then(log, Decision(st, val));
    }

    static lemma ZerosDropped(v: int, n: nat)
      ensures Shl(v, 8 * (n + 2)) == 0x1_0000 * Append(v, 0, n)
    {
      AppendZeros(v, n);
      ShlOctet(v, 8 * n);
      ShlOctet(v, 8 * n + 8);
    }

    /** Output pending zeros and two bytes, the second one only if it is not zero. */
    method EmitPair(x: Byte, y: Byte)
      requires out == Stuff(sent) && (sent != [] ==> sent[|sent| - 1] != 0) && (x != 0 || y != 0)
      modifies `out, `zc, `sent
      ensures out == Stuff(sent) && sent != [] && sent[|sent| - 1] != 0
      ensures |sent| <= |old(sent)| + old(zc) + 2
      ensures Shl(Val(sent), 8 * (|old(sent)| + old(zc) + 2 - |sent|)) == 0x1_0000 * old(Held()) + 0x100 * x + y
    {
      if zc > 0 {
        EmitZeros();
      }
      ValAppend(sent, x);
      EmitStuffed(x);
      if y != 0 {
        ValAppend(sent, y);
        EmitStuffed(y);
      } else {
        Shl8(Val(sent));
      }
    }

    /** Output the last two bytes in C, and pending zeros, as far as they are not all zero. */
    method EmitFinal()
      requires out == Stuff(sent) && (sent != [] ==> sent[|sent| - 1] != 0) && 0 <= c
      modifies `out, `zc, `sent
      ensures out == Stuff(sent) && (sent != [] ==> sent[|sent| - 1] != 0)
      ensures |sent| <= |old(sent)| + old(zc) + 2
      ensures Shl(Val(sent), 8 * (|old(sent)| + old(zc) + 2 - |sent|)) == 0x1_0000 * old(Held()) + c / 0x800 % 0x1_0000
    {
      TwoBytes(c);
      if c / 0x800 % 0x1_0000 != 0 {
        EmitPair(c / 0x8_0000 % 0x100, c / 0x800 % 0x100);
      } else {
        ZerosDropped(Val(sent), zc);
      }
    }

    /** The value chosen at the end of a segment, in units of 0x8000: the one in the interval with
        most final zeros. */
    static function Choose(c: nat, a: nat): (units: nat)
      requires 0x8000 <= a <= 0x1_0000
      ensures c <= 0x8000 * units < c + a
    {
      var q := (a - 1 + c) / 0x1_0000;
      if 0x1_0000 * q < c then 2 * q + 1 else 2 * q
    }

    /** The bits of the interval base above C do not change what is round. */
    lemma ChosenIsRoundest()
      requires Refines()
      ensures Roundest(coder, coder.low + 0x8000 * Choose(c, a) - c)
    {
      var d := coder.low - c;
      ShlShl(Value(), 11 - ct, 16);
      var e := Shl(Value(), 11 - ct);
      RoundMultiple(e);
      assert d == 0x1_0000 * e;
      RoundedChoice(e, c, a);
    }

    static lemma RoundedChoice(e: int, c: nat, a: nat)
      requires 0x8000 <= a <= 0x1_0000
      ensures var v := 0x1_0000 * e + 0x8000 * Choose(c, a);
              && IsRound(v, 15)
              && (IsRound(v, 16) || forall w :: 0x1_0000 * e + c <= w < 0x1_0000 * e + c + a ==> !IsRound(w, 16))
    {
      var q := (a - 1 + c) / 0x1_0000;
      RoundMultiple(2 * e + Choose(c, a));
      RoundMultiple(e + q);
      if 0x1_0000 * q < c {
        forall w | 0x1_0000 * e + c <= w < 0x1_0000 * e + c + a ensures !IsRound(w, 16) {
          NoMultiple(e, c, a, q, w);
        }
      }
    }

    static lemma NoMultiple(e: int, c: nat, a: nat, q: int, w: int)
      requires 0x1_0000 * e + c <= w < 0x1_0000 * e + c + a && 0x1_0000 * q < c && c + a - 1 < 0x1_0000 * (q + 1)
      ensures !IsRound(w, 16)
    {
      if g :| w == Shl(g, 16) {
        RoundMultiple(g);
      }
    }

    /** What C holds after the final shift: whole bytes, and at most one carry. */
    lemma FinalShift(pick: nat)
      requires Refines() && c <= pick < c + a
      ensures var f := Shl(pick, ct);
              && 0 <= f < 0x900_0000 && (f >= 0x800_0000 ==> buffer != -1)
              && Shl(coder.low + pick - c, ct) == 0x800_0000 * Value() + f
    {
      var v := Value();
      ShlOrder(c + a, pick, ct);
      ShlOrder(0, pick, ct);
      ShlAdd(0, 0, ct);
      ShlOrder(c + a, if buffer == -1 then Shl(1, 27 - ct) else Shl(0x9_0000, 8 - ct), ct);
      Shl19(1);
      Shl19(v);
      Shl8(0x9_0000);
      ShlShl(1, 27 - ct, ct);
      ShlShl(v, 27 - ct, ct);
      if ct <= 8 {
        ShlShl(0x9_0000, 8 - ct, ct);
      }
      ShlAdd(Shl(v, 27 - ct), pick, ct);
    }

    static lemma {:induction false} ShlMultiple(q: int, k: nat)
      ensures Shl(0x8000 * q, k) == 0x8000 * Shl(q, k)
    {
      if k > 0 {
        ShlMultiple(q, k - 1);
      }
    }

    /** One final overflow has to be handled, or everything pending is settled. */
    method SettleCarry()
      requires Legal() && 0 <= c < 0x900_0000 && (c >= 0x800_0000 ==> buffer != -1)
      modifies `out, `zc, `sc, `sent
      ensures Held() == old(Value()) + c / 0x800_0000 && |sent| + zc == old(Count())
      ensures out == Stuff(sent) && (sent != [] ==> sent[|sent| - 1] != 0)
    {
      if c / 0x800_0000 != 0 {
        if buffer >= 0 {
          CarryOut();
        }
      } else {
        FlushPending();
      }
    }

    /** Choose the final code, the roundest number of the interval, and shift it to whole bytes. */
    method ChooseFinal(ghost v: int) returns (ghost u: nat)
      requires Refines() && v == Value()
      modifies `c
      ensures c == Shl(0x8000 * u, ct) && 0 <= c < 0x900_0000 && (c >= 0x800_0000 ==> buffer != -1)
      ensures old(c) <= 0x8000 * u && Roundest(coder, coder.low + 0x8000 * u - old(c))
      ensures Shl(coder.low + 0x8000 * u - old(c), ct) == 0x800_0000 * v + c
    {
      u := Choose(c, a);
      FinalShift(0x8000 * u);
      ChosenIsRoundest();
      var temp := 0x1_0000 * ((a - 1 + c) / 0x1_0000);  // masks the low 16 bits off
      if temp < c {
        c := temp + 0x8000;
      } else {
        c := temp;
      }
      c := Shl(c, ct);
    }

    /** What the registers and bytes finally spell. */
    lemma FinalBytes(v: int, u: int, shift: nat, f: nat)
      requires f == Shl(0x8000 * u, shift) && f < 0x900_0000
      ensures Shl(0x1_0000 * (v + f / 0x800_0000) + f / 0x800 % 0x1_0000, 11) == 0x800_0000 * v + f
    {
      ShlMultiple(u, shift);
      var q := 0x10 * Shl(u, shift);
      assert f == 0x800 * q && f / 0x800 == q;
      FinalSum(v, q);
      assert f / 0x800_0000 == q / 0x1_0000;
    }

    /** Output everything that is left; C holds whole bytes. */
    method EmitRest(ghost u: int, ghost shift: nat, ghost v: int, ghost n: nat)
      requires v == Value() && n == Count()
      requires Legal() && 0 <= c < 0x900_0000 && (c >= 0x800_0000 ==> buffer != -1) && c == Shl(0x8000 * u, shift)
      modifies `out, `zc, `sc, `sent
      ensures out == Stuff(sent) && (sent != [] ==> sent[|sent| - 1] != 0)
      ensures |sent| <= n + 2
      ensures Shl(Shl(Val(sent), 8 * (n + 2 - |sent|)), 11) == 0x800_0000 * v + c
    {
      FinalBytes(v, u, shift, c);
      SettleCarry();
      EmitFinal();
    }

    method FinishStep()
      requires Refines()
      modifies `out, `zc, `sc, `sent, `c
      ensures out == Stuff(sent) && (sent != [] ==> sent[|sent| - 1] != 0)
      ensures Spells(sent, coder) && forall w :: Spells(w, coder) ==> |sent| <= |w|
    {
      ghost var s, n, v, base := coder, Count(), Value(), c;
      assert s.Normal() && s.n + ct == 8 * n + 11 && ct <= 11;
      ghost var u := ChooseFinal(v);
      EmitRest(u, ct, v, n);
      FinishedSegment(s, s.low + 0x8000 * u - base, ct, sent, n);
    }

    /** End of a segment: send the shortest code for the final interval. */
    method FinishPass()
      requires Valid()
      modifies this
      ensures out == Stuff(sent) && (sent != [] ==> sent[|sent| - 1] != 0)
      ensures log == old(log) && Spells(sent, Run(log))
      ensures forall w :: Spells(w, Run(log)) ==> |sent| <= |w|
    {
      assert Expand(0);
      FinishStep();
    }
  }
}
