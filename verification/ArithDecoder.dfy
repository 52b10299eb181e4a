/**
 The arithmetic decoder. C holds the code minus the interval base, with ct bits of lookahead, so
 the cut between the two floats; renormalization is done at the start of the next decision.
 */
module ArithDecoding {
  import opened AriTable
  import opened Numbers
  import opened IntervalCoder
  import opened Stuffing

  /** The data source: src, and once it is exhausted the fake EOI marker, again and again. */
  function SourceByte(src: seq<Byte>, pos: nat): (b: Byte) {
    if pos < |src| then src[pos] else if (pos - |src|) % 2 == 0 then 0xFF else 0xD9
  }

  /** The first byte other than 0xFF, and the position after it. */
  function SkipFill(src: seq<Byte>, pos: nat): (r: (Byte, nat))
    ensures r.0 != 0xFF
    decreases if pos < |src| then |src| - pos + 1 else (pos - |src| + 1) % 2
  {
    if SourceByte(src, pos) == 0xFF then SkipFill(src, pos + 1) else (SourceByte(src, pos), pos + 1)
  }

  /** Decoder registers, read position, the marker met (0 when none), and the statistics. */
  datatype Decoder = Decoder(c: int, a: int, ct: int, pos: nat, marker: Byte, stats: Stats) {

    /** Between decisions: either the two initial bytes are still to be read, or c < a * 2^ct. */
    predicate Live() {
      || (a == 0 && ct == -16 && c == 0)
      || (a == 0 && ct == -8 && 0 <= c < 0x100)
      || Running()
    }

    predicate Running() {
      1 <= a <= 0x1_0000 && 0 <= ct <= 7 && 0 <= c < Shl(a, ct)
    }

    predicate Ready() {
      Running() && a >= 0x8000
    }

    /** The next data byte with stuffing removed; zero for ever once a marker is met. */
    function Fetch(src: seq<Byte>): (r: (Byte, Decoder))
      ensures r.1 == this.(pos := r.1.pos, marker := r.1.marker)
    {
      if marker != 0 then (0, this)
      else if SourceByte(src, pos) != 0xFF then (SourceByte(src, pos), this.(pos := pos + 1))
      else
        var (data, next) := SkipFill(src, pos + 1);
        if data == 0 then (0xFF, this.(pos := next)) else (0, this.(pos := next, marker := data))
    }

    /** One iteration of the renormalization loop. */
    function Shift(src: seq<Byte>): (d: Decoder)
      requires Live() && a < 0x8000
      ensures d.Live() && (a > 0 ==> d.a == 2 * a) && (a == 0 ==> d.ct > ct)
    {
      if ct > 0 then
        assert Shl(2 * a, ct - 1) == Shl(a, ct) by { ShlShl(a, 1, ct - 1); assert Shl(a, 1) == 2 * a; }
        this.(a := 2 * a, ct := ct - 1)
      else
        var (data, d) := Fetch(src);
        var d' := d.(c := 0x100 * c + data, ct := ct + 7);
        assert ct == 0 ==> Shl(2 * a, 7) == 0x100 * a by { ShlShl(a, 1, 7); Shl8(a); }
        if d'.ct >= 0 then d'.(a := 2 * a)
        else if d'.ct == -1 then d'.(ct := 0, a := 0x1_0000)
        else d'.(ct := d'.ct + 1)
    }

    /** Renormalization and data input. */
    function Normalize(src: seq<Byte>): (d: Decoder)
      requires Live()
      ensures d.Ready()
      decreases if a == 0 then 0x1_0000 - ct else 0x1_0000 - a
    {
      if a >= 0x8000 then this else Shift(src).Normalize(src)
    }

    /** Compare the code with the division point and adapt the bin. */
    function Decide(ctx: Context): (r: (Bit, Decoder))
      requires Ready()
      ensures r.1.Live()
    {
      var st := stats[ctx];
      var row := AriRow(st.index);
      var rest := a - row.qe;
      ShlAdd(rest, row.qe, ct);
      if c >= Shl(rest, ct) then
        var lps := rest >= row.qe;
        (if lps then 1 - st.mps else st.mps,
         this.(c := c - Shl(rest, ct), a := row.qe, stats := stats[ctx := Adapt(st, lps, 0)]))
      else
        var lps := rest < row.qe;
        (if lps then 1 - st.mps else st.mps,
         this.(a := rest, stats := stats[ctx := Adapt(st, lps, rest)]))
    }

    function Decode(src: seq<Byte>, ctx: Context): (r: (Bit, Decoder))
      requires Live()
      ensures r.1.Live()
    {
      Normalize(src).Decide(ctx)
    }
  }

  /** Start of a scan or of a restart interval whose data begins at pos. */
  function InitDecoder(): (d: Decoder)
    ensures d.Live()
  {
    Decoder(0, 0, -16, 0, 0, InitStats())
  }

  /** The decoder after being asked for the contexts of h in turn. */
  function After(src: seq<Byte>, h: History): (d: Decoder)
    ensures d.Live()
  {
    match h
    case Start => InitDecoder()
    case Then(past, dec) => After(src, past).Decode(src, dec.ctx).1
  }

  lemma {:induction false} NormalizeKeepsStats(src: seq<Byte>, d: Decoder)
    requires d.Live()
    ensures d.Normalize(src).stats == d.stats
    decreases if d.a == 0 then 0x1_0000 - d.ct else 0x1_0000 - d.a
  {
    if d.a < 0x8000 {
      NormalizeKeepsStats(src, d.Shift(src));
    }
  }

  /** Whatever data is decoded, the fixed bin keeps its state. */
  lemma {:induction false} FixedBinKept(src: seq<Byte>, h: History)
    ensures After(src, h).stats[FIXED_BIN] == Stat(0, FIXED_STATE)
  {
    if h.Then? {
      FixedBinKept(src, h.past);
      var d := After(src, h.past);
      NormalizeKeepsStats(src, d);
      var rest := d.Normalize(src).a - AriRow(FIXED_STATE).qe;
      AdaptFixed(true, 0);
      AdaptFixed(false, rest);
      AdaptFixed(true, rest);
      AdaptFixed(false, 0);
    }
  }

  /** Asked for the contexts of h in turn, the decoder answers with the bits of h. */
  predicate Yields(src: seq<Byte>, h: History) {
    match h
    case Start => true
    case Then(past, dec) => Yields(src, past) && After(src, past).Decode(src, dec.ctx).0 == dec.bit
  }

  /** What is yielded is yielded from the start on. */
  lemma {:induction false} YieldsPast(src: seq<Byte>, h: History, p: Plan)
    requires Yields(src, Extend(h, p))
    ensures Yields(src, h)
    decreases p
  {
    if p.Next? {
      YieldsPast(src, Then(h, p.d), p.rest);
    }
  }

  class ArithDecoder {
    const src: seq<Byte>
    var pos: nat
    var marker: Byte  // the marker met in the data, or 0
    var c: int        // code minus interval base, with ct bits of lookahead
    var a: int        // size of the coding interval
    var ct: int       // lookahead bits left; -16 before the first decision, -1 after an error
    var stats: Stats

    ghost var log: History           // every decision decoded since the start of the segment
    ghost const expected: History    // decisions the data is known to yield, possibly none

    ghost function State(): (d: Decoder)
      reads this
    {
      Decoder(c, a, ct, pos, marker, stats)
    }

    ghost predicate Live()
      reads this
    {
      State().Live()
    }

    // Always true. Mentioning it expands Valid, which proofs about whole blocks never need.
    ghost predicate Expand(k: nat) {
      true
    }

    /** Unless an error was met, the log accounts for the state and the data yields expected. */
    ghost predicate Valid()
      reads this
    {
      forall k: nat :: Expand(k) ==>
        ct == -1 || (Live() && State() == After(src, log) && Yields(src, expected))
    }

    constructor (src: seq<Byte>, ghost expected: History)
      requires Yields(src, expected)
      ensures Valid() && this.src == src && this.expected == expected && log == Start && ct != -1
    {
      this.src, this.expected := src, expected;
      pos, marker, c, a, ct := 0, 0, 0, 0, -16;
      stats, log := InitStats(), Start;
    }

    method GetByte() returns (data: Byte)
      modifies `pos
      ensures data == SourceByte(src, old(pos)) && pos == old(pos) + 1
    {
      data := SourceByte(src, pos);
      pos := pos + 1;
    }

    method FetchData() returns (data: Byte)
      modifies `pos, `marker
      ensures data == old(State()).Fetch(src).0 && State() == old(State()).Fetch(src).1
    {
      if marker != 0 {
        return 0;
      }
      data := GetByte();
      if data == 0xFF {
        ghost var filled := SkipFill(src, pos);
        data := GetByte();
        while data == 0xFF
          invariant marker == 0 && pos > 0 && data == SourceByte(src, pos - 1)
          invariant filled == if data == 0xFF then SkipFill(src, pos) else (data, pos)
          decreases data == 0xFF, if pos < |src| then |src| - pos + 1 else (pos - |src| + 1) % 2
        {
          data := GetByte();
        }
        if data == 0 {
          data := 0xFF;
        } else {
          marker := data;
          data := 0;
        }
      }
    }

    /** If d and then p were expected next, the decoder answers with d's bit. */
    lemma ExpectedBit(d: Decision, p: Plan)
      requires Valid() && ct != -1 && Extend(log, Next(d, p)) == expected
      ensures Live() && State().Decode(src, d.ctx).0 == d.bit
    {
      assert Expand(0);
      YieldsPast(src, Then(log, d), p);
    }

    /** Decode one binary decision with the statistics bin st. If the decision (st, b) and then
        rest were expected, the answer is b. */
    method ArithDecode(st: Context, ghost b: Bit, ghost rest: Plan) returns (bit: Bit)
      requires Valid() && ct != -1
      modifies this
      ensures Valid() && ct != -1 && log == Then(old(log), Decision(st, bit))
      ensures Extend(old(log), Next(Decision(st, b), rest)) == expected ==> bit == b && Extend(log, rest) == expected
    {
      assert Expand(0);
      if Extend(log, Next(Decision(st, b), rest)) == expected {
        ExpectedBit(Decision(st, b), rest);
      }
      bit := DecodeStep(st);
      log := Then(log, Decision(st, bit));
    }

    method DecodeStep(st: Context) returns (bit: Bit)
      requires Live()
      modifies `pos, `marker, `c, `a, `ct, `stats
      ensures Live() && bit == old(State()).Decode(src, st).0 && State() == old(State()).Decode(src, st).1
    {
      Renormalize();
      ghost var r := State().Decide(st);
      var sv := stats[st];
      var row := AriRow(sv.index);
      assert stats == stats[st := sv];
      var temp := a - row.qe;
      a := temp;
      temp := Shl(temp, ct);
      bit := sv.mps;
      if c >= temp {
        c := c - temp;
        if a < row.qe {
          stats := stats[st := Stat(sv.mps, row.nextMps)];
        } else {
          stats := stats[st := Stat(if row.switchMps == 1 then 1 - sv.mps else sv.mps, row.nextLps)];
          bit := 1 - bit;
        }
        a := row.qe;
      } else if a < 0x8000 {
        if a < row.qe {
          stats := stats[st := Stat(if row.switchMps == 1 then 1 - sv.mps else sv.mps, row.nextLps)];
          bit := 1 - bit;
        } else {
          stats := stats[st := Stat(sv.mps, row.nextMps)];
        }
      }
      assert (bit, State()) == r;
    }

    /** One shift of the renormalization loop, with a new data byte when the lookahead is used up. */
    method ShiftIn()
      requires Live() && a < 0x8000
      modifies `pos, `marker, `c, `a, `ct
      ensures State() == old(State()).Shift(src)
    {
      ct := ct - 1;
      if ct < 0 {
        var data := FetchData();
        c := 0x100 * c + data;
        ct := ct + 8;
        if ct < 0 {
          ct := ct + 1;
          if ct == 0 {
            a := 0x8000;
          }
        }
      }
      a := 2 * a;
    }

    /** Shift in data until the interval is of normal size. */
    method Renormalize()
      requires Live()
      modifies `pos, `marker, `c, `a, `ct
      ensures State() == old(State()).Normalize(src)
    {
      while a < 0x8000
        invariant Live() && State().Normalize(src) == old(State()).Normalize(src)
        decreases if a == 0 then 0x1_0000 - ct else 0x1_0000 - a
      {
        ghost var d := State().Shift(src);
        ShiftIn();
        assert State() == d;
      }
    }
  }
}
