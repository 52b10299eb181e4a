/** Message bodies: what is heard of the bytes after the headers. */
module HttpContents {
  import opened Numbers
  import opened HttpModel
  import opened HttpRun
  import opened HttpCalls
  import opened HttpParser
  import opened HttpLengths
  import opened HttpHeaders
  import opened HttpStartLine
  import opened HttpHeard
  import opened HttpHeadings

  /** A chunk: the digits of its size, and its data. */
  datatype Chunk = Chunk(size: seq<Byte>, data: seq<Byte>)

  /** The size is that of the data, in hexadecimal digits that are not too many. */
  predicate ChunkOk(c: Chunk) {
    && c.size != [] && c.data != [] && (forall k :: 0 <= k < |c.size| ==> Unhex(c.size[k]) != -1)
    && Hex(c.size) == |c.data| && Hex(c.size[..|c.size| - 1]) <= HEX_LIMIT
  }

  function ChunkBytes(c: Chunk): (d: seq<Byte>) {
    c.size + [CR] + [LF] + (c.data + [CR] + [LF])
  }

  function ChunkHeard(s: Stream, c: Chunk): (t: Stream)
    requires |c.data| <= ULLONG_MAX
  {
    Heard(Add(Heard(s, OnChunkHeader(|c.data|)), Data(Body, c.data)), OnChunkComplete)
  }

  // ----- data -----

  /** Body bytes that do not end the body. */
  lemma DataStep(p: Parser, ch: Byte, skip: bool)
    requires p.state == ChunkData || p.state == BodyIdentity
    ensures var o := Step(p, ch, skip);
            if p.contentLength > 1 then o == Go(p.(contentLength := p.contentLength - 1), p.state)
            else if p.state == ChunkData then o == Go(p.(contentLength := 0), ChunkDataAlmostDone)
            else o == Complete(p.(contentLength := 0, state := MessageDone), p.upgrade)
  {
    StepReads(p, ch, skip);
  }

  /** The parser after the last byte of data. */
  function AfterData(p: Parser): (q: Parser) {
    if p.state == ChunkData then p.(contentLength := 0, state := ChunkDataAlmostDone)
    else Complete(p.(contentLength := 0, state := MessageDone), p.upgrade).p
  }

  function DataHeard(p: Parser, s: Stream, d: seq<Byte>): (t: Stream) {
    if p.state == ChunkData then Add(s, Data(Body, d)) else Heard(Add(s, Data(Body, d)), OnMessageComplete)
  }

  lemma LastDataByte(f: Steps, answer: Answer, p: Parser, s: Stream, d: seq<Byte>, i: nat)
    requires IsMachine(f, answer) && (p.state == ChunkData || p.state == BodyIdentity) && p.errno == Ok && !p.upgrade
    requires i + 1 == |d| && p.contentLength == 1
    ensures Run(f, p, s, d, i) == Result(AfterData(p), DataHeard(p, s, [d[i]]), |d|, false)
  {
    AtByte(f, answer, s, p, d[i]);
    DataStep(p, d[i], answer(s, p));
    var o, t := f(s, p, d[i]), DataHeard(p, s, [d[i]]);
    assert Hear(s, p.state, d[i], o) == t;
    assert Run(f, o.p, t, d, i + 1) == Result(o.p, t, |d|, false);
  }

  lemma NextDataByte(f: Steps, answer: Answer, p: Parser, s: Stream, d: seq<Byte>, i: nat)
    requires IsMachine(f, answer) && (p.state == ChunkData || p.state == BodyIdentity) && p.errno == Ok
    requires i < |d| && p.contentLength > 1
    ensures Run(f, p, s, d, i)
         == Run(f, p.(contentLength := p.contentLength - 1), Add(s, Data(Body, [d[i]])), d, i + 1)
  {
    AtByte(f, answer, s, p, d[i]);
    DataStep(p, d[i], answer(s, p));
    assert Hear(s, p.state, d[i], f(s, p, d[i])) == Add(s, Data(Body, [d[i]]));
  }

  /** All data is heard. */
  lemma {:induction false} DataRun(f: Steps, answer: Answer, p: Parser, s: Stream, d: seq<Byte>, i: nat)
    requires IsMachine(f, answer) && (p.state == ChunkData || p.state == BodyIdentity) && p.errno == Ok && !p.upgrade
    requires i < |d| && p.contentLength == |d| - i
    ensures Run(f, p, s, d, i) == Result(AfterData(p), DataHeard(p, s, d[i..]), |d|, false)
    decreases |d| - i
  {
    if i + 1 == |d| {
      LastDataByte(f, answer, p, s, d, i);
      assert d[i..] == [d[i]];
    } else {
      var q, t := p.(contentLength := p.contentLength - 1), Add(s, Data(Body, [d[i]]));
      NextDataByte(f, answer, p, s, d, i);
      DataRun(f, answer, q, t, d, i + 1);
      GrownMore(s, [Body], d[i], d[i + 1..]);
      assert [d[i]] + d[i + 1..] == d[i..];
    }
  }

  lemma DataTells(f: Steps, answer: Answer, p: Parser, s: Stream, d: seq<Byte>)
    requires IsMachine(f, answer) && (p.state == ChunkData || p.state == BodyIdentity) && p.errno == Ok && !p.upgrade
    requires d != [] && p.contentLength == |d|
    ensures Tells(f, p, s, d, AfterData(p), DataHeard(p, s, d))
  {
    DataRun(f, answer, p, s, d, 0);
    assert d[0..] == d;
  }

  // ----- chunks -----

  lemma {:induction false} ReadSizeOnly(p: Parser, ds: seq<Byte>, i: nat)
    requires i <= |ds| && forall k :: 0 <= k < |ds| ==> Unhex(ds[k]) != -1
    ensures var q := ReadSize(p, ds, i); q == p.(contentLength := q.contentLength, errno := q.errno)
    decreases |ds| - i
  {
    if i < |ds| && SizeOutcome(p, ds[i]).p.errno == Ok {
      ReadSizeOnly(SizeOutcome(p, ds[i]).p, ds, i + 1);
    }
  }

  predicate SizeFits(ds: seq<Byte>) {
    && ds != [] && (forall k :: 0 <= k < |ds| ==> Unhex(ds[k]) != -1)
    && Hex(ds[..|ds| - 1]) <= HEX_LIMIT
  }

  /** The digits of a size. */
  lemma SizeRun(f: Steps, answer: Answer, p: Parser, s: Stream, ds: seq<Byte>)
    requires IsMachine(f, answer) && p.state == ChunkSizeStart && p.errno == Ok && SizeFits(ds)
    ensures Hex(ds) <= ULLONG_MAX
    ensures Run(f, p, s, ds, 0).p == p.(state := ChunkSize, contentLength := Hex(ds))
  {
    ChunkSizeIsItsDigits(f, answer, p, s, ds);
    MachineReadsSizes(f, answer);
    SizeValue(f, p, s, ds);
    var q := p.(contentLength := Unhex(ds[0]), state := ChunkSize);
    RunsToIs(f, p, s, ds, 0, ReadSize(q, ds, 1));
    ReadSizeOnly(q, ds, 1);
  }

  lemma SizeTells(f: Steps, answer: Answer, p: Parser, s: Stream, ds: seq<Byte>)
    requires IsMachine(f, answer) && p.state == ChunkSizeStart && p.errno == Ok && SizeFits(ds)
    ensures Hex(ds) <= ULLONG_MAX
    ensures Tells(f, p, s, ds + [CR], p.(state := ChunkSizeAlmostDone, contentLength := Hex(ds)), s)
  {
    SizeRun(f, answer, p, s, ds);
    var q := OpenStretch(Size, f, answer, p, s, ds);
    SizeEndTells(f, answer, q, s);
    TellsOn(f, p, s, ds, q, s, [CR], q.(state := ChunkSizeAlmostDone), s);
  }

  lemma SizeEndTells(f: Steps, answer: Answer, p: Parser, s: Stream)
    requires IsMachine(f, answer) && p.state == ChunkSize && p.errno == Ok
    ensures Tells(f, p, s, [CR], p.(state := ChunkSizeAlmostDone), s)
  {
    SizeGroup(p, CR, answer(s, p));
    SilentTells(f, answer, p, s, CR, p.(state := ChunkSizeAlmostDone));
  }

  /** The parser after the line of a chunk size. */
  function AfterSize(p: Parser, n: UInt64): (q: Parser) {
    p.(state := if n == 0 then HeaderFieldStart else ChunkData, contentLength := n,
       flags := if n == 0 then p.flags.(trailing := true) else p.flags)
  }

  lemma SizeLineTells(f: Steps, answer: Answer, p: Parser, s: Stream, ds: seq<Byte>)
    requires IsMachine(f, answer) && p.state == ChunkSizeStart && p.errno == Ok && SizeFits(ds)
    ensures Hex(ds) <= ULLONG_MAX
    ensures Tells(f, p, s, ds + [CR] + [LF], AfterSize(p, Hex(ds)), Heard(s, OnChunkHeader(Hex(ds))))
  {
    SizeTells(f, answer, p, s, ds);
    var q, e := p.(state := ChunkSizeAlmostDone, contentLength := Hex(ds)), OnChunkHeader(Hex(ds));
    SizeLineStep(q, answer(s, q));
    AnnouncesTells(f, answer, q, s, LF, AfterSize(p, Hex(ds)), [e]);
    OneEvent(s, e);
    TellsOn(f, p, s, ds + [CR], q, s, [LF], AfterSize(p, Hex(ds)), Heard(s, e));
  }

  lemma SizeLineStep(q: Parser, skip: bool)
    requires q.state == ChunkSizeAlmostDone
    ensures Step(q, LF, skip) == Tell(AfterSize(q, q.contentLength), AfterSize(q, q.contentLength).state,
                                      OnChunkHeader(q.contentLength))
  {
    StepByState(q, LF, skip);
  }

  lemma OneEvent(s: Stream, e: Event)
    requires !e.Data?
    ensures AddAll(s, [e]) == Heard(s, e)
  {
    assert AddAll(Heard(s, e), []) == Heard(s, e);
  }

  lemma ChunkEndTells(f: Steps, answer: Answer, p: Parser, s: Stream)
    requires IsMachine(f, answer) && p.state == ChunkDataAlmostDone && p.errno == Ok
    ensures Tells(f, p, s, [CR] + [LF], p.(state := ChunkSizeStart), Heard(s, OnChunkComplete))
  {
    var q, r := p.(state := ChunkDataDone), p.(state := ChunkSizeStart);
    ChunkCrTells(f, answer, p, s);
    ChunkLfTells(f, answer, q, s);
    TellsOn(f, p, s, [CR], q, s, [LF], r, Heard(s, OnChunkComplete));
  }

  lemma ChunkEndSteps(p: Parser, skip: bool)
    ensures p.state == ChunkDataAlmostDone ==> Step(p, CR, skip) == Flush(p, ChunkDataDone, Body)
    ensures p.state == ChunkDataDone ==> Step(p, LF, skip) == Tell(p, ChunkSizeStart, OnChunkComplete)
  {
    if p.state == ChunkDataAlmostDone {
      StepByState(p, CR, skip);
    } else if p.state == ChunkDataDone {
      StepByState(p, LF, skip);
    }
  }

  lemma ChunkCrTells(f: Steps, answer: Answer, p: Parser, s: Stream)
    requires IsMachine(f, answer) && p.state == ChunkDataAlmostDone && p.errno == Ok
    ensures Tells(f, p, s, [CR], p.(state := ChunkDataDone), s)
  {
    ChunkEndSteps(p, answer(s, p));
    SilentTells(f, answer, p, s, CR, p.(state := ChunkDataDone));
  }

  lemma ChunkLfTells(f: Steps, answer: Answer, p: Parser, s: Stream)
    requires IsMachine(f, answer) && p.state == ChunkDataDone && p.errno == Ok
    ensures Tells(f, p, s, [LF], p.(state := ChunkSizeStart), Heard(s, OnChunkComplete))
  {
    ChunkEndSteps(p, answer(s, p));
    AnnouncesTells(f, answer, p, s, LF, p.(state := ChunkSizeStart), [OnChunkComplete]);
    OneEvent(s, OnChunkComplete);
  }

  lemma ChunkTells(f: Steps, answer: Answer, p: Parser, s: Stream, c: Chunk)
    requires IsMachine(f, answer) && p.state == ChunkSizeStart && p.errno == Ok && !p.upgrade && ChunkOk(c)
    ensures |c.data| <= ULLONG_MAX
    ensures Tells(f, p, s, ChunkBytes(c), p.(contentLength := 0), ChunkHeard(s, c))
  {
    SizeLineTells(f, answer, p, s, c.size);
    var q, t := AfterSize(p, |c.data|), Heard(s, OnChunkHeader(|c.data|));
    var r, u := AfterData(q), DataHeard(q, t, c.data);
    DataTells(f, answer, q, t, c.data);
    ChunkEndTells(f, answer, r, u);
    TellsOn(f, q, t, c.data, r, u, [CR] + [LF], p.(contentLength := 0), ChunkHeard(s, c));
    assert c.data + ([CR] + [LF]) == c.data + [CR] + [LF];
    TellsOn(f, p, s, c.size + [CR] + [LF], q, t, c.data + [CR] + [LF], p.(contentLength := 0), ChunkHeard(s, c));
  }

  predicate ChunksOk(cs: seq<Chunk>) {
    forall i :: 0 <= i < |cs| ==> ChunkOk(cs[i]) && |cs[i].data| <= ULLONG_MAX
  }

  function AllChunkBytes(cs: seq<Chunk>): (d: seq<Byte>) {
    if cs == [] then [] else ChunkBytes(cs[0]) + AllChunkBytes(cs[1..])
  }

  function ChunksHeard(s: Stream, cs: seq<Chunk>): (t: Stream)
    requires ChunksOk(cs)
    decreases |cs|
  {
    if cs == [] then s else ChunksHeard(ChunkHeard(s, cs[0]), cs[1..])
  }

  /** All chunks are heard, in order. */
  lemma {:induction false} ChunksTell(f: Steps, answer: Answer, p: Parser, s: Stream, cs: seq<Chunk>)
    requires IsMachine(f, answer) && p.state == ChunkSizeStart && p.errno == Ok && !p.upgrade && ChunksOk(cs)
    ensures Tells(f, p, s, AllChunkBytes(cs), if cs == [] then p else p.(contentLength := 0), ChunksHeard(s, cs))
    decreases |cs|
  {
    if cs == [] {
      assert Run(f, p, s, [], 0) == Result(p, s, 0, false);
    } else {
      var q, t := p.(contentLength := 0), ChunkHeard(s, cs[0]);
      ChunkTells(f, answer, p, s, cs[0]);
      ChunksTell(f, answer, q, t, cs[1..]);
      TellsOn(f, p, s, ChunkBytes(cs[0]), q, t, AllChunkBytes(cs[1..]), q, ChunksHeard(t, cs[1..]));
    }
  }

  // ----- the last chunk -----

  const ZERO: Byte := 0x30

  /** The last chunk, and the headers after it. */
  function LastBytes(trailers: seq<Header>): (d: seq<Byte>) {
    [ZERO] + [CR] + [LF] + (Lines(trailers) + [CR] + [LF])
  }

  function LastHeard(s: Stream, trailers: seq<Header>): (t: Stream) {
    Heard(Heard(HeadersHeard(Heard(s, OnChunkHeader(0)), trailers), OnChunkComplete), OnMessageComplete)
  }

  lemma TrailingStep(p: Parser, skip: bool)
    requires p.state == HeadersAlmostDone && p.flags.trailing
    ensures Step(p, LF, skip) == After(OnChunkComplete, Complete(p, p.upgrade))
  {
    StepByState(p, LF, skip);
    HeaderByState(p, LF, skip);
  }

  lemma TwoEvents(s: Stream, a: Event, b: Event)
    requires !a.Data? && !b.Data?
    ensures AddAll(s, [a, b]) == Heard(Heard(s, a), b)
  {
    assert [a, b][1..] == [b];
    OneEvent(Heard(s, a), b);
  }

  lemma {:induction false} TrailingStays(flags: Flags, hs: seq<Header>)
    ensures AllSaid(flags, hs).trailing == flags.trailing && AllSaid(flags, hs).skipBody == flags.skipBody
    decreases |hs|
  {
    if hs != [] {
      TrailingStays(Said(flags, hs[0].name, hs[0].value), hs[1..]);
    }
  }

  lemma EndMarks(s: State)
    ensures s == Dead || s == StartReq || s == StartRes ==> Marked(s) == []
  {
  }

  /** The parser after a message that ended in p. */
  predicate Ended(p: Parser, q: Parser) {
    q == p.(state := q.state) && HttpStartLine.Goes(p.(state := q.state))
  }

  lemma TrailersEnd(f: Steps, answer: Answer, p: Parser, s: Stream) returns (q: Parser)
    requires IsMachine(f, answer) && p.state == HeadersAlmostDone && p.errno == Ok && p.flags.trailing && !p.upgrade
    ensures Tells(f, p, s, [LF], q, Heard(Heard(s, OnChunkComplete), OnMessageComplete)) && Ended(p, q)
  {
    TrailingStep(p, answer(s, p));
    q := Complete(p, false).p;
    CompleteGoes(p, false);
    EndMarks(q.state);
    AnnouncesTells(f, answer, p, s, LF, q, [OnChunkComplete, OnMessageComplete]);
    TwoEvents(s, OnChunkComplete, OnMessageComplete);
  }

  lemma ZeroFits()
    ensures SizeFits([ZERO]) && Hex([ZERO]) == 0
  {
    HexLast([ZERO], 0);
    assert [ZERO][..0] == [] && [ZERO][..1] == [ZERO];
  }

  lemma LastTells(f: Steps, answer: Answer, p: Parser, s: Stream, trailers: seq<Header>) returns (r: Parser, q: Parser)
    requires IsMachine(f, answer) && p.state == ChunkSizeStart && p.errno == Ok && !p.upgrade && HeadersOk(trailers)
    ensures Tells(f, p, s, LastBytes(trailers), q, LastHeard(s, trailers)) && Ended(r, q)
    ensures AfterLines(AfterSize(p, 0), r, trailers)
  {
    ZeroFits();
    SizeLineTells(f, answer, p, s, [ZERO]);
    var o, t := AfterSize(p, 0), Heard(s, OnChunkHeader(0));
    var u := HeadersHeard(t, trailers);
    r := LinesTell(f, answer, o, t, trailers);
    TrailingStays(o.flags, trailers);
    q := TrailersEnd(f, answer, r, u);
    TellsOn(f, o, t, Lines(trailers) + [CR], r, u, [LF], q, LastHeard(s, trailers));
    TellsOn(f, p, s, [ZERO] + [CR] + [LF], o, t, Lines(trailers) + [CR] + [LF], q, LastHeard(s, trailers));
  }
}
