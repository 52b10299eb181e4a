/**
 What an application may rely on when it hears a message: chunks and bodies are as long as was
 announced, every chunk is completed, and a message is complete only when its body is.
 */
module HttpFraming {
  import opened Numbers
  import opened HttpModel
  import opened HttpRun
  import opened HttpCalls
  import opened HttpParser
  import opened HttpFragments

  /** How far the body of a message goes. */
  datatype Extent = NoBody | Counted(length: UInt64) | InChunks | UntilEnd

  /** No response with this status has a body. */
  predicate Bodiless(statusCode: nat) {
    statusCode / 100 == 1 || statusCode == 204 || statusCode == 304
  }

  /** The body that a message with this head has, skip being the application's answer (section 4.4 of
      RFC 2616). What follows an upgrade without a body is in another protocol. */
  function BodyOf(h: MessageHead, skip: bool): (x: Extent) {
    if skip || h.flags.skipBody || (h.upgrade && h.meth == Connect) then NoBody
    else if h.flags.chunked then InChunks
    else if h.length != ULLONG_MAX then if h.length == 0 then NoBody else Counted(h.length)
    else if h.typ == Request || h.upgrade || Bodiless(h.statusCode) then NoBody
    else UntilEnd
  }

  /** Where in a message a stream of notifications ends. */
  datatype Frame =
    | Idle
    | InHead                              // start line and headers
    | Start(body: Extent)                 // nothing of the body yet
    | Identity(length: UInt64, got: nat)
    | ToEof
    | Chunks                              // after a chunk
    | Chunk(length: UInt64, got: nat)
    | LastChunk                           // trailing headers
    | ChunksDone
    | Closed                              // the end of the connection completed the message
    | Wrong

  function NextBody(fr: Frame, n: nat): (r: Frame) {
    if fr == Start(UntilEnd) then ToEof
    else if fr.Start? && fr.body.Counted? && n <= fr.body.length then Identity(fr.body.length, n)
    else if fr.Chunk? && fr.got == 0 && n <= fr.length then Chunk(fr.length, n)
    else Wrong
  }

  function NextComplete(fr: Frame): (r: Frame) {
    if fr == Start(NoBody) || (fr.Identity? && fr.got == fr.length) || fr == ChunksDone then Idle
    else if fr == Start(UntilEnd) || fr == ToEof then Closed
    else Wrong
  }

  function Next(fr: Frame, e: Event): (r: Frame) {
    match e
    case Data(Body, b) => NextBody(fr, |b|)
    case Data(_, _) => if fr.InHead? || fr.LastChunk? then fr else Wrong
    case OnMessageBegin => if fr.Idle? || fr.InHead? then InHead else Wrong
    case OnHeadersComplete(head, skip) => if fr.InHead? then Start(BodyOf(head, skip)) else Wrong
    case OnChunkHeader(size) =>
      if fr == Start(InChunks) || fr == Chunks then if size == 0 then LastChunk else Chunk(size, 0) else Wrong
    case OnChunkComplete =>
      if fr.LastChunk? then ChunksDone else if fr.Chunk? && fr.got == fr.length then Chunks else Wrong
    case OnMessageComplete => NextComplete(fr)
  }

  function FrameOf(s: Stream): (fr: Frame) {
    match s case Silence => Idle case Heard(past, e) => Next(FrameOf(past), e)
  }

  function NextAll(fr: Frame, es: seq<Event>): (r: Frame)
    decreases |es|
  {
    if es == [] then fr else NextAll(Next(fr, es[0]), es[1..])
  }

  /** One more byte of a body. */
  function Grow(fr: Frame): (r: Frame) {
    match fr
    case Identity(length, got) => if got + 1 <= length then Identity(length, got + 1) else Wrong
    case ToEof => ToEof
    case Chunk(length, got) => if got + 1 <= length then Chunk(length, got + 1) else Wrong
    case _ => NextBody(fr, 1)
  }

  predicate IsBody(e: Event) {
    e.Data? && e.kind == Body
  }

  lemma AddFrame(s: Stream, e: Event)
    requires !IsBody(e)
    ensures FrameOf(Add(s, e)) == Next(FrameOf(s), e)
  {
  }

  lemma {:induction false} AddAllFrame(s: Stream, es: seq<Event>)
    requires forall e :: e in es ==> !IsBody(e)
    ensures FrameOf(AddAll(s, es)) == NextAll(FrameOf(s), es)
    decreases |es|
  {
    if es != [] {
      AddFrame(s, es[0]);
      AddAllFrame(Add(s, es[0]), es[1..]);
    }
  }

  lemma NextOne(fr: Frame, e: Event)
    ensures NextAll(fr, [e]) == Next(fr, e)
  {
    assert [e][1..] == [];
  }

  lemma NextTwo(fr: Frame, e: Event, es: seq<Event>)
    ensures NextAll(fr, [e] + es) == NextAll(Next(fr, e), es)
  {
    assert ([e] + es)[1..] == es;
  }

  lemma GrowFrame(s: Stream, ch: Byte)
    requires FrameOf(s) != Wrong
    ensures FrameOf(Add(s, Data(Body, [ch]))) == Grow(FrameOf(s))
  {
    if s.Heard? && IsBody(s.e) {
      assert |s.e.bytes + [ch]| == |s.e.bytes| + 1;
    }
  }

  // ----- the parser's fields, and what was heard -----

  /** The frame that the fields of the parser stand for. */
  predicate Fits(p: Parser, fr: Frame) {
    match GroupOf(p.state)
    case AtEnd => fr == Idle
    case AtStart =>
      if p.state == ResOrRespH then fr == InHead && !p.flags.trailing
      else fr == Idle || (p.state == StartRes && fr == InHead)
    case AtHeader => fr == if p.flags.trailing then LastChunk else InHead
    case AtBody => FitsBody(p, fr)
    case _ => fr == InHead && !p.flags.trailing
  }

  predicate FitsBody(p: Parser, fr: Frame) {
    match p.state
    case ChunkData => !p.flags.trailing && fr.Chunk? && p.contentLength == fr.length - fr.got
    case ChunkDataAlmostDone => !p.flags.trailing && fr.Chunk? && fr.length == fr.got
    case ChunkDataDone => !p.flags.trailing && fr.Chunk? && fr.length == fr.got
    case BodyIdentity =>
      fr == Start(Counted(p.contentLength)) || (fr.Identity? && p.contentLength == fr.length - fr.got)
    case BodyIdentityEof => fr == ToEof || fr == Start(UntilEnd)
    case MessageDone => false
    case _ => !p.flags.trailing && (fr == Chunks || fr == Start(InChunks))
  }

  /** The frame after a byte that is read in state before. */
  function HearFrame(fr: Frame, before: State, o: Outcome): (r: Frame) {
    if o.p.errno != Ok then NextAll(fr, o.tells)
    else if ReadsBody(before) then NextAll(Grow(fr), o.tells)
    else
      var g := NextAll(fr, o.tells);
      if Marked(o.p.state) == [] then g else Next(g, Data(Marked(o.p.state)[0], []))
  }

  // Always true. Mentioning it opens Framed for o.
  ghost predicate Opens(x: nat, o: Outcome) {
    true
  }

  /** A byte that o describes keeps the notifications in order, and the fields in step with them. */
  ghost predicate Framed(fr: Frame, before: State, o: Outcome) {
    forall x: nat :: Opens(x, o) ==> InFrame(fr, before, o)
  }

  ghost predicate InFrame(fr: Frame, before: State, o: Outcome) {
    && (forall e :: e in o.tells ==> !IsBody(e))
    && HearFrame(fr, before, o) != Wrong
    && (o.p.errno == Ok ==> Fits(o.p, HearFrame(fr, before, o)))
  }

  lemma HearBodyFrame(s: Stream, ch: Byte, es: seq<Event>)
    requires FrameOf(s) != Wrong && forall e :: e in es ==> !IsBody(e)
    ensures FrameOf(AddAll(Add(s, Data(Body, [ch])), es)) == NextAll(Grow(FrameOf(s)), es)
  {
    GrowFrame(s, ch);
    AddAllFrame(Add(s, Data(Body, [ch])), es);
  }

  lemma HearMarkedFrame(s: Stream, kind: seq<DataKind>, ch: Byte)
    requires kind != [Body] && |kind| <= 1
    ensures FrameOf(AddByte(s, kind, ch)) == if kind == [] then FrameOf(s) else Next(FrameOf(s), Data(kind[0], []))
  {
    if kind != [] {
      AddFrame(s, Data(kind[0], [ch]));
    }
  }

  lemma HearFrames(s: Stream, before: State, ch: Byte, o: Outcome)
    requires FrameOf(s) != Wrong && forall e :: e in o.tells ==> !IsBody(e)
    ensures FrameOf(Hear(s, before, ch, o)) == HearFrame(FrameOf(s), before, o)
  {
    AddAllFrame(s, o.tells);
    HearBodyFrame(s, ch, o.tells);
    HearMarkedFrame(AddAll(s, o.tells), Marked(o.p.state), ch);
  }

  /** A byte of the start line or of a header that nothing is told of. */
  predicate Quiet(fr: Frame, o: Outcome) {
    o.tells == [] && (fr == InHead || fr == LastChunk) && (o.p.errno == Ok ==> Fits(o.p, fr))
  }

  lemma QuietFramed(fr: Frame, before: State, o: Outcome)
    requires Quiet(fr, o) && !ReadsBody(before)
    ensures Framed(fr, before, o)
  {
    assert Marked(o.p.state) != [Body];
  }

  lemma StartFramed(p: Parser, ch: Byte, fr: Frame)
    requires Sound(p) && GroupOf(p.state) == AtStart && Fits(p, fr)
    ensures Framed(fr, p.state, StepStart(p, ch))
  {
    NextOne(fr, OnMessageBegin);
    assert !ReadsBody(p.state) && fr != Wrong;
  }

  /** A byte of the start line, or of the headers, after another one. */
  predicate OnLine(p: Parser, o: Outcome) {
    && o.tells == []
    && (o.p.errno == Ok ==>
      && o.p.flags.trailing == p.flags.trailing
      && (|| GroupOf(o.p.state) == AtHeader
          || (!p.flags.trailing && GroupOf(o.p.state) in {AtStatusLine, AtMethod, AtUrl, AtRequestLine})))
  }

  lemma OnLineQuiet(p: Parser, fr: Frame, o: Outcome)
    requires OnLine(p, o) && fr == if p.flags.trailing then LastChunk else InHead
    ensures Quiet(fr, o)
  {
  }

  lemma StatusLineFramed(p: Parser, ch: Byte, fr: Frame)
    requires Sound(p) && GroupOf(p.state) == AtStatusLine && Fits(p, fr)
    ensures Quiet(fr, StepStatusLine(p, ch))
  {
    OnLineQuiet(p, fr, StepStatusLine(p, ch));
  }

  lemma MethodFramed(p: Parser, ch: Byte, fr: Frame)
    requires Sound(p) && GroupOf(p.state) == AtMethod && Fits(p, fr)
    ensures Quiet(fr, StepMethod(p, ch))
  {
  }

  lemma UrlFramed(p: Parser, ch: Byte, fr: Frame)
    requires Sound(p) && GroupOf(p.state) == AtUrl && Fits(p, fr)
    ensures Quiet(fr, StepUrl(p, ch))
  {
    if p.state == ReqSpacesBeforeUrl {
      UrlStates(if p.meth == Connect then ReqServerStart else ReqSpacesBeforeUrl, ch);
    } else {
      UrlStates(p.state, ch);
    }
  }

  lemma RequestLineFramed(p: Parser, ch: Byte, fr: Frame)
    requires Sound(p) && GroupOf(p.state) == AtRequestLine && Fits(p, fr)
    ensures Quiet(fr, StepRequestLine(p, ch))
  {
    OnLineQuiet(p, fr, StepRequestLine(p, ch));
  }

  lemma CompleteFramed(p: Parser, leave: bool, fr: Frame)
    requires p.errno == Ok && NextComplete(fr) == Idle
    ensures var o := Complete(p, leave);
            && o.p.errno == Ok
            && o.tells == [OnMessageComplete]
            && Marked(o.p.state) == []
            && NextAll(fr, o.tells) == Idle
            && Fits(o.p, Idle)
  {
    NextOne(fr, OnMessageComplete);
  }

  /** A byte that nothing is told of, of a body or between chunks. */
  lemma SilentFramed(fr: Frame, before: State, o: Outcome)
    requires o.tells == [] && fr != Wrong && (o.p.errno == Ok ==> Marked(o.p.state) == [])
    requires if ReadsBody(before) then o.p.errno == Ok && Grow(fr) != Wrong && Fits(o.p, Grow(fr))
             else o.p.errno == Ok ==> Fits(o.p, fr)
    ensures Framed(fr, before, o)
  {
  }

  /** A byte that completes something. */
  lemma ToldFramed(fr: Frame, before: State, o: Outcome, e: Event)
    requires o.tells == [e] && !IsBody(e) && o.p.errno == Ok && Marked(o.p.state) == []
    requires var g := Next(if ReadsBody(before) then Grow(fr) else fr, e); g != Wrong && Fits(o.p, g)
    ensures Framed(fr, before, o)
  {
    NextOne(if ReadsBody(before) then Grow(fr) else fr, e);
  }

  lemma IdentityFramed(p: Parser, ch: Byte, fr: Frame)
    requires Sound(p) && p.state == BodyIdentity && Fits(p, fr)
    ensures Framed(fr, BodyIdentity, StepBody(p, ch))
  {
    var o := StepBody(p, ch);
    if p.contentLength == 1 {
      CompleteFramed(p.(contentLength := 0, state := MessageDone), p.upgrade, Grow(fr));
      ToldFramed(fr, BodyIdentity, o, OnMessageComplete);
    } else {
      SilentFramed(fr, BodyIdentity, o);
    }
  }

  lemma EofFramed(p: Parser, ch: Byte, fr: Frame)
    requires Sound(p) && p.state == BodyIdentityEof && Fits(p, fr)
    ensures Framed(fr, BodyIdentityEof, StepBody(p, ch))
  {
    SilentFramed(fr, BodyIdentityEof, Go(p, BodyIdentityEof));
  }

  lemma ChunkDataFramed(p: Parser, ch: Byte, fr: Frame)
    requires Sound(p) && p.state == ChunkData && Fits(p, fr)
    ensures Framed(fr, ChunkData, StepBody(p, ch))
  {
    ChunkDataStep(p, ch);
    SilentFramed(fr, ChunkData, StepBody(p, ch));
  }

  /** Before a chunk, nothing of it is heard. */
  predicate Between(p: Parser) {
    p.state == ChunkSizeStart || p.state == ChunkSize || p.state == ChunkParameters || p.state == ChunkSizeAlmostDone
  }

  lemma BetweenFits(p: Parser, fr: Frame)
    requires Between(p)
    ensures Marked(p.state) == [] && !ReadsBody(p.state)
    ensures Fits(p, fr) <==> !p.flags.trailing && (fr == Chunks || fr == Start(InChunks))
  {
  }

  lemma SizeStep(p: Parser, ch: Byte)
    requires Between(p) && p.state != ChunkSizeAlmostDone && p.errno == Ok
    ensures var o := StepBody(p, ch); o.tells == [] && (o.p.errno == Ok ==> Between(o.p) && o.p.flags == p.flags)
  {
  }

  lemma ChunkStartFramed(p: Parser, ch: Byte, fr: Frame)
    requires Sound(p) && p.state == ChunkSizeAlmostDone && Fits(p, fr)
    ensures Framed(fr, ChunkSizeAlmostDone, StepBody(p, ch))
  {
    BetweenFits(p, fr);
    if ch != LF {
      SilentFramed(fr, ChunkSizeAlmostDone, Fail(p, Strict));
    } else if p.contentLength == 0 {
      ChunkBegins(p.(flags := p.flags.(trailing := true)), HeaderFieldStart, fr);
    } else {
      ChunkBegins(p, ChunkData, fr);
    }
  }

  lemma ChunkBegins(p: Parser, s: State, fr: Frame)
    requires p.errno == Ok && (fr == Chunks || fr == Start(InChunks))
    requires if p.contentLength == 0 then s == HeaderFieldStart && p.flags.trailing
             else s == ChunkData && !p.flags.trailing
    ensures Framed(fr, ChunkSizeAlmostDone, Tell(p, s, OnChunkHeader(p.contentLength)))
  {
    ToldFramed(fr, ChunkSizeAlmostDone, Tell(p, s, OnChunkHeader(p.contentLength)), OnChunkHeader(p.contentLength));
  }

  lemma ChunkEndFramed(p: Parser, ch: Byte, fr: Frame)
    requires Sound(p) && p.state == ChunkDataDone && Fits(p, fr)
    ensures Framed(fr, ChunkDataDone, StepBody(p, ch))
  {
    if ch == LF {
      ToldFramed(fr, ChunkDataDone, StepBody(p, ch), OnChunkComplete);
    } else {
      SilentFramed(fr, ChunkDataDone, StepBody(p, ch));
    }
  }

  lemma SizeFramed(p: Parser, ch: Byte, fr: Frame)
    requires Sound(p) && Between(p) && p.state != ChunkSizeAlmostDone && Fits(p, fr)
    ensures Framed(fr, p.state, StepBody(p, ch))
  {
    var o := StepBody(p, ch);
    SizeStep(p, ch);
    BetweenFits(p, fr);
    if o.p.errno == Ok {
      BetweenFits(o.p, fr);
    }
    SilentFramed(fr, p.state, o);
  }

  lemma ChunkFramed(p: Parser, ch: Byte, fr: Frame)
    requires Sound(p) && p.state == ChunkDataAlmostDone && Fits(p, fr)
    ensures Framed(fr, p.state, StepBody(p, ch))
  {
    SilentFramed(fr, p.state, StepBody(p, ch));
  }

  // ----- headers -----

  /** Told by StepHeadersDone: nothing, or that the message is complete. */
  predicate DoneFrames(fr: Frame, o: Outcome) {
    && o.p.errno == Ok
    && Marked(o.p.state) == []
    && (|| (o.tells == [] && Fits(o.p, fr))
        || (o.tells == [OnMessageComplete] && NextAll(fr, o.tells) == Idle && Fits(o.p, Idle)))
  }

  /** Where the parser goes for the body that the headers announce. */
  lemma HeadersDoneIs(p: Parser)
    ensures var x, o := BodyOf(HeadOf(p), false), StepHeadersDone(p);
            match x
            case NoBody => o == Complete(p, true) || o == Complete(p, false)
            case InChunks => o == Go(p, ChunkSizeStart)
            case Counted(n) => n == p.contentLength && o == Go(p, BodyIdentity)
            case UntilEnd => o == Go(p, BodyIdentityEof)
  {
  }

  lemma BodyStarts(p: Parser, s: State, x: Extent)
    requires p.errno == Ok && !p.flags.trailing
    requires (s == ChunkSizeStart && x == InChunks) || (s == BodyIdentity && x == Counted(p.contentLength))
             || (s == BodyIdentityEof && x == UntilEnd)
    ensures DoneFrames(Start(x), Go(p, s))
  {
  }

  lemma HeadersDoneFramed(p: Parser, fr: Frame)
    requires p.errno == Ok && !p.flags.trailing && fr == Start(BodyOf(HeadOf(p), false))
    ensures DoneFrames(fr, StepHeadersDone(p))
  {
    HeadersDoneIs(p);
    match BodyOf(HeadOf(p), false)
    case NoBody =>
      CompleteFramed(p, true, fr);
      CompleteFramed(p, false, fr);
    case InChunks => BodyStarts(p, ChunkSizeStart, InChunks);
    case Counted(n) => BodyStarts(p, BodyIdentity, Counted(n));
    case UntilEnd => BodyStarts(p, BodyIdentityEof, UntilEnd);
  }

  /** The last line end, in any state of the headers. */
  lemma HeadersEndFramed(p: Parser, ch: Byte, skip: bool, fr: Frame)
    requires p.errno == Ok && fr == if p.flags.trailing then LastChunk else InHead
    ensures var o := StepHeadersAlmostDone(p, ch, skip);
            && NextAll(fr, o.tells) != Wrong && (forall e :: e in o.tells ==> !IsBody(e))
            && (o.p.errno == Ok ==> Marked(o.p.state) == [] && Fits(o.p, NextAll(fr, o.tells)))
  {
    if ch == LF {
      if p.flags.trailing {
        CompleteFramed(p, p.upgrade, ChunksDone);
        NextTwo(fr, OnChunkComplete, [OnMessageComplete]);
      } else {
        var q := p.(state := HeadersDone,
                    upgrade := (p.flags.upgrade && p.flags.connectionUpgrade) || p.meth == Connect);
        var r := if skip then q.(flags := q.flags.(skipBody := true)) else q;
        HeadersDoneFramed(r, Start(BodyOf(HeadOf(q), skip)));
        NextTwo(fr, OnHeadersComplete(HeadOf(q), skip), StepHeadersDone(r).tells);
      }
    }
  }

  lemma FieldStartFramed(p: Parser, ch: Byte, skip: bool, fr: Frame)
    requires p.errno == Ok && fr == if p.flags.trailing then LastChunk else InHead
    ensures var o := StepHeaderFieldStart(p, ch, skip);
            && NextAll(fr, o.tells) != Wrong && (forall e :: e in o.tells ==> !IsBody(e))
            && (o.p.errno == Ok ==>
                  && Fits(o.p, NextAll(fr, o.tells))
                  && (Marked(o.p.state) != [] ==> o.tells == [] && Marked(o.p.state) == [Field]))
  {
    if ch == LF {
      HeadersEndFramed(p.(state := HeadersAlmostDone), ch, skip, fr);
    }
  }

  lemma FinishedFlags(p: Parser)
    ensures Finished(p) == p.(flags := Finished(p).flags)
  {
  }

  lemma FinishedTrailing(p: Parser)
    ensures var q := Finished(p); q.flags.trailing == p.flags.trailing && q.errno == p.errno && q.state == p.state
  {
    FinishedFlags(p);
    if p.headerState == HConnectionKeepAlive {
      assert Finished(p) == p.(flags := p.flags.(keepAlive := true));
    }
  }

  lemma FieldByteTrailing(p: Parser, ch: Byte, c: Byte)
    ensures var q := FieldByte(p, ch, c); q.flags == p.flags && q.errno == p.errno
  {
  }

  lemma ValueByteTrailing(p: Parser, ch: Byte)
    ensures ValueByte(p, ch).flags.trailing == p.flags.trailing
  {
    FinishedTrailing(p);
  }

  lemma ValueStartTrailing(p: Parser, ch: Byte)
    ensures var o := StepHeaderValueStart(p, ch);
            o.p.flags.trailing == p.flags.trailing && o.p.state == HeaderValue && o.tells == []
  {
  }

  lemma FieldFramed(p: Parser, ch: Byte, fr: Frame)
    requires p.errno == Ok && p.state == HeaderField && Fits(p, fr)
    ensures Quiet(fr, StepHeaderField(p, ch))
  {
    FieldByteTrailing(p, ch, Token(ch));
  }

  lemma ValueFramed(p: Parser, ch: Byte, fr: Frame)
    requires p.errno == Ok && p.state == HeaderValue && Fits(p, fr)
    ensures Quiet(fr, StepHeaderValue(p, ch))
  {
    if ch == CR || ch == LF {
      FlushFramed(p, fr, if ch == CR then HeaderAlmostDone else HeaderValueLws, Value);
    } else {
      ValueByteTrailing(p, ch);
      StaysFramed(ValueByte(p, ch), fr, HeaderValue);
    }
  }

  lemma StaysFramed(q: Parser, fr: Frame, s: State)
    requires fr == (if q.flags.trailing then LastChunk else InHead) && GroupOf(s) == AtHeader
    ensures Quiet(fr, Go(q, s))
  {
  }

  lemma FlushFramed(p: Parser, fr: Frame, s: State, k: DataKind)
    requires fr == (if p.flags.trailing then LastChunk else InHead) && GroupOf(s) == AtHeader
    ensures Quiet(fr, Flush(p, s, k))
  {
  }

  lemma NextHeaderFramed(p: Parser, ch: Byte, skip: bool, fr: Frame)
    requires p.errno == Ok && GroupOf(p.state) == AtHeader && Fits(p, fr)
    ensures Framed(fr, HeaderValueStart, StepNextHeader(p, ch, skip))
    ensures Framed(fr, HeaderValueStart, After(Data(Value, []), StepNextHeader(p, ch, skip)))
  {
    FinishedTrailing(p);
    FieldStartBoth(Finished(p).(state := HeaderFieldStart), ch, skip, fr);
  }

  lemma FieldStartBoth(q: Parser, ch: Byte, skip: bool, fr: Frame)
    requires q.errno == Ok && fr == if q.flags.trailing then LastChunk else InHead
    ensures Framed(fr, HeaderValueStart, StepHeaderFieldStart(q, ch, skip))
    ensures Framed(fr, HeaderValueStart, After(Data(Value, []), StepHeaderFieldStart(q, ch, skip)))
  {
    FieldStartFramed(q, ch, skip, fr);
    NextTwo(fr, Data(Value, []), StepHeaderFieldStart(q, ch, skip).tells);
  }

  lemma ValueStartFramed(p: Parser, ch: Byte, fr: Frame)
    requires p.errno == Ok && fr == (if p.flags.trailing then LastChunk else InHead)
    ensures Quiet(fr, StepHeaderValueStart(p, ch))
  {
    ValueStartTrailing(p, ch);
  }

  lemma GoFramed(p: Parser, fr: Frame, s: State)
    requires p.errno == Ok && fr == (if p.flags.trailing then LastChunk else InHead) && GroupOf(s) == AtHeader
    ensures Quiet(fr, Go(p, s)) && Quiet(fr, Fail(p, Strict))
  {
  }

  lemma FoldFramed(p: Parser, ch: Byte, skip: bool, fr: Frame)
    requires p.errno == Ok && p.state == HeaderValueLws && Fits(p, fr)
    ensures Framed(fr, HeaderValueStart, StepValueLine(p, ch, skip))
  {
    FoldIs(p, ch, skip);
    NextHeaderFramed(p, ch, skip, fr);
    ValueStartFramed(p, ch, fr);
    QuietFramed(fr, HeaderValueStart, StepHeaderValueStart(p, ch));
  }

  lemma EmptyFoldFramed(p: Parser, ch: Byte, skip: bool, fr: Frame)
    requires p.errno == Ok && p.state == HeaderValueDiscardLws && Fits(p, fr)
    ensures Framed(fr, HeaderValueStart, StepValueLine(p, ch, skip))
  {
    EmptyFoldIs(p, ch, skip);
    if ch == SP || ch == HT {
      GoFramed(p, fr, HeaderValueDiscardWs);
      QuietFramed(fr, HeaderValueStart, Go(p, HeaderValueDiscardWs));
    } else {
      NextHeaderFramed(p, ch, skip, fr);
    }
  }

  lemma DiscardFramed(p: Parser, ch: Byte, fr: Frame, o: Outcome)
    requires p.errno == Ok && fr == if p.flags.trailing then LastChunk else InHead
    requires o == if ch == SP || ch == HT then Go(p, HeaderValueDiscardWs)
                  else if ch == CR then Go(p, HeaderValueDiscardWsAlmostDone)
                  else if ch == LF then Go(p, HeaderValueDiscardLws)
                  else StepHeaderValueStart(p, ch)
    ensures Quiet(fr, o)
  {
    if ch == SP || ch == HT {
      GoFramed(p, fr, HeaderValueDiscardWs);
    } else if ch == CR {
      GoFramed(p, fr, HeaderValueDiscardWsAlmostDone);
    } else if ch == LF {
      GoFramed(p, fr, HeaderValueDiscardLws);
    } else {
      ValueStartFramed(p, ch, fr);
    }
  }

  lemma LineEndFramed(p: Parser, ch: Byte, skip: bool, fr: Frame, o: Outcome)
    requires p.errno == Ok && (p.state == HeaderAlmostDone || p.state == HeaderValueDiscardWsAlmostDone)
    requires fr == (if p.flags.trailing then LastChunk else InHead) && o == StepValueLine(p, ch, skip)
    ensures Quiet(fr, o)
  {
    LineEndStep(p, ch, skip);
    GoFramed(p, fr, if p.state == HeaderAlmostDone then HeaderValueLws else HeaderValueDiscardLws);
  }

  lemma ValueLineFramed(p: Parser, ch: Byte, skip: bool, fr: Frame, o: Outcome)
    requires Sound(p) && GroupOf(p.state) == AtHeader && Fits(p, fr) && o == StepValueLine(p, ch, skip)
    requires p.state != HeaderField && p.state != HeaderFieldStart && p.state != HeadersAlmostDone
    requires p.state != HeaderValue
    ensures Framed(fr, HeaderValueStart, o)
  {
    if p.state == HeaderValueLws {
      FoldFramed(p, ch, skip, fr);
    } else if p.state == HeaderValueDiscardLws {
      EmptyFoldFramed(p, ch, skip, fr);
    } else {
      if p.state == HeaderValueDiscardWs {
        DiscardIs(p, ch, skip);
        DiscardFramed(p, ch, fr, o);
      } else {
        LineEndFramed(p, ch, skip, fr, o);
      }
      QuietFramed(fr, HeaderValueStart, o);
    }
  }

  lemma FieldStartState(p: Parser, ch: Byte, skip: bool, fr: Frame)
    requires p.errno == Ok && p.state == HeaderFieldStart && Fits(p, fr)
    ensures Framed(fr, HeaderValueStart, StepHeaderFieldStart(p, ch, skip))
  {
    FieldStartBoth(p, ch, skip, fr);
  }

  lemma HeadersEndState(p: Parser, ch: Byte, skip: bool, fr: Frame)
    requires p.errno == Ok && p.state == HeadersAlmostDone && Fits(p, fr)
    ensures Framed(fr, HeaderValueStart, StepHeadersAlmostDone(p, ch, skip))
  {
    HeadersEndFramed(p, ch, skip, fr);
  }

  /** No state of the headers reads a body. */
  lemma HeaderFramed(p: Parser, ch: Byte, skip: bool, fr: Frame, o: Outcome)
    requires Sound(p) && GroupOf(p.state) == AtHeader && Fits(p, fr) && o == StepHeader(p, ch, skip)
    ensures Framed(fr, HeaderValueStart, o)
  {
    HeaderByState(p, ch, skip);
    if p.state == HeaderFieldStart {
      FieldStartState(p, ch, skip, fr);
    } else if p.state == HeaderField {
      FieldFramed(p, ch, fr);
      QuietFramed(fr, HeaderValueStart, o);
    } else if p.state == HeaderValue {
      ValueFramed(p, ch, fr);
      QuietFramed(fr, HeaderValueStart, o);
    } else if p.state == HeadersAlmostDone {
      HeadersEndState(p, ch, skip, fr);
    } else {
      ValueLineFramed(p, ch, skip, fr, o);
    }
  }

  lemma BodyFramed(p: Parser, ch: Byte, fr: Frame)
    requires Sound(p) && GroupOf(p.state) == AtBody && Fits(p, fr)
    ensures Framed(fr, p.state, StepBody(p, ch))
  {
    if p.state == BodyIdentity {
      IdentityFramed(p, ch, fr);
    } else if p.state == BodyIdentityEof {
      EofFramed(p, ch, fr);
    } else if p.state == ChunkData {
      ChunkDataFramed(p, ch, fr);
    } else if p.state == ChunkSizeAlmostDone {
      ChunkStartFramed(p, ch, fr);
    } else if p.state == ChunkDataDone {
      ChunkEndFramed(p, ch, fr);
    } else if p.state != ChunkDataAlmostDone {
      SizeFramed(p, ch, fr);
    } else {
      ChunkFramed(p, ch, fr);
    }
  }

  lemma EndFramed(p: Parser, ch: Byte, skip: bool)
    requires p.errno == Ok && p.state == Dead
    ensures Framed(Idle, Dead, Step(p, ch, skip))
  {
  }

  lemma ElsewhereFramed(fr: Frame, before: State, o: Outcome)
    requires Framed(fr, HeaderValueStart, o) && !ReadsBody(before)
    ensures Framed(fr, before, o)
  {
    assert Opens(0, o);
  }

  lemma LineFramed(p: Parser, ch: Byte, fr: Frame, o: Outcome)
    requires Sound(p) && Fits(p, fr)
    requires match GroupOf(p.state)
             case AtStatusLine => o == StepStatusLine(p, ch)
             case AtMethod => o == StepMethod(p, ch)
             case AtUrl => o == StepUrl(p, ch)
             case AtRequestLine => o == StepRequestLine(p, ch)
             case _ => false
    ensures Quiet(fr, o)
  {
    match GroupOf(p.state)
    case AtStatusLine => StatusLineFramed(p, ch, fr);
    case AtMethod => MethodFramed(p, ch, fr);
    case AtUrl => UrlFramed(p, ch, fr);
    case _ => RequestLineFramed(p, ch, fr);
  }

  lemma StepFramed(p: Parser, ch: Byte, skip: bool, fr: Frame, o: Outcome)
    requires WellFormed(p) && Fits(p, fr) && o == Step(p, ch, skip)
    ensures Framed(fr, p.state, o)
  {
    assert HttpModel.Expand(0);
    StepByState(p, ch, skip);
    var g := GroupOf(p.state);
    if g == AtEnd {
      EndFramed(p, ch, skip);
    } else if g == AtStart {
      StartFramed(p, ch, fr);
    } else if g == AtHeader {
      HeaderFramed(p, ch, skip, fr, o);
      ElsewhereFramed(fr, p.state, o);
    } else if g == AtBody {
      BodyFramed(p, ch, fr);
    } else {
      LineFramed(p, ch, fr, o);
      QuietFramed(fr, p.state, o);
    }
  }

  // ----- runs -----

  /** The notifications are in order, and the fields in step with them. */
  predicate InStep(p: Parser, s: Stream) {
    FrameOf(s) != Wrong && (p.errno == Ok ==> Fits(p, FrameOf(s)))
  }

  ghost predicate FramesAt(f: Steps, s: Stream, p: Parser, ch: Byte) {
    WellFormed(p) && Fits(p, FrameOf(s)) && FrameOf(s) != Wrong ==> Framed(FrameOf(s), p.state, f(s, p, ch))
  }

  /** Every byte keeps the notifications in order, and the fields in step with them. */
  ghost predicate Frames(f: Steps) {
    forall s, p, ch :: FramesAt(f, s, p, ch)
  }

  lemma MachineFrames(f: Steps, answer: Answer)
    requires IsMachine(f, answer)
    ensures Frames(f)
  {
    forall s, p, ch ensures FramesAt(f, s, p, ch) {
      if WellFormed(p) && Fits(p, FrameOf(s)) && FrameOf(s) != Wrong {
        AtByte(f, answer, s, p, ch);
        StepFramed(p, ch, answer(s, p), FrameOf(s), f(s, p, ch));
      }
    }
  }

  lemma ByteInStep(f: Steps, p: Parser, s: Stream, ch: Byte)
    requires Frames(f) && WellFormed(p) && Fits(p, FrameOf(s)) && FrameOf(s) != Wrong
    ensures InStep(f(s, p, ch).p, Hear(s, p.state, ch, f(s, p, ch)))
  {
    var o := f(s, p, ch);
    assert FramesAt(f, s, p, ch);
    assert Opens(0, o);
    HearFrames(s, p.state, ch, o);
  }

  /** Every run keeps the notifications in order: chunks and bodies have the length that was announced,
      and a message is complete only when its body is. */
  lemma {:induction false} RunInStep(f: Steps, p: Parser, s: Stream, data: seq<Byte>, i: nat)
    requires Orderly(f) && Frames(f) && WellFormed(p) && InStep(p, s) && i <= |data|
    ensures var r := Run(f, p, s, data, i); InStep(r.p, r.s)
    decreases |data| - i
  {
    WellFormedOk(p);
    if i < |data| {
      var o := f(s, p, data[i]);
      ByteInStep(f, p, s, data[i]);
      if o.p.errno == Ok && !o.leave {
        Steady(f, s, p, data[i]);
        RunInStep(f, o.p, Hear(s, p.state, data[i], o), data, i + 1);
      }
    }
  }

  // ----- what order means -----

  function ChunkHeaders(s: Stream): (n: nat) {
    match s case Silence => 0 case Heard(past, e) => ChunkHeaders(past) + if e.OnChunkHeader? then 1 else 0
  }

  function ChunkCompletes(s: Stream): (n: nat) {
    match s case Silence => 0 case Heard(past, e) => ChunkCompletes(past) + if e.OnChunkComplete? then 1 else 0
  }

  predicate InChunk(fr: Frame) {
    fr.Chunk? || fr.LastChunk?
  }

  /** Every chunk that was begun has been completed, but for the one that is being read. */
  lemma {:induction false} ChunksBalance(s: Stream)
    requires FrameOf(s) != Wrong
    ensures ChunkHeaders(s) == ChunkCompletes(s) + if InChunk(FrameOf(s)) then 1 else 0
    decreases s
  {
    if s.Heard? {
      NotWrongBefore(s);
      ChunksBalance(s.past);
    }
  }

  lemma NotWrongBefore(s: Stream)
    requires s.Heard? && FrameOf(s) != Wrong
    ensures FrameOf(s.past) != Wrong
  {
  }

  /** The bytes of all bodies. */
  function BodyBytes(s: Stream): (n: nat) {
    match s case Silence => 0 case Heard(past, e) => BodyBytes(past) + if IsBody(e) then |e.bytes| else 0
  }

  /** The bytes that headers and chunk sizes announce, and those of bodies that end with the connection. */
  function Announced(s: Stream): (n: nat) {
    match s
    case Silence => 0
    case Heard(past, e) => Announced(past) + Announces(FrameOf(s), e)
  }

  /** What e announces, fr being the frame after it. */
  function Announces(fr: Frame, e: Event): (n: nat) {
    match e
    case OnHeadersComplete(head, skip) => if BodyOf(head, skip).Counted? then BodyOf(head, skip).length else 0
    case OnChunkHeader(size) => size
    case Data(Body, b) => if fr.ToEof? then |b| else 0
    case _ => 0
  }

  function Missing(fr: Frame): (n: int) {
    match fr
    case Start(Counted(length)) => length
    case Identity(length, got) => length - got
    case Chunk(length, got) => length - got
    case _ => 0
  }

  lemma EventAddsUp(fr: Frame, e: Event)
    requires Next(fr, e) != Wrong && 0 <= Missing(fr)
    ensures var g := Next(fr, e);
            && 0 <= Missing(g)
            && (if IsBody(e) then |e.bytes| else 0) + Missing(g) == Missing(fr) + Announces(g, e)
  {
  }

  /** Bodies are as long as announced: the bytes heard and those still missing make up the total. */
  lemma {:induction false} BodiesAddUp(s: Stream)
    requires FrameOf(s) != Wrong
    ensures BodyBytes(s) + Missing(FrameOf(s)) == Announced(s) && 0 <= Missing(FrameOf(s))
    decreases s
  {
    if s.Heard? {
      NotWrongBefore(s);
      BodiesAddUp(s.past);
      EventAddsUp(FrameOf(s.past), s.e);
    }
  }

  // ----- any number of calls -----

  /** What is handed over last was in order, and so was what came before. */
  lemma PendingFrame(d: Desk)
    requires FrameOf(Flushed(d)) != Wrong
    ensures FrameOf(d.told) != Wrong
  {
  }

  lemma CalledInOrder(f: Steps, p: Parser, told: Stream, data: seq<Byte>)
    requires Orderly(f) && Frames(f) && WellFormed(p) && Ends(p.state, told) && InStep(p, told) && data != []
    ensures var e := Called(f, p, told, data);
            FrameOf(e.d.told) != Wrong && (e.p.errno == Ok ==> Fits(e.p, FrameOf(e.d.told)))
            && (!e.stopped ==> WellFormed(e.p) && Ends(e.p.state, e.d.told))
  {
    WellFormedOk(p);
    CalledIs(f, p, told, data);
    OpenedPends(p, told);
    CallIsRun(f, p, Opened(p, told), data, 0);
    CallFromStart(f, p, told, data);
    RunInStep(f, p, told, data, 0);
    PendingFrame(Call(f, p, Opened(p, told), data, 0).d);
  }

  /** A body that ends with the connection takes all bytes: in the end y is pending. */
  lemma {:induction false} CallToEof(f: Steps, p: Parser, d: Desk, data: seq<Byte>, i: nat, y: seq<Byte>)
    requires ReadsBodies(f) && p.state == BodyIdentityEof && p.errno == Ok && i <= |data|
    requires d.kind == [Body] || (d.kind == [] && d.bytes == [] && i < |data|)
    requires y == d.bytes + data[i..]
    ensures Call(f, p, d, data, i) == End(p, Desk(Add(d.told, Data(Body, y)), [], []), |data|, false)
    decreases |data| - i
  {
    if i == |data| {
      assert d.bytes == y;
    } else {
      assert BodyAt(f, Flushed(d), p, data[i]);
      CallToEof(f, p, Desk(d.told, [Body], d.bytes + [data[i]]), data, i + 1, y);
    }
  }

  lemma CalledToEof(f: Steps, p: Parser, told: Stream, data: seq<Byte>)
    requires ReadsBodies(f) && p.state == BodyIdentityEof && p.errno == Ok && data != []
    ensures Called(f, p, told, data) == End(p, Desk(Add(told, Data(Body, data)), [], []), |data|, false)
  {
    CalledIs(f, p, told, data);
    CallToEof(f, p, Opened(p, told), data, 0, data);
  }

  /** The end of the connection, where it is no error. */
  lemma CalledAtEnd(f: Steps, p: Parser, told: Stream)
    requires p.errno == Ok
    ensures var e := Called(f, p, told, []);
            && (p.state == BodyIdentityEof ==> e == End(p, Desk(Add(told, OnMessageComplete), [], []), 0, false))
            && (p.state != BodyIdentityEof ==> e.d.told == told && (e.stopped || e.p == p))
  {
  }

  /** One more call. */
  lemma CalledAfterEnd(f: Steps, p: Parser, told: Stream, data: seq<Byte>) returns (t: Stream)
    requires ReadsBodies(f) && p.state == BodyIdentityEof && p.errno == Ok
    requires FrameOf(told) == Wrong || FrameOf(told) == Closed
    ensures Called(f, p, told, data) == End(p, Desk(t, [], []), |data|, false) && FrameOf(t) == Wrong
  {
    if data == [] {
      CalledAtEnd(f, p, told);
      t := Add(told, OnMessageComplete);
    } else {
      CalledToEof(f, p, told, data);
      t := Add(told, Data(Body, data));
    }
  }

  /** Nothing is in order after the end of the connection has completed a message. */
  lemma {:induction false} AfterEndIsWrong(f: Steps, p: Parser, told: Stream, pieces: seq<seq<Byte>>)
    requires ReadsBodies(f) && p.state == BodyIdentityEof && p.errno == Ok
    requires FrameOf(told) == Wrong || (FrameOf(told) == Closed && pieces != [])
    ensures FrameOf(CalledAll(f, p, told, pieces).d.told) == Wrong
    decreases |pieces|
  {
    if pieces != [] {
      CalledAllStep(f, p, told, pieces);
      var t := CalledAfterEnd(f, p, told, pieces[0]);
      AfterEndIsWrong(f, p, t, pieces[1..]);
    }
  }

  /** The application goes on after it has announced the end of a connection that completes a message. */
  predicate GoesOnAfterEnd(f: Steps, p: Parser, told: Stream, pieces: seq<seq<Byte>>)
    decreases |pieces|
  {
    |pieces| > 1 &&
    var e := Called(f, p, told, pieces[0]);
    !e.stopped && ((pieces[0] == [] && p.state == BodyIdentityEof) || GoesOnAfterEnd(f, e.p, e.d.told, pieces[1..]))
  }

  lemma EndInOrder(f: Steps, p: Parser, told: Stream, pieces: seq<seq<Byte>>)
    requires ReadsBodies(f) && p.errno == Ok && p.state == BodyIdentityEof && Fits(p, FrameOf(told))
    requires pieces != [] && pieces[0] == []
    ensures FrameOf(CalledAll(f, p, told, pieces).d.told) == if |pieces| > 1 then Wrong else Closed
  {
    var e := Called(f, p, told, []);
    CalledAllStep(f, p, told, pieces);
    CalledAtEnd(f, p, told);
    AddFrame(told, OnMessageComplete);
    if |pieces| > 1 {
      AfterEndIsWrong(f, p, e.d.told, pieces[1..]);
    } else {
      assert CalledAll(f, e.p, e.d.told, []) == End(e.p, Desk(e.d.told, [], []), 0, e.p.errno != Ok);
    }
  }

  lemma {:induction false} CalledAllInOrder(f: Steps, p: Parser, told: Stream, pieces: seq<seq<Byte>>)
    requires Orderly(f) && Frames(f) && ReadsBodies(f) && WellFormed(p) && Ends(p.state, told) && InStep(p, told)
    ensures var e := CalledAll(f, p, told, pieces);
            && (FrameOf(e.d.told) == Wrong <==> GoesOnAfterEnd(f, p, told, pieces))
            && (FrameOf(e.d.told) != Wrong && e.p.errno == Ok ==>
                  Fits(e.p, FrameOf(e.d.told)) || FrameOf(e.d.told) == Closed)
    decreases |pieces|
  {
    if pieces != [] {
      WellFormedOk(p);
      CalledAllStep(f, p, told, pieces);
      var x, rest := pieces[0], pieces[1..];
      var e := Called(f, p, told, x);
      if x != [] {
        CalledInOrder(f, p, told, x);
        if !e.stopped {
          CalledAllInOrder(f, e.p, e.d.told, rest);
        }
      } else {
        CalledAtEnd(f, p, told);
        if p.state == BodyIdentityEof {
          EndInOrder(f, p, told, pieces);
        } else if !e.stopped {
          CalledAllInOrder(f, p, told, rest);
        }
      }
    }
  }

  /** What an application may rely on after any number of calls, an empty one being the end of the
      connection: what it heard is in order, unless it went on after the end had completed a message;
      every chunk is completed but the one that is being read, and bodies have the announced length. */
  lemma HeardInOrder(f: Steps, answer: Answer, p: Parser, told: Stream, pieces: seq<seq<Byte>>)
    requires f == Machine(answer) && WellFormed(p) && Ends(p.state, told) && InStep(p, told)
    ensures var e := CalledAll(f, p, told, pieces);
            var s, fr := e.d.told, FrameOf(e.d.told);
            && (fr == Wrong <==> GoesOnAfterEnd(f, p, told, pieces))
            && (fr != Wrong ==>
                  && (e.p.errno == Ok ==> Fits(e.p, fr) || fr == Closed)
                  && ChunkHeaders(s) == ChunkCompletes(s) + (if InChunk(fr) then 1 else 0)
                  && BodyBytes(s) + Missing(fr) == Announced(s))
  {
    MachineIs(answer);
    MachineIsOrderly(f, answer);
    MachineFrames(f, answer);
    MachineReadsData(f, answer);
    CalledAllInOrder(f, p, told, pieces);
    var s := CalledAll(f, p, told, pieces).d.told;
    if FrameOf(s) != Wrong {
      ChunksBalance(s);
      BodiesAddUp(s);
    }
  }
}
