/**
 Whole messages: a request or response is written out as bytes, and the parser hears it as it was. So it
 does with requests that follow one another on a connection.
 */
module HttpMessages {
  import opened Numbers
  import opened HttpModel
  import opened HttpRun
  import opened HttpCalls
  import opened HttpParser
  import opened HttpLengths
  import opened HttpHeaders
  import opened HttpMethods
  import opened HttpUrls
  import opened HttpStartLine
  import opened HttpHeard
  import opened HttpHeadings
  import opened HttpContents

  // ----- after the headers -----

  datatype Content = Nothing | Whole(data: seq<Byte>) | Chunked(chunks: seq<Chunk>, trailers: seq<Header>)

  function ContentBytes(c: Content): (d: seq<Byte>) {
    match c
    case Nothing => []
    case Whole(data) => data
    case Chunked(chunks, trailers) => AllChunkBytes(chunks) + LastBytes(trailers)
  }

  predicate ContentOk(c: Content) {
    match c
    case Nothing => true
    case Whole(data) => 0 < |data| < ULLONG_MAX
    case Chunked(chunks, trailers) => ChunksOk(chunks) && HeadersOk(trailers)
  }

  function ContentHeard(s: Stream, c: Content): (t: Stream)
    requires ContentOk(c)
  {
    match c
    case Nothing => Heard(s, OnMessageComplete)
    case Whole(data) => Heard(Add(s, Data(Body, data)), OnMessageComplete)
    case Chunked(chunks, trailers) => LastHeard(ChunksHeard(s, chunks), trailers)
  }

  /** Another protocol is asked for. */
  predicate Upgrades(m: Method, flags: Flags) {
    m == Connect || (flags.upgrade && flags.connectionUpgrade)
  }

  /** A message that neither says how long it is nor cannot have a body: it lasts as long as the connection. */
  predicate Unlimited(p: Parser) {
    p.typ != Request && !(100 <= p.statusCode < 200 || p.statusCode == 204 || p.statusCode == 304)
  }

  /** The headers say what comes after them; skip is the application's word that nothing does. */
  predicate Announced(p: Parser, skip: bool, c: Content) {
    && ContentOk(c) && !Upgrades(p.meth, p.flags)
    && match c
       case Nothing =>
         skip || (!p.flags.chunked && (p.contentLength == 0 || (p.contentLength == ULLONG_MAX && !Unlimited(p))))
       case Whole(data) => !skip && !p.flags.chunked && p.contentLength == |data|
       case Chunked(_, _) => !skip && p.flags.chunked
  }

  /** From version 1.1 on a connection persists unless it is to be closed, and before that only if it is to
      be kept alive. */
  predicate Persists(major: nat, minor: nat, flags: Flags) {
    if major >= 1 && minor >= 1 then !flags.close else flags.keepAlive
  }

  /** What the headers said in the end. */
  function FinalFlags(flags: Flags, c: Content): (r: Flags) {
    if c.Chunked? then AllSaid(flags.(trailing := true), c.trailers) else flags
  }

  /** The parser after a message whose headers end in p. */
  predicate AfterMessage(p: Parser, q: Parser, c: Content) {
    && q.errno == Ok && q.typ == p.typ && q.statusCode == p.statusCode
    && q.state == if !Persists(p.httpMajor, p.httpMinor, FinalFlags(p.flags, c)) then Dead
                  else if p.typ == Request then StartReq else StartRes
  }

  /** The headers are over. */
  predicate AtEndOfHeaders(p: Parser) {
    p.state == HeadersAlmostDone && p.errno == Ok && !p.flags.trailing && !p.flags.skipBody
  }

  function HeadHeard(s: Stream, p: Parser, skip: bool): (t: Stream) {
    Heard(s, OnHeadersComplete(
               MessageHead(p.typ, p.meth, p.statusCode, p.flags, Upgrades(p.meth, p.flags), p.contentLength), skip))
  }

  /** The parser that goes on after headers that ask for no other protocol. */
  function Going(p: Parser, skip: bool): (q: Parser) {
    p.(state := HeadersDone, upgrade := false, flags := p.flags.(skipBody := skip))
  }

  lemma EndStep(p: Parser, skip: bool)
    requires AtEndOfHeaders(p) && !Upgrades(p.meth, p.flags)
    ensures Step(p, LF, skip) == After(OnHeadersComplete(HeadOf(p.(upgrade := false)), skip),
                                       StepHeadersDone(Going(p, skip)))
  {
    StepByState(p, LF, skip);
    HeaderByState(p, LF, skip);
    assert p.flags.(skipBody := false) == p.flags;
  }

  /** What follows the headers. */
  lemma DoneStep(p: Parser, skip: bool, c: Content)
    requires AtEndOfHeaders(p) && Announced(p, skip, c)
    ensures StepHeadersDone(Going(p, skip))
         == match c
            case Nothing => Complete(Going(p, skip), false)
            case Whole(_) => Go(Going(p, skip), BodyIdentity)
            case Chunked(_, _) => Go(Going(p, skip), ChunkSizeStart)
  {
    NeedsIs(Going(p, skip));
  }

  lemma NeedsIs(p: Parser)
    ensures NeedsEof(p) <==> Unlimited(p) && !p.flags.skipBody && !p.flags.chunked && p.contentLength == ULLONG_MAX
  {
    assert p.statusCode / 100 == 1 <==> 100 <= p.statusCode < 200;
  }

  lemma EndedPersists(p: Parser, e: Parser, q: Parser, c: Content)
    requires HttpContents.Ended(e, q) && e.errno == Ok && e.typ == p.typ && e.statusCode == p.statusCode
    requires e.httpMajor == p.httpMajor && e.httpMinor == p.httpMinor
    requires e.flags.close == FinalFlags(p.flags, c).close && e.flags.keepAlive == FinalFlags(p.flags, c).keepAlive
    requires !Unlimited(e) || e.flags.skipBody || e.flags.chunked || e.contentLength < ULLONG_MAX
    ensures AfterMessage(p, q, c)
  {
  }

  lemma CompleteEnds(p: Parser)
    ensures HttpContents.Ended(p, Complete(p, false).p) && Marked(Complete(p, false).p.state) == []
  {
    CompleteGoes(p, false);
    EndMarks(Complete(p, false).p.state);
  }

  /** A message without a body. */
  lemma NothingTells(f: Steps, answer: Answer, p: Parser, s: Stream) returns (q: Parser)
    requires IsMachine(f, answer) && AtEndOfHeaders(p) && Announced(p, answer(s, p), Nothing)
    ensures Tells(f, p, s, [LF], q, Heard(HeadHeard(s, p, answer(s, p)), OnMessageComplete))
    ensures AfterMessage(p, q, Nothing)
  {
    var skip := answer(s, p);
    var e := Going(p, skip);
    EndStep(p, skip);
    DoneStep(p, skip, Nothing);
    CompleteEnds(e);
    q := Complete(e, false).p;
    var h := OnHeadersComplete(HeadOf(p.(upgrade := false)), skip);
    AnnouncesTells(f, answer, p, s, LF, q, [h, OnMessageComplete]);
    TwoEvents(s, h, OnMessageComplete);
    EndedPersists(p, e, q, Nothing);
  }

  function BodyState(c: Content): (s: State) {
    if c.Whole? then BodyIdentity else ChunkSizeStart
  }

  lemma BodyStep(p: Parser, c: Content)
    requires AtEndOfHeaders(p) && Announced(p, false, c) && !c.Nothing?
    ensures Step(p, LF, false)
         == Tell(Going(p, false), BodyState(c),
                 OnHeadersComplete(HeadOf(p.(upgrade := false)), false))
  {
    EndStep(p, false);
    DoneStep(p, false, c);
  }

  /** The line end before a body. */
  lemma BodyBegins(f: Steps, answer: Answer, p: Parser, s: Stream, c: Content)
    requires IsMachine(f, answer) && AtEndOfHeaders(p) && Announced(p, answer(s, p), c) && !c.Nothing?
    ensures Tells(f, p, s, [LF], Going(p, false).(state := BodyState(c)), HeadHeard(s, p, false))
  {
    BodyStep(p, c);
    HeadTells(f, answer, p, s, BodyState(c));
  }

  lemma HeadTells(f: Steps, answer: Answer, p: Parser, s: Stream, st: State)
    requires IsMachine(f, answer) && p.state == HeadersAlmostDone && p.errno == Ok && !answer(s, p)
    requires !Upgrades(p.meth, p.flags) && (st == BodyIdentity || st == ChunkSizeStart)
    requires Step(p, LF, false) == Tell(Going(p, false), st, OnHeadersComplete(HeadOf(p.(upgrade := false)), false))
    ensures Tells(f, p, s, [LF], Going(p, false).(state := st), HeadHeard(s, p, false))
  {
    var h := OnHeadersComplete(HeadOf(p.(upgrade := false)), false);
    AnnouncesTells(f, answer, p, s, LF, Going(p, false).(state := st), [h]);
    OneEvent(s, h);
  }

  /** A body of a known length. */
  lemma WholeTells(f: Steps, answer: Answer, p: Parser, s: Stream, c: Content) returns (q: Parser)
    requires IsMachine(f, answer) && AtEndOfHeaders(p) && Announced(p, answer(s, p), c) && c.Whole?
    ensures Tells(f, p, s, [LF] + c.data, q, ContentHeard(HeadHeard(s, p, false), c)) && AfterMessage(p, q, c)
  {
    var r, t := Going(p, false).(state := BodyIdentity), HeadHeard(s, p, false);
    BodyBegins(f, answer, p, s, c);
    DataTells(f, answer, r, t, c.data);
    q := AfterData(r);
    TellsOn(f, p, s, [LF], r, t, c.data, q, ContentHeard(t, c));
    var e := r.(contentLength := 0, state := MessageDone);
    CompleteEnds(e);
    EndedPersists(p, e, q, c);
  }

  /** A body in chunks. */
  lemma ChunkedTells(f: Steps, answer: Answer, p: Parser, s: Stream, c: Content) returns (q: Parser)
    requires IsMachine(f, answer) && AtEndOfHeaders(p) && Announced(p, answer(s, p), c) && c.Chunked?
    ensures Tells(f, p, s, [LF] + ContentBytes(c), q, ContentHeard(HeadHeard(s, p, false), c)) && AfterMessage(p, q, c)
  {
    var r, t := Going(p, false).(state := ChunkSizeStart), HeadHeard(s, p, false);
    var u, v := if c.chunks == [] then r else r.(contentLength := 0), ChunksHeard(t, c.chunks);
    BodyBegins(f, answer, p, s, c);
    ChunksTell(f, answer, r, t, c.chunks);
    var e;
    e, q := LastTells(f, answer, u, v, c.trailers);
    TellsOn(f, r, t, AllChunkBytes(c.chunks), u, v, LastBytes(c.trailers), q, ContentHeard(t, c));
    TellsOn(f, p, s, [LF], r, t, ContentBytes(c), q, ContentHeard(t, c));
    ChunkedPersists(p, u, e, q, c);
  }

  lemma {:induction false} ChunkedStays(flags: Flags, hs: seq<Header>)
    requires flags.chunked
    ensures AllSaid(flags, hs).chunked
    decreases |hs|
  {
    if hs != [] {
      ChunkedStays(Said(flags, hs[0].name, hs[0].value), hs[1..]);
    }
  }

  lemma ChunkedPersists(p: Parser, u: Parser, e: Parser, q: Parser, c: Content)
    requires AtEndOfHeaders(p) && c.Chunked? && p.flags.chunked && HttpContents.Ended(e, q)
    requires u == Going(p, false).(state := ChunkSizeStart, contentLength := u.contentLength)
    requires AfterLines(AfterSize(u, 0), e, c.trailers)
    ensures AfterMessage(p, q, c)
  {
    assert p.flags.(skipBody := false) == p.flags;
    ChunkedStays(p.flags.(trailing := true), c.trailers);
    EndedPersists(p, e, q, c);
  }

  /** The end of the headers and what comes after them. */
  lemma ContentTells(f: Steps, answer: Answer, p: Parser, s: Stream, c: Content) returns (q: Parser)
    requires IsMachine(f, answer) && AtEndOfHeaders(p) && Announced(p, answer(s, p), c)
    ensures Tells(f, p, s, [LF] + ContentBytes(c), q, ContentHeard(HeadHeard(s, p, answer(s, p)), c))
    ensures AfterMessage(p, q, c)
  {
    if c.Nothing? {
      q := NothingTells(f, answer, p, s);
      assert [LF] + ContentBytes(c) == [LF];
    } else if c.Whole? {
      q := WholeTells(f, answer, p, s, c);
    } else {
      q := ChunkedTells(f, answer, p, s, c);
    }
  }
}
