/**
 The HTTP parser as a machine that takes one byte at a time, in strict mode: parser fields, the
 transition for every state, and the stream of notifications an application sees.
 */
module HttpModel {
  import opened Numbers

  const ULLONG_MAX := 0xFFFF_FFFF_FFFF_FFFF  // content length not known

  datatype State =
    | Dead | StartReqOrRes | ResOrRespH | StartRes | ResH | ResHT | ResHTT | ResHTTP
    | ResFirstHttpMajor | ResHttpMajor | ResFirstHttpMinor | ResHttpMinor
    | ResFirstStatusCode | ResStatusCode | ResStatusStart | ResStatus | ResLineAlmostDone
    | StartReq | ReqMethod | ReqSpacesBeforeUrl
    | ReqSchema | ReqSchemaSlash | ReqSchemaSlashSlash | ReqServerStart | ReqServer | ReqServerWithAt
    | ReqPath | ReqQueryStringStart | ReqQueryString | ReqFragmentStart | ReqFragment
    | ReqHttpStart | ReqHttpH | ReqHttpHT | ReqHttpHTT | ReqHttpHTTP
    | ReqFirstHttpMajor | ReqHttpMajor | ReqFirstHttpMinor | ReqHttpMinor | ReqLineAlmostDone
    | HeaderFieldStart | HeaderField | HeaderValueDiscardWs | HeaderValueDiscardWsAlmostDone
    | HeaderValueDiscardLws | HeaderValueStart | HeaderValue | HeaderValueLws | HeaderAlmostDone
    | ChunkSizeStart | ChunkSize | ChunkParameters | ChunkSizeAlmostDone
    | HeadersAlmostDone | HeadersDone
    | ChunkData | ChunkDataAlmostDone | ChunkDataDone | BodyIdentity | BodyIdentityEof | MessageDone

  datatype HeaderState =
    | HGeneral | HC | HCO | HCON
    | HMatchingConnection | HMatchingProxyConnection | HMatchingContentLength | HMatchingTransferEncoding
    | HMatchingUpgrade
    | HConnection | HContentLength | HTransferEncoding | HUpgrade
    | HMatchingTransferEncodingChunked | HMatchingConnectionTokenStart | HMatchingConnectionKeepAlive
    | HMatchingConnectionClose | HMatchingConnectionUpgrade | HMatchingConnectionToken
    | HTransferEncodingChunked | HConnectionKeepAlive | HConnectionClose | HConnectionUpgrade

  datatype Errno =
    | Ok | InvalidEofState | ClosedConnection | InvalidVersion | InvalidStatus | InvalidMethod | InvalidUrl
    | LfExpected | InvalidHeaderToken | InvalidContentLength | InvalidChunkSize | InvalidConstant | Strict

  datatype ParserType = Request | Response | Both

  datatype Method =
    | Delete | Get | Head | Post | Put | Connect | Options | Trace | Copy | Lock | MkCol | Move | PropFind
    | PropPatch | Search | Unlock | Report | MkActivity | Checkout | Merge | MSearch | Notify | Subscribe
    | Unsubscribe | Patch | Purge | MkCalendar

  function MethodName(m: Method): (s: string) {
    match m
    case Delete => "DELETE" case Get => "GET" case Head => "HEAD" case Post => "POST" case Put => "PUT"
    case Connect => "CONNECT" case Options => "OPTIONS" case Trace => "TRACE" case Copy => "COPY" case Lock => "LOCK"
    case MkCol => "MKCOL" case Move => "MOVE" case PropFind => "PROPFIND" case PropPatch => "PROPPATCH"
    case Search => "SEARCH" case Unlock => "UNLOCK" case Report => "REPORT" case MkActivity => "MKACTIVITY"
    case Checkout => "CHECKOUT" case Merge => "MERGE" case MSearch => "M-SEARCH" case Notify => "NOTIFY"
    case Subscribe => "SUBSCRIBE" case Unsubscribe => "UNSUBSCRIBE" case Patch => "PATCH" case Purge => "PURGE"
    case MkCalendar => "MKCALENDAR"
  }

  datatype Flags = Flags(
    chunked: bool, keepAlive: bool, close: bool, connectionUpgrade: bool, trailing: bool, upgrade: bool, skipBody: bool)

  const NO_FLAGS := Flags(false, false, false, false, false, false, false)

  type UInt64 = n: nat | n <= ULLONG_MAX

  datatype Parser = Parser(
    typ: ParserType, flags: Flags, state: State, headerState: HeaderState, index: nat, contentLength: UInt64,
    httpMajor: nat, httpMinor: nat, statusCode: nat, meth: Method, errno: Errno, upgrade: bool)

  // ----- notifications -----

  datatype DataKind = Field | Value | Url | Status | Body

  /** What the application sees in the parser once the headers are complete. */
  datatype MessageHead = MessageHead(
    typ: ParserType, meth: Method, statusCode: nat, flags: Flags, upgrade: bool, length: UInt64)

  function HeadOf(p: Parser): (h: MessageHead) {
    MessageHead(p.typ, p.meth, p.statusCode, p.flags, p.upgrade, p.contentLength)
  }

  datatype Event =
    | Data(kind: DataKind, bytes: seq<Byte>)
    | OnMessageBegin
    | OnHeadersComplete(head: MessageHead, skip: bool)  // skip is the application's answer: there is no body
    | OnChunkHeader(size: UInt64)
    | OnChunkComplete
    | OnMessageComplete

  /** Notifications so far, with adjacent data of one kind put together. */
  datatype Stream = Silence | Heard(past: Stream, e: Event)

  function Add(s: Stream, e: Event): (r: Stream) {
    if e.Data? && s.Heard? && s.e.Data? && s.e.kind == e.kind then Heard(s.past, Data(e.kind, s.e.bytes + e.bytes))
    else Heard(s, e)
  }

  function AddAll(s: Stream, es: seq<Event>): (r: Stream)
    decreases |es|
  {
    if es == [] then s else AddAll(Add(s, es[0]), es[1..])
  }

  // ----- characters -----

  const CR: Byte := 13
  const LF: Byte := 10
  const SP: Byte := 32
  const HT: Byte := 9

  predicate Is(ch: int, c: char) {
    ch == c as int
  }

  /** ch with bit 5 set. */
  function Lower(ch: Byte): (c: Byte) {
    if ch < 32 || 64 <= ch < 96 || 128 <= ch < 160 || 192 <= ch < 224 then ch + 32 else ch
  }

  predicate IsNum(ch: Byte) {
    0x30 <= ch <= 0x39
  }

  predicate IsAlpha(ch: Byte) {
    0x61 <= Lower(ch) <= 0x7A
  }

  predicate IsMark(ch: Byte) {
    || Is(ch, '!')
    || Is(ch, '#')
    || Is(ch, '$')
    || Is(ch, '%')
    || Is(ch, '&')
    || Is(ch, '\'')
    || Is(ch, '*')
    || Is(ch, '+')
    || Is(ch, '-') || Is(ch, '.') || Is(ch, '^') || Is(ch, '_') || Is(ch, '`') || Is(ch, '|') || Is(ch, '~')
  }

  predicate IsUserinfoMark(ch: Byte) {
    || Is(ch, '-')
    || Is(ch, '_')
    || Is(ch, '.')
    || Is(ch, '!')
    || Is(ch, '~')
    || Is(ch, '*')
    || Is(ch, '\'')
    || Is(ch, '(')
    || Is(ch, ')')
    || Is(ch, '%') || Is(ch, ';') || Is(ch, ':') || Is(ch, '&') || Is(ch, '=') || Is(ch, '+') || Is(ch, '$')
    || Is(ch, ',')
  }

  /** A token character in lower case, or 0. */
  function Token(ch: Byte): (c: Byte) {
    if IsAlpha(ch) then Lower(ch)
    else if IsNum(ch) || IsMark(ch) then ch
    else 0
  }

  predicate IsUserinfoChar(ch: Byte) {
    IsAlpha(ch) || IsNum(ch) || IsUserinfoMark(ch)
  }

  predicate IsUrlChar(ch: Byte) {
    33 <= ch <= 126 && !Is(ch, '#') && !Is(ch, '?')
  }

  function Unhex(ch: Byte): (v: int)
    ensures -1 <= v <= 15
  {
    if IsNum(ch) then ch - 0x30
    else if 0x61 <= Lower(ch) <= 0x66 then Lower(ch) - 0x61 + 10
    else -1
  }

  // ----- transitions -----

  /** What one byte does: the new fields; data to be handed over that ended before this byte; then
      notifications; then data that begins with this byte. leave is an early return from the
      parser. */
  datatype Outcome = Outcome(p: Parser, flush: seq<DataKind>, tells: seq<Event>, mark: seq<DataKind>, leave: bool)

  function Go(p: Parser, s: State): (o: Outcome) {
    Outcome(p.(state := s), [], [], [], false)
  }

  function Fail(p: Parser, e: Errno): (o: Outcome) {
    Outcome(p.(errno := e), [], [], [], false)
  }

  function Flush(p: Parser, s: State, k: DataKind): (o: Outcome) {
    Outcome(p.(state := s), [k], [], [], false)
  }

  function Tell(p: Parser, s: State, e: Event): (o: Outcome) {
    Outcome(p.(state := s), [], [e], [], false)
  }

  /** In strict mode, the byte c and no other. */
  function Expect(p: Parser, ch: Byte, c: int, s: State): (o: Outcome) {
    if ch == c then Go(p, s) else Fail(p, Strict)
  }

  predicate NeedsEof(p: Parser) {
    && p.typ != Request
    && !(p.statusCode / 100 == 1 || p.statusCode == 204 || p.statusCode == 304 || p.flags.skipBody)
    && !p.flags.chunked && p.contentLength == ULLONG_MAX
  }

  predicate ShouldKeepAlive(p: Parser) {
    (if p.httpMajor > 0 && p.httpMinor > 0 then !p.flags.close else p.flags.keepAlive) && !NeedsEof(p)
  }

  function StartState(p: Parser): (s: State) {
    if p.typ == Request then StartReq else StartRes
  }

  function NewMessage(p: Parser): (s: State) {
    if ShouldKeepAlive(p) then StartState(p) else Dead
  }

  /** One character of a URL. */
  function ParseUrlChar(s: State, ch: Byte): (r: State) {
    if ch == SP || ch == CR || ch == LF || ch == HT || ch == 12 then Dead
    else match s
      case ReqSpacesBeforeUrl => if Is(ch, '/') || Is(ch, '*') then ReqPath else if IsAlpha(ch) then ReqSchema else Dead
      case ReqSchema => if IsAlpha(ch) then s else if Is(ch, ':') then ReqSchemaSlash else Dead
      case ReqSchemaSlash => if Is(ch, '/') then ReqSchemaSlashSlash else Dead
      case ReqSchemaSlashSlash => if Is(ch, '/') then ReqServerStart else Dead
      case ReqServerWithAt => if Is(ch, '@') then Dead else ParseServerChar(ch)
      case ReqServerStart => ParseServerChar(ch)
      case ReqServer => ParseServerChar(ch)
      case ReqPath =>
        if IsUrlChar(ch) then s
        else if Is(ch, '?') then ReqQueryStringStart
        else if Is(ch, '#') then ReqFragmentStart else Dead
      case ReqQueryStringStart =>
        if IsUrlChar(ch) || Is(ch, '?') then ReqQueryString else if Is(ch, '#') then ReqFragmentStart else Dead
      case ReqQueryString =>
        if IsUrlChar(ch) || Is(ch, '?') then ReqQueryString else if Is(ch, '#') then ReqFragmentStart else Dead
      case ReqFragmentStart => if IsUrlChar(ch) || Is(ch, '?') then ReqFragment else if Is(ch, '#') then s else Dead
      case ReqFragment => if IsUrlChar(ch) || Is(ch, '?') || Is(ch, '#') then s else Dead
      case _ => Dead
  }

  function ParseServerChar(ch: Byte): (r: State) {
    if Is(ch, '/') then ReqPath
    else if Is(ch, '?') then ReqQueryStringStart
    else if Is(ch, '@') then ReqServerWithAt
    else if IsUserinfoChar(ch) || Is(ch, '[') || Is(ch, ']') then ReqServer
    else Dead
  }

  /** The method that a request might be after its first letter. */
  function FirstMethod(ch: Byte): (m: seq<Method>)
    ensures |m| <= 1
  {
    if Is(ch, 'C') then [Connect] else if Is(ch, 'D') then [Delete] else if Is(ch, 'G') then [Get]
    else if Is(ch, 'H') then [Head] else if Is(ch, 'L') then [Lock] else if Is(ch, 'M') then [MkCol]
    else if Is(ch, 'N') then [Notify] else if Is(ch, 'O') then [Options] else if Is(ch, 'P') then [Post]
    else if Is(ch, 'R') then [Report] else if Is(ch, 'S') then [Subscribe] else if Is(ch, 'T') then [Trace]
    else if Is(ch, 'U') then [Unlock] else []
  }

  /** The other method that begins as m does up to index i, where ch follows. */
  function OtherMethod(m: Method, i: nat, ch: Byte): (r: seq<Method>)
    ensures |r| <= 1
  {
    match m
    case Connect => if i == 1 && Is(ch, 'H') then [Checkout] else if i == 2 && Is(ch, 'P') then [Copy] else []
    case MkCol =>
      if i == 1 && Is(ch, 'O') then [Move]
      else if i == 1 && Is(ch, 'E') then [Merge]
      else if i == 1 && Is(ch, '-') then [MSearch]
      else if i == 2 && Is(ch, 'A') then [MkActivity]
      else if i == 3 && Is(ch, 'A') then [MkCalendar] else []
    case Subscribe => if i == 1 && Is(ch, 'E') then [Search] else []
    case Post =>
      if i == 1 then
        if Is(ch, 'R') then [PropFind] else if Is(ch, 'U') then [Put] else if Is(ch, 'A') then [Patch] else []
      else []
    case Put => if i == 2 && Is(ch, 'R') then [Purge] else []
    case Unlock => if i == 2 && Is(ch, 'S') then [Unsubscribe] else []
    case PropFind => if i == 4 && Is(ch, 'P') then [PropPatch] else []
    case _ => []
  }

  /** Character i of the name of a method, which ends with a zero byte. */
  function MethodChar(m: Method, i: nat): (c: int) {
    if i < |MethodName(m)| then MethodName(m)[i] as int else 0
  }

  function StepMethod(p: Parser, ch: Byte): (o: Outcome) {
    var matcher := MethodChar(p.meth, p.index);
    var other := OtherMethod(p.meth, p.index, ch);
    if ch == 0 then Fail(p, InvalidMethod)
    else if ch == SP && matcher == 0 then Go(p.(index := p.index + 1), ReqSpacesBeforeUrl)
    else if ch == matcher then Go(p.(index := p.index + 1), ReqMethod)
    else if other == [] then Fail(p, InvalidMethod)
    else Go(p.(meth := other[0], index := p.index + 1), ReqMethod)
  }

  /** The start of a message. */
  function Fresh(p: Parser): (r: Parser) {
    p.(flags := NO_FLAGS, contentLength := ULLONG_MAX)
  }

  function StepStartReq(p: Parser, ch: Byte): (o: Outcome) {
    var q := Fresh(p);
    if ch == CR || ch == LF then Go(p, StartReq)
    else if FirstMethod(ch) == [] then
      Fail(if IsAlpha(ch) then q.(meth := Delete, index := 1, state := StartReq) else q.(state := StartReq),
           InvalidMethod)
    else Tell(q.(meth := FirstMethod(ch)[0], index := 1), ReqMethod, OnMessageBegin)
  }

  function StepStart(p: Parser, ch: Byte): (o: Outcome) {
    match p.state
    case StartReqOrRes =>
      if ch == CR || ch == LF then Go(p, StartReqOrRes)
      else if Is(ch, 'H') then Tell(Fresh(p), ResOrRespH, OnMessageBegin)
      else StepStartReq(Fresh(p).(typ := Request, state := StartReq), ch)
    case ResOrRespH =>
      if Is(ch, 'T') then Go(p.(typ := Response), ResHT)
      else if Is(ch, 'E') then Go(p.(typ := Request, meth := Head, index := 2), ReqMethod)
      else Fail(p, InvalidConstant)
    case StartRes =>
      if Is(ch, 'H') then Tell(Fresh(p), ResH, OnMessageBegin)
      else if ch == CR || ch == LF then Tell(Fresh(p), StartRes, OnMessageBegin)
      else Fail(Fresh(p), InvalidConstant)
    case _ => StepStartReq(p, ch)
  }

  /** One more digit of a number of at most three digits. */
  function Digit(n: nat, ch: Byte): (r: nat)
    requires IsNum(ch)
  {
    10 * n + (ch - 0x30)
  }

  function StepStatusLine(p: Parser, ch: Byte): (o: Outcome) {
    match p.state
    case ResH => Expect(p, ch, 'T' as int, ResHT)
    case ResHT => Expect(p, ch, 'T' as int, ResHTT)
    case ResHTT => Expect(p, ch, 'P' as int, ResHTTP)
    case ResHTTP => Expect(p, ch, '/' as int, ResFirstHttpMajor)
    case ResFirstHttpMajor =>
      if IsNum(ch) then Go(p.(httpMajor := ch - 0x30), ResHttpMajor) else Fail(p, InvalidVersion)
    case ResHttpMajor =>
      if Is(ch, '.') then Go(p, ResFirstHttpMinor)
      else if !IsNum(ch) then Fail(p, InvalidVersion)
      else if Digit(p.httpMajor, ch) > 999 then Fail(p.(httpMajor := Digit(p.httpMajor, ch)), InvalidVersion)
      else Go(p.(httpMajor := Digit(p.httpMajor, ch)), ResHttpMajor)
    case ResFirstHttpMinor =>
      if IsNum(ch) then Go(p.(httpMinor := ch - 0x30), ResHttpMinor) else Fail(p, InvalidVersion)
    case ResHttpMinor =>
      if ch == SP then Go(p, ResFirstStatusCode)
      else if !IsNum(ch) then Fail(p, InvalidVersion)
      else if Digit(p.httpMinor, ch) > 999 then Fail(p.(httpMinor := Digit(p.httpMinor, ch)), InvalidVersion)
      else Go(p.(httpMinor := Digit(p.httpMinor, ch)), ResHttpMinor)
    case ResFirstStatusCode =>
      if IsNum(ch) then Go(p.(statusCode := ch - 0x30), ResStatusCode)
      else if ch == SP then Go(p, ResFirstStatusCode)
      else Fail(p, InvalidStatus)
    case ResStatusCode =>
      if IsNum(ch) then
        if Digit(p.statusCode, ch) > 999 then Fail(p.(statusCode := Digit(p.statusCode, ch)), InvalidStatus)
        else Go(p.(statusCode := Digit(p.statusCode, ch)), ResStatusCode)
      else if ch == SP then Go(p, ResStatusStart)
      else if ch == CR then Go(p, ResLineAlmostDone)
      else if ch == LF then Go(p, HeaderFieldStart)
      else Fail(p, InvalidStatus)
    case ResStatusStart =>
      if ch == CR then Go(p, ResLineAlmostDone)
      else if ch == LF then Go(p, HeaderFieldStart)
      else Outcome(p.(state := ResStatus, index := 0), [], [], [Status], false)
    case ResStatus =>
      if ch == CR then Flush(p, ResLineAlmostDone, Status)
      else if ch == LF then Flush(p, HeaderFieldStart, Status)
      else Go(p, ResStatus)
    case _ => Expect(p, ch, LF, HeaderFieldStart)
  }

  function StepUrlChar(p: Parser, ch: Byte, s: State, mark: seq<DataKind>): (o: Outcome) {
    if ParseUrlChar(s, ch) == Dead then Outcome(p.(state := Dead, errno := InvalidUrl), [], [], mark, false)
    else Outcome(p.(state := ParseUrlChar(s, ch)), [], [], mark, false)
  }

  /** Before the path or query, where no white space is allowed. */
  predicate InScheme(s: State) {
    s == ReqSchema || s == ReqSchemaSlash || s == ReqSchemaSlashSlash || s == ReqServerStart
  }

  function StepUrl(p: Parser, ch: Byte): (o: Outcome) {
    if p.state == ReqSpacesBeforeUrl then
      if ch == SP then Go(p, ReqSpacesBeforeUrl)
      else StepUrlChar(p, ch, if p.meth == Connect then ReqServerStart else ReqSpacesBeforeUrl, [Url])
    else if ch != SP && ch != CR && ch != LF then StepUrlChar(p, ch, p.state, [])
    else if InScheme(p.state) then Fail(p, InvalidUrl)
    else if ch == SP then Flush(p, ReqHttpStart, Url)
    else Flush(p.(httpMajor := 0, httpMinor := 9), if ch == CR then ReqLineAlmostDone else HeaderFieldStart, Url)
  }

  function StepRequestLine(p: Parser, ch: Byte): (o: Outcome) {
    match p.state
    case ReqHttpStart =>
      if Is(ch, 'H') then Go(p, ReqHttpH) else if ch == SP then Go(p, ReqHttpStart) else Fail(p, InvalidConstant)
    case ReqHttpH => Expect(p, ch, 'T' as int, ReqHttpHT)
    case ReqHttpHT => Expect(p, ch, 'T' as int, ReqHttpHTT)
    case ReqHttpHTT => Expect(p, ch, 'P' as int, ReqHttpHTTP)
    case ReqHttpHTTP => Expect(p, ch, '/' as int, ReqFirstHttpMajor)
    case ReqFirstHttpMajor =>
      if 0x31 <= ch <= 0x39 then Go(p.(httpMajor := ch - 0x30), ReqHttpMajor) else Fail(p, InvalidVersion)
    case ReqHttpMajor =>
      if Is(ch, '.') then Go(p, ReqFirstHttpMinor)
      else if !IsNum(ch) then Fail(p, InvalidVersion)
      else if Digit(p.httpMajor, ch) > 999 then Fail(p.(httpMajor := Digit(p.httpMajor, ch)), InvalidVersion)
      else Go(p.(httpMajor := Digit(p.httpMajor, ch)), ReqHttpMajor)
    case ReqFirstHttpMinor =>
      if IsNum(ch) then Go(p.(httpMinor := ch - 0x30), ReqHttpMinor) else Fail(p, InvalidVersion)
    case ReqHttpMinor =>
      if ch == CR then Go(p, ReqLineAlmostDone)
      else if ch == LF then Go(p, HeaderFieldStart)
      else if !IsNum(ch) then Fail(p, InvalidVersion)
      else if Digit(p.httpMinor, ch) > 999 then Fail(p.(httpMinor := Digit(p.httpMinor, ch)), InvalidVersion)
      else Go(p.(httpMinor := Digit(p.httpMinor, ch)), ReqHttpMinor)
    case _ => if ch == LF then Go(p, HeaderFieldStart) else Fail(p, LfExpected)
  }

  // ----- headers -----

  /** After a byte c that was expected at index of name: still matching, matched or not. */
  function Matching(p: Parser, name: string, c: Byte, going: HeaderState, matched: HeaderState,
                    not: HeaderState): (r: Parser) {
    var i := p.index + 1;
    if !(i < |name| && Is(c, name[i])) then p.(index := i, headerState := not)
    else if i == |name| - 1 then p.(index := i, headerState := matched)
    else p.(index := i, headerState := going)
  }

  /** One more byte ch of a field name; c is its token. */
  function FieldByte(p: Parser, ch: Byte, c: Byte): (r: Parser) {
    match p.headerState
    case HC => p.(index := p.index + 1, headerState := if Is(c, 'o') then HCO else HGeneral)
    case HCO => p.(index := p.index + 1, headerState := if Is(c, 'n') then HCON else HGeneral)
    case HCON =>
      p.(index := p.index + 1,
         headerState := if Is(c, 'n') then HMatchingConnection
                        else if Is(c, 't') then HMatchingContentLength
                        else HGeneral)
    case HMatchingConnection => Matching(p, "connection", c, HMatchingConnection, HConnection, HGeneral)
    case HMatchingProxyConnection => Matching(p, "proxy-connection", c, HMatchingProxyConnection, HConnection, HGeneral)
    case HMatchingContentLength => Matching(p, "content-length", c, HMatchingContentLength, HContentLength, HGeneral)
    case HMatchingTransferEncoding =>
      Matching(p, "transfer-encoding", c, HMatchingTransferEncoding, HTransferEncoding, HGeneral)
    case HMatchingUpgrade => Matching(p, "upgrade", c, HMatchingUpgrade, HUpgrade, HGeneral)
    case HConnection => if ch == SP then p else p.(headerState := HGeneral)
    case HContentLength => if ch == SP then p else p.(headerState := HGeneral)
    case HTransferEncoding => if ch == SP then p else p.(headerState := HGeneral)
    case HUpgrade => if ch == SP then p else p.(headerState := HGeneral)
    case _ => p
  }

  function StepHeaderField(p: Parser, ch: Byte): (o: Outcome) {
    if Token(ch) != 0 then Go(FieldByte(p, ch, Token(ch)), HeaderField)
    else if Is(ch, ':') then Flush(p, HeaderValueDiscardWs, Field)
    else Fail(p, InvalidHeaderToken)
  }

  /** What a finished header says about the connection. */
  function Finished(p: Parser): (r: Parser) {
    match p.headerState
    case HConnectionKeepAlive => p.(flags := p.flags.(keepAlive := true))
    case HConnectionClose => p.(flags := p.flags.(close := true))
    case HTransferEncodingChunked => p.(flags := p.flags.(chunked := true))
    case HConnectionUpgrade => p.(flags := p.flags.(connectionUpgrade := true))
    case _ => p
  }

  predicate MaxBeforeDigit(n: UInt64, base: nat)
    requires base > 0
  {
    (ULLONG_MAX - base) / base < n
  }

  function TokenStart(c: Byte): (h: HeaderState) {
    if Is(c, 'k') then HMatchingConnectionKeepAlive
    else if Is(c, 'c') then HMatchingConnectionClose
    else if Is(c, 'u') then HMatchingConnectionUpgrade
    else if Token(c) != 0 then HMatchingConnectionToken
    else if c == SP || c == HT then HMatchingConnectionTokenStart
    else HGeneral
  }

  /** One more byte of a header value, other than CR and LF. */
  function ValueByte(p: Parser, ch: Byte): (r: Parser) {
    match p.headerState
    case HContentLength =>
      if ch == SP then p
      else if !IsNum(ch) || MaxBeforeDigit(p.contentLength, 10) then p.(errno := InvalidContentLength)
      else p.(contentLength := 10 * p.contentLength + (ch - 0x30))
    case HMatchingTransferEncodingChunked =>
      Matching(p, "chunked", Lower(ch), HMatchingTransferEncodingChunked, HTransferEncodingChunked, HGeneral)
    case HMatchingConnectionTokenStart => p.(headerState := TokenStart(Lower(ch)))
    case HMatchingConnectionKeepAlive =>
      Matching(p, "keep-alive", Lower(ch), HMatchingConnectionKeepAlive, HConnectionKeepAlive, HMatchingConnectionToken)
    case HMatchingConnectionClose =>
      Matching(p, "close", Lower(ch), HMatchingConnectionClose, HConnectionClose, HMatchingConnectionToken)
    case HMatchingConnectionUpgrade =>
      Matching(p, "upgrade", Lower(ch), HMatchingConnectionUpgrade, HConnectionUpgrade, HMatchingConnectionToken)
    case HMatchingConnectionToken =>
      if Is(ch, ',') then p.(headerState := HMatchingConnectionTokenStart, index := 0) else p
    case HTransferEncodingChunked => if ch == SP then p else p.(headerState := HGeneral)
    case HConnectionKeepAlive => EndOfToken(p, ch)
    case HConnectionClose => EndOfToken(p, ch)
    case HConnectionUpgrade => EndOfToken(p, ch)
    case _ => p.(headerState := HGeneral)
  }

  function EndOfToken(p: Parser, ch: Byte): (r: Parser) {
    if Is(ch, ',') then Finished(p).(headerState := HMatchingConnectionTokenStart, index := 0)
    else if ch == SP then p
    else p.(headerState := HMatchingConnectionToken)
  }

  function StepHeaderValueStart(p: Parser, ch: Byte): (o: Outcome) {
    var q := p.(state := HeaderValue, index := 0);
    var c := Lower(ch);
    var r :=
      match p.headerState
      case HUpgrade => q.(flags := q.flags.(upgrade := true), headerState := HGeneral)
      case HTransferEncoding => q.(headerState := if Is(c, 'c') then HMatchingTransferEncodingChunked else HGeneral)
      case HContentLength => if IsNum(ch) then q.(contentLength := ch - 0x30) else q.(errno := InvalidContentLength)
      case HConnection =>
        q.(headerState := if Is(c, 'k') then HMatchingConnectionKeepAlive
                          else if Is(c, 'c') then HMatchingConnectionClose
                          else if Is(c, 'u') then HMatchingConnectionUpgrade
                          else HMatchingConnectionToken)
      case HMatchingConnectionTokenStart => q
      case _ => q.(headerState := HGeneral);
    Outcome(r, [], [], [Value], false)
  }

  function StepHeaderValue(p: Parser, ch: Byte): (o: Outcome) {
    if ch == CR then Flush(p, HeaderAlmostDone, Value)
    else if ch == LF then Flush(p, HeaderValueLws, Value)  // the rest of the line end is checked at once
    else Go(ValueByte(p, ch), HeaderValue)
  }

  function HeaderStateOf(c: Byte): (h: HeaderState) {
    if Is(c, 'c') then HC
    else if Is(c, 'p') then HMatchingProxyConnection
    else if Is(c, 't') then HMatchingTransferEncoding
    else if Is(c, 'u') then HMatchingUpgrade
    else HGeneral
  }

  // ----- the end of the headers, and bodies -----

  /** The message is complete; the application may have been told about a new protocol. */
  function Complete(p: Parser, leave: bool): (o: Outcome) {
    Outcome(p.(state := NewMessage(p)), [], [OnMessageComplete], [], leave)
  }

  predicate HasBody(p: Parser) {
    p.flags.chunked || 0 < p.contentLength < ULLONG_MAX
  }

  function StepHeadersDone(p: Parser): (o: Outcome) {
    if p.upgrade && (p.meth == Connect || p.flags.skipBody || !HasBody(p)) then Complete(p, true)
    else if p.flags.skipBody then Complete(p, false)
    else if p.flags.chunked then Go(p, ChunkSizeStart)
    else if p.contentLength == 0 then Complete(p, false)
    else if p.contentLength != ULLONG_MAX then Go(p, BodyIdentity)
    else if p.typ == Request || !NeedsEof(p) then Complete(p, false)
    else Go(p, BodyIdentityEof)
  }

  /** The notification first, and then what o does. */
  function After(e: Event, o: Outcome): (r: Outcome) {
    o.(tells := [e] + o.tells)
  }

  /** The last line end of the headers; skip is the application's answer to headers-complete. */
  function StepHeadersAlmostDone(p: Parser, ch: Byte, skip: bool): (o: Outcome) {
    if ch != LF then Fail(p, Strict)
    else if p.flags.trailing then After(OnChunkComplete, Complete(p, p.upgrade))
    else
      var q := p.(state := HeadersDone, upgrade := (p.flags.upgrade && p.flags.connectionUpgrade) || p.meth == Connect);
      After(OnHeadersComplete(HeadOf(q), skip),
            StepHeadersDone(if skip then q.(flags := q.flags.(skipBody := true)) else q))
  }

  function StepHeaderFieldStart(p: Parser, ch: Byte, skip: bool): (o: Outcome) {
    if ch == CR then Go(p, HeadersAlmostDone)
    else if ch == LF then StepHeadersAlmostDone(p.(state := HeadersAlmostDone), ch, skip)
    else if Token(ch) == 0 then Fail(p, InvalidHeaderToken)
    else Outcome(p.(index := 0, state := HeaderField, headerState := HeaderStateOf(Token(ch))), [], [], [Field], false)
  }

  /** Before, in and after a header value. */
  function StepValueLine(p: Parser, ch: Byte, skip: bool): (o: Outcome) {
    match p.state
    case HeaderValueDiscardWs =>
      if ch == SP || ch == HT then Go(p, HeaderValueDiscardWs)
      else if ch == CR then Go(p, HeaderValueDiscardWsAlmostDone)
      else if ch == LF then Go(p, HeaderValueDiscardLws)
      else StepHeaderValueStart(p, ch)
    case HeaderValue => StepHeaderValue(p, ch)
    case HeaderAlmostDone => Expect(p, ch, LF, HeaderValueLws)
    case HeaderValueLws =>
      if ch == SP || ch == HT then StepHeaderValueStart(p, ch)
      else StepHeaderFieldStart(Finished(p).(state := HeaderFieldStart), ch, skip)
    case HeaderValueDiscardWsAlmostDone => Expect(p, ch, LF, HeaderValueDiscardLws)
    case _ =>
      if ch == SP || ch == HT then Go(p, HeaderValueDiscardWs)
      else After(Data(Value, []), StepHeaderFieldStart(Finished(p).(state := HeaderFieldStart), ch, skip))
  }

  function StepHeader(p: Parser, ch: Byte, skip: bool): (o: Outcome) {
    match p.state
    case HeaderFieldStart => StepHeaderFieldStart(p, ch, skip)
    case HeaderField => StepHeaderField(p, ch)
    case HeadersAlmostDone => StepHeadersAlmostDone(p, ch, skip)
    case _ => StepValueLine(p, ch, skip)
  }

  function StepBody(p: Parser, ch: Byte): (o: Outcome) {
    match p.state
    case ChunkSizeStart =>
      if Unhex(ch) == -1 then Fail(p, InvalidChunkSize) else Go(p.(contentLength := Unhex(ch)), ChunkSize)
    case ChunkSize =>
      if ch == CR then Go(p, ChunkSizeAlmostDone)
      else if Unhex(ch) == -1 then if Is(ch, ';') || ch == SP then Go(p, ChunkParameters) else Fail(p, InvalidChunkSize)
      else if MaxBeforeDigit(p.contentLength, 16) then Fail(p, InvalidContentLength)
      else Go(p.(contentLength := 16 * p.contentLength + Unhex(ch)), ChunkSize)
    case ChunkParameters => if ch == CR then Go(p, ChunkSizeAlmostDone) else Go(p, ChunkParameters)
    case ChunkSizeAlmostDone =>
      if ch != LF then Fail(p, Strict)
      else if p.contentLength == 0 then
        Tell(p.(flags := p.flags.(trailing := true)), HeaderFieldStart, OnChunkHeader(p.contentLength))
      else Tell(p, ChunkData, OnChunkHeader(p.contentLength))
    case ChunkData =>
      if p.contentLength <= 1 then Go(p.(contentLength := 0), ChunkDataAlmostDone)
      else Go(p.(contentLength := p.contentLength - 1), ChunkData)
    case ChunkDataAlmostDone => if ch == CR then Flush(p, ChunkDataDone, Body) else Fail(p, Strict)
    case ChunkDataDone => if ch == LF then Tell(p, ChunkSizeStart, OnChunkComplete) else Fail(p, Strict)
    case BodyIdentity =>
      if p.contentLength <= 1 then Complete(p.(contentLength := 0, state := MessageDone), p.upgrade)
      else Go(p.(contentLength := p.contentLength - 1), BodyIdentity)
    case BodyIdentityEof => Go(p, BodyIdentityEof)
    case _ => Complete(p, p.upgrade)
  }

  datatype Group = AtEnd | AtStart | AtStatusLine | AtMethod | AtUrl | AtRequestLine | AtHeader | AtBody

  function GroupOf(s: State): (g: Group) {
    match s
    case Dead => AtEnd
    case StartReqOrRes => AtStart case ResOrRespH => AtStart case StartRes => AtStart case StartReq => AtStart
    case ResH => AtStatusLine case ResHT => AtStatusLine case ResHTT => AtStatusLine case ResHTTP => AtStatusLine
    case ResFirstHttpMajor => AtStatusLine case ResHttpMajor => AtStatusLine
    case ResFirstHttpMinor => AtStatusLine case ResHttpMinor => AtStatusLine
    case ResFirstStatusCode => AtStatusLine case ResStatusCode => AtStatusLine
    case ResStatusStart => AtStatusLine case ResStatus => AtStatusLine
    case ResLineAlmostDone => AtStatusLine
    case ReqMethod => AtMethod
    case ReqSpacesBeforeUrl => AtUrl case ReqSchema => AtUrl
    case ReqSchemaSlash => AtUrl case ReqSchemaSlashSlash => AtUrl
    case ReqServerStart => AtUrl case ReqServer => AtUrl case ReqServerWithAt => AtUrl case ReqPath => AtUrl
    case ReqQueryStringStart => AtUrl case ReqQueryString => AtUrl
    case ReqFragmentStart => AtUrl case ReqFragment => AtUrl
    case ReqHttpStart => AtRequestLine case ReqHttpH => AtRequestLine
    case ReqHttpHT => AtRequestLine case ReqHttpHTT => AtRequestLine
    case ReqHttpHTTP => AtRequestLine case ReqFirstHttpMajor => AtRequestLine case ReqHttpMajor => AtRequestLine
    case ReqFirstHttpMinor => AtRequestLine case ReqHttpMinor => AtRequestLine case ReqLineAlmostDone => AtRequestLine
    case HeaderFieldStart => AtHeader case HeaderField => AtHeader case HeaderValueDiscardWs => AtHeader
    case HeaderValueDiscardWsAlmostDone => AtHeader case HeaderValueDiscardLws => AtHeader
    case HeaderValueStart => AtHeader
    case HeaderValue => AtHeader case HeaderValueLws => AtHeader
    case HeaderAlmostDone => AtHeader case HeadersAlmostDone => AtHeader
    case HeadersDone => AtHeader
    case ChunkSizeStart => AtBody case ChunkSize => AtBody
    case ChunkParameters => AtBody case ChunkSizeAlmostDone => AtBody
    case ChunkData => AtBody case ChunkDataAlmostDone => AtBody case ChunkDataDone => AtBody
    case BodyIdentity => AtBody case BodyIdentityEof => AtBody case MessageDone => AtBody
  }

  /** The state of p decides what a byte of the headers does. */
  lemma HeaderByState(p: Parser, ch: Byte, skip: bool)
    ensures p.state == HeaderFieldStart ==> StepHeader(p, ch, skip) == StepHeaderFieldStart(p, ch, skip)
    ensures p.state == HeaderField ==> StepHeader(p, ch, skip) == StepHeaderField(p, ch)
    ensures p.state == HeaderValue ==> StepHeader(p, ch, skip) == StepHeaderValue(p, ch)
    ensures p.state == HeadersAlmostDone ==> StepHeader(p, ch, skip) == StepHeadersAlmostDone(p, ch, skip)
    ensures p.state != HeaderFieldStart && p.state != HeaderField && p.state != HeadersAlmostDone ==>
              StepHeader(p, ch, skip) == StepValueLine(p, ch, skip)
  {
  }

  /** The next header, or the end of the headers, after one that p has read. */
  function StepNextHeader(p: Parser, ch: Byte, skip: bool): (o: Outcome) {
    StepHeaderFieldStart(Finished(p).(state := HeaderFieldStart), ch, skip)
  }

  lemma FoldIs(p: Parser, ch: Byte, skip: bool)
    requires p.state == HeaderValueLws
    ensures StepValueLine(p, ch, skip)
         == if ch == SP || ch == HT then StepHeaderValueStart(p, ch) else StepNextHeader(p, ch, skip)
  {
  }

  lemma EmptyFoldIs(p: Parser, ch: Byte, skip: bool)
    requires p.state == HeaderValueDiscardLws
    ensures StepValueLine(p, ch, skip)
         == if ch == SP || ch == HT then Go(p, HeaderValueDiscardWs)
            else After(Data(Value, []), StepNextHeader(p, ch, skip))
  {
  }

  lemma DiscardIs(p: Parser, ch: Byte, skip: bool)
    requires p.state == HeaderValueDiscardWs
    ensures StepValueLine(p, ch, skip)
         == if ch == SP || ch == HT then Go(p, HeaderValueDiscardWs)
            else if ch == CR then Go(p, HeaderValueDiscardWsAlmostDone)
            else if ch == LF then Go(p, HeaderValueDiscardLws)
            else StepHeaderValueStart(p, ch)
  {
  }

  lemma LineEndStep(p: Parser, ch: Byte, skip: bool)
    requires p.state == HeaderAlmostDone || p.state == HeaderValueDiscardWsAlmostDone
    ensures var s := if p.state == HeaderAlmostDone then HeaderValueLws else HeaderValueDiscardLws;
            StepValueLine(p, ch, skip) == if ch == LF then Go(p, s) else Fail(p, Strict)
  {
  }

  // ----- what every byte keeps -----

  predicate InField(h: HeaderState) {
    h == HGeneral || h == HC || h == HCO || h == HCON || h == HMatchingConnection || h == HMatchingProxyConnection
    || h == HMatchingContentLength || h == HMatchingTransferEncoding || h == HMatchingUpgrade
    || h == HConnection || h == HContentLength || h == HTransferEncoding || h == HUpgrade
  }

  predicate InValue(h: HeaderState) {
    h == HGeneral || h == HContentLength || h == HMatchingTransferEncodingChunked || h == HMatchingConnectionTokenStart
    || h == HMatchingConnectionKeepAlive || h == HMatchingConnectionClose || h == HMatchingConnectionUpgrade
    || h == HMatchingConnectionToken || h == HTransferEncodingChunked
    || h == HConnectionKeepAlive || h == HConnectionClose || h == HConnectionUpgrade
  }

  // Always true. Mentioning it expands WellFormed.
  ghost predicate Expand(x: nat) {
    true
  }

  /** What the assertions of the parser say of its fields between bytes, and that no table is read
      past its end. */
  predicate Sound(p: Parser) {
    p.errno == Ok &&
    match p.state
    case HeadersDone => false
    case MessageDone => false
    case HeaderValueStart => false
    case ReqMethod => p.index <= |MethodName(p.meth)|
    case HeaderField => InField(p.headerState)
    case HeaderValue => InValue(p.headerState) && (p.headerState == HContentLength ==> p.contentLength < ULLONG_MAX)
    case ChunkSizeStart => p.flags.chunked
    case ChunkSize => p.flags.chunked && p.contentLength < ULLONG_MAX
    case ChunkParameters => p.flags.chunked && p.contentLength < ULLONG_MAX
    case ChunkSizeAlmostDone => p.flags.chunked && p.contentLength < ULLONG_MAX
    case ChunkData => p.flags.chunked && 0 < p.contentLength < ULLONG_MAX
    case ChunkDataAlmostDone => p.flags.chunked && p.contentLength == 0
    case ChunkDataDone => p.flags.chunked
    case BodyIdentity => 0 < p.contentLength < ULLONG_MAX
    case _ => true
  }

  ghost predicate WellFormed(p: Parser) {
    forall x: nat :: Expand(x) ==> Sound(p)
  }

  lemma MethodPrefixes(m: Method, i: nat, ch: Byte)
    requires OtherMethod(m, i, ch) != []
    ensures i + 1 <= |MethodName(OtherMethod(m, i, ch)[0])|
  {
  }

  lemma FirstMethodLong(ch: Byte)
    requires FirstMethod(ch) != []
    ensures |MethodName(FirstMethod(ch)[0])| >= 2
  {
  }

  lemma FieldByteKeeps(p: Parser, ch: Byte, c: Byte)
    requires InField(p.headerState)
    ensures InField(FieldByte(p, ch, c).headerState)
    ensures FieldByte(p, ch, c)
         == p.(index := FieldByte(p, ch, c).index, headerState := FieldByte(p, ch, c).headerState)
  {
  }

  lemma ValueByteKeeps(p: Parser, ch: Byte)
    requires Sound(p) && p.state == HeaderValue && ValueByte(p, ch).errno == Ok
    ensures Sound(ValueByte(p, ch)) && ValueByte(p, ch).state == HeaderValue
  {
  }

  lemma StartKeeps(p: Parser, ch: Byte)
    requires Sound(p) && GroupOf(p.state) == AtStart
    ensures StepStart(p, ch).p.errno == Ok ==> Sound(StepStart(p, ch).p)
  {
    if FirstMethod(ch) != [] {
      FirstMethodLong(ch);
    }
  }

  lemma StatusLineKeeps(p: Parser, ch: Byte)
    requires Sound(p) && GroupOf(p.state) == AtStatusLine
    ensures StepStatusLine(p, ch).p.errno == Ok ==> Sound(StepStatusLine(p, ch).p)
  {
  }

  lemma MethodKeeps(p: Parser, ch: Byte)
    requires Sound(p) && GroupOf(p.state) == AtMethod
    ensures StepMethod(p, ch).p.errno == Ok ==> Sound(StepMethod(p, ch).p)
  {
    if OtherMethod(p.meth, p.index, ch) != [] {
      MethodPrefixes(p.meth, p.index, ch);
    }
  }

  lemma UrlStates(s: State, ch: Byte)
    ensures var r := ParseUrlChar(s, ch); r == Dead || (GroupOf(r) == AtUrl && r != ReqSpacesBeforeUrl)
  {
  }

  lemma UrlCharKeeps(p: Parser, ch: Byte, s: State, mark: seq<DataKind>)
    requires p.errno == Ok
    ensures StepUrlChar(p, ch, s, mark).p.errno == Ok ==> Sound(StepUrlChar(p, ch, s, mark).p)
  {
    UrlStates(s, ch);
  }

  lemma UrlKeeps(p: Parser, ch: Byte)
    requires Sound(p) && GroupOf(p.state) == AtUrl
    ensures StepUrl(p, ch).p.errno == Ok ==> Sound(StepUrl(p, ch).p)
  {
    UrlCharKeeps(p, ch, p.state, []);
    UrlCharKeeps(p, ch, if p.meth == Connect then ReqServerStart else ReqSpacesBeforeUrl, [Url]);
  }

  lemma RequestLineKeeps(p: Parser, ch: Byte)
    requires Sound(p) && GroupOf(p.state) == AtRequestLine
    ensures StepRequestLine(p, ch).p.errno == Ok ==> Sound(StepRequestLine(p, ch).p)
  {
  }

  lemma CompleteKeeps(p: Parser, leave: bool)
    requires p.errno == Ok
    ensures Sound(Complete(p, leave).p)
  {
  }

  lemma HeadersEndKeeps(p: Parser, ch: Byte, skip: bool)
    requires p.errno == Ok
    ensures StepHeadersAlmostDone(p, ch, skip).p.errno == Ok ==> Sound(StepHeadersAlmostDone(p, ch, skip).p)
  {
    var q := p.(state := HeadersDone, upgrade := (p.flags.upgrade && p.flags.connectionUpgrade) || p.meth == Connect);
    var q' := if skip then q.(flags := q.flags.(skipBody := true)) else q;
    CompleteKeeps(p, p.upgrade);
    CompleteKeeps(q', true);
    CompleteKeeps(q', false);
  }

  lemma FieldStartKeeps(p: Parser, ch: Byte, skip: bool)
    requires p.errno == Ok
    ensures StepHeaderFieldStart(p, ch, skip).p.errno == Ok ==> Sound(StepHeaderFieldStart(p, ch, skip).p)
  {
    HeadersEndKeeps(p.(state := HeadersAlmostDone), ch, skip);
  }

  lemma ValueStartKeeps(p: Parser, ch: Byte)
    requires p.errno == Ok
    ensures StepHeaderValueStart(p, ch).p.errno == Ok ==> Sound(StepHeaderValueStart(p, ch).p)
  {
  }

  lemma ValueLineKeeps(p: Parser, ch: Byte, skip: bool)
    requires Sound(p) && GroupOf(p.state) == AtHeader
    ensures StepValueLine(p, ch, skip).p.errno == Ok ==> Sound(StepValueLine(p, ch, skip).p)
  {
    if p.state == HeaderValue {
      if ch != CR && ch != LF && ValueByte(p, ch).errno == Ok {
        ValueByteKeeps(p, ch);
      }
    } else {
      ValueStartKeeps(p, ch);
      FieldStartKeeps(Finished(p).(state := HeaderFieldStart), ch, skip);
    }
  }

  lemma HeaderKeeps(p: Parser, ch: Byte, skip: bool)
    requires Sound(p) && GroupOf(p.state) == AtHeader
    ensures StepHeader(p, ch, skip).p.errno == Ok ==> Sound(StepHeader(p, ch, skip).p)
  {
    HeaderByState(p, ch, skip);
    if p.state == HeaderFieldStart {
      FieldStartKeeps(p, ch, skip);
    } else if p.state == HeaderField {
      FieldByteKeeps(p, ch, Token(ch));
    } else if p.state == HeadersAlmostDone {
      HeadersEndKeeps(p, ch, skip);
    } else {
      ValueLineKeeps(p, ch, skip);
    }
  }

  lemma BodyKeeps(p: Parser, ch: Byte)
    requires Sound(p) && GroupOf(p.state) == AtBody
    ensures StepBody(p, ch).p.errno == Ok ==> Sound(StepBody(p, ch).p)
  {
    CompleteKeeps(p.(contentLength := 0, state := MessageDone), p.upgrade);
    CompleteKeeps(p, p.upgrade);
  }

  /** What byte ch does in the state of p. */
  function Step(p: Parser, ch: Byte, skip: bool): (o: Outcome) {
    match GroupOf(p.state)
    case AtEnd => if ch == CR || ch == LF then Go(p, Dead) else Fail(p, ClosedConnection)
    case AtStart => StepStart(p, ch)
    case AtStatusLine => StepStatusLine(p, ch)
    case AtMethod => StepMethod(p, ch)
    case AtUrl => StepUrl(p, ch)
    case AtRequestLine => StepRequestLine(p, ch)
    case AtHeader => StepHeader(p, ch, skip)
    case AtBody => StepBody(p, ch)
  }

  lemma StepByState(p: Parser, ch: Byte, skip: bool)
    ensures var g, o := GroupOf(p.state), Step(p, ch, skip);
            && (g == AtStart ==> o == StepStart(p, ch)) && (g == AtStatusLine ==> o == StepStatusLine(p, ch))
            && (g == AtMethod ==> o == StepMethod(p, ch)) && (g == AtUrl ==> o == StepUrl(p, ch))
            && (g == AtRequestLine ==> o == StepRequestLine(p, ch)) && (g == AtHeader ==> o == StepHeader(p, ch, skip))
            && (g == AtBody ==> o == StepBody(p, ch))
  {
  }

  /** Every byte keeps the fields well-formed, unless it is an error. */
  lemma StepKeeps(p: Parser, ch: Byte, skip: bool)
    requires WellFormed(p) && Step(p, ch, skip).p.errno == Ok
    ensures WellFormed(Step(p, ch, skip).p)
  {
    assert Expand(0);
    match GroupOf(p.state)
    case AtEnd =>
    case AtStart => StartKeeps(p, ch);
    case AtStatusLine => StatusLineKeeps(p, ch);
    case AtMethod => MethodKeeps(p, ch);
    case AtUrl => UrlKeeps(p, ch);
    case AtRequestLine => RequestLineKeeps(p, ch);
    case AtHeader => HeaderKeeps(p, ch, skip);
    case AtBody => BodyKeeps(p, ch);
  }
}
