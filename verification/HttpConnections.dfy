/** Requests and responses from their first byte to their last, alone and one after another. */
module HttpConnections {
  import opened Numbers
  import opened HttpModel
  import opened HttpRun
  import opened HttpCalls
  import opened HttpParser
  import HttpFragments
  import opened HttpLengths
  import opened HttpHeaders
  import opened HttpMethods
  import opened HttpUrls
  import opened HttpStartLine
  import opened HttpHeard
  import opened HttpHeadings
  import opened HttpContents
  import opened HttpMessages

  // ----- from the first header on -----

  function RestBytes(hs: seq<Header>, c: Content): (d: seq<Byte>) {
    Lines(hs) + [CR] + ([LF] + ContentBytes(c))
  }

  /** The parser at the end of the headers, from p before them. */
  function HeadersEnd(p: Parser, hs: seq<Header>): (q: Parser)
    requires LengthOf(p.contentLength, hs) <= ULLONG_MAX
  {
    p.(state := HeadersAlmostDone, flags := AllSaid(p.flags, hs), contentLength := LengthOf(p.contentLength, hs))
  }

  lemma {:induction false} LengthFits(n: UInt64, hs: seq<Header>)
    requires HeadersOk(hs)
    ensures LengthOf(n, hs) <= ULLONG_MAX
    decreases |hs|
  {
    if hs != [] {
      assert HeaderOk(hs[0]);
      if Spells(hs[0].name, "content-length") {
        DecimalFits(hs[0].value);
      }
      LengthFits(LengthBy(n, hs[0]), hs[1..]);
    }
  }

  /** Headers and what they announce. */
  lemma RestTells(f: Steps, answer: Answer, p: Parser, s: Stream, hs: seq<Header>, c: Content, skip: bool)
    returns (q: Parser)
    requires IsMachine(f, answer) && p.state == HeaderFieldStart && p.errno == Ok && HeadersOk(hs)
    requires !p.flags.trailing && !p.flags.skipBody && forall t, r :: answer(t, r) == skip
    requires LengthOf(p.contentLength, hs) <= ULLONG_MAX && Announced(HeadersEnd(p, hs), skip, c)
    ensures Tells(f, p, s, RestBytes(hs, c), q,
                  ContentHeard(HeadHeard(HeadersHeard(s, hs), HeadersEnd(p, hs), skip), c))
    ensures AfterMessage(HeadersEnd(p, hs), q, c)
  {
    var t := HeadersHeard(s, hs);
    var r := LinesTell(f, answer, p, s, hs);
    TrailingStays(p.flags, hs);
    q := ContentTells(f, answer, r, t, c);
    TellsOn(f, p, s, Lines(hs) + [CR], r, t, [LF] + ContentBytes(c), q,
            ContentHeard(HeadHeard(t, HeadersEnd(p, hs), skip), c));
  }

  // ----- requests -----

  datatype Request = Request(
    meth: Method, url: seq<Byte>, major: seq<Byte>, minor: seq<Byte>, headers: seq<Header>, content: Content)

  function NameBytes(m: Method): (w: seq<Byte>)
    ensures IsMethod(w, m)
  {
    NamesPlain(m);
    seq(|MethodName(m)|, i requires 0 <= i < |MethodName(m)| => MethodName(m)[i] as int)
  }

  function VersionBytes(major: seq<Byte>, minor: seq<Byte>): (d: seq<Byte>) {
    HTTP + (major + [DOT] + minor) + ([CR] + [LF])
  }

  function RequestBytes(r: Request): (d: seq<Byte>) {
    NameBytes(r.meth) + [SP] + (r.url + [SP] + (VersionBytes(r.major, r.minor) + RestBytes(r.headers, r.content)))
  }

  function RequestFlags(r: Request): (flags: Flags) {
    AllSaid(NO_FLAGS, r.headers)
  }

  /** A request that the parser takes and that asks for no other protocol: the headers announce just what
      the content is. */
  predicate RequestOk(r: Request, skip: bool) {
    && IsUrl(r.url) && Unbroken(r.url)
    && IsNumber(r.major) && IsNumber(r.minor) && Decimal(r.major) <= 999 && r.major[0] != 0x30
    && Decimal(r.minor) <= 999
    && HeadersOk(r.headers) && ContentOk(r.content) && !Upgrades(r.meth, RequestFlags(r))
    && match r.content
       case Nothing => skip || (!RequestFlags(r).chunked && LengthOf(ULLONG_MAX, r.headers) in {0, ULLONG_MAX})
       case Whole(data) => !skip && !RequestFlags(r).chunked && LengthOf(ULLONG_MAX, r.headers) == |data|
       case Chunked(_, _) => !skip && RequestFlags(r).chunked
  }

  /** What is heard of it; code is whatever status code the parser holds. */
  function RequestHeard(s: Stream, r: Request, skip: bool, code: nat): (t: Stream)
    requires RequestOk(r, skip) && LengthOf(ULLONG_MAX, r.headers) <= ULLONG_MAX
  {
    var head := MessageHead(ParserType.Request, r.meth, code, RequestFlags(r), false, LengthOf(ULLONG_MAX, r.headers));
    var t := HeadersHeard(Heard(Heard(s, OnMessageBegin), Data(Url, r.url)), r.headers);
    ContentHeard(Heard(t, OnHeadersComplete(head, skip)), r.content)
  }

  /** The connection persists after it. */
  predicate Lasting(r: Request) {
    && IsNumber(r.major) && IsNumber(r.minor)
    && Persists(Decimal(r.major), Decimal(r.minor), FinalFlags(RequestFlags(r), r.content))
  }

  /** The parser after it: ready for another one, or for none. */
  predicate Remains(q: Parser, r: Request) {
    q.state == if Lasting(r) then StartReq else Dead
  }

  predicate RemainsAfter(q: Parser, rs: seq<Request>) {
    rs != [] && Remains(q, rs[|rs| - 1])
  }

  lemma RemainsStill(q: Parser, rs: seq<Request>)
    requires |rs| > 1 && RemainsAfter(q, rs[1..])
    ensures RemainsAfter(q, rs)
  {
  }

  /** The parser between requests. */
  predicate AtRequest(p: Parser) {
    p.state == StartReq && p.errno == Ok && p.typ == ParserType.Request
  }

  // ----- its first line -----

  lemma FirstLetterTells(f: Steps, answer: Answer, p: Parser, s: Stream, ch: Byte)
    requires IsMachine(f, answer) && p.state == StartReq && p.errno == Ok && ch != CR && ch != LF
    requires FirstMethod(ch) != []
    ensures Tells(f, p, s, [ch], Fresh(p).(meth := FirstMethod(ch)[0], index := 1, state := ReqMethod),
                  Heard(s, OnMessageBegin))
  {
    var q := Fresh(p).(meth := FirstMethod(ch)[0], index := 1, state := ReqMethod);
    StepByState(p, ch, answer(s, p));
    AnnouncesTells(f, answer, p, s, ch, q, [OnMessageBegin]);
    OneEvent(s, OnMessageBegin);
  }

  lemma MethodTells(f: Steps, answer: Answer, p: Parser, s: Stream, m: Method) returns (q: Parser)
    requires IsMachine(f, answer) && p.state == StartReq && p.errno == Ok
    ensures Tells(f, p, s, NameBytes(m) + [SP], q, Heard(s, OnMessageBegin))
    ensures q == Fresh(p).(state := ReqSpacesBeforeUrl, meth := m, index := q.index)
  {
    var w, t := NameBytes(m), Heard(s, OnMessageBegin);
    NameRuns(f, answer, p, s, m);
    var r := Fresh(p).(meth := FirstMethod(w[0])[0], index := 1, state := ReqMethod);
    FirstLetterTells(f, answer, p, s, w[0]);
    assert w + [SP] == [w[0]] + (w[1..] + [SP]);
    TellsLast(f, p, s, [w[0]], r, t, w[1..] + [SP]);
    q := ClosedStretch(Word, f, answer, r, t, w[1..]);
    TellsOn(f, p, s, [w[0]], r, t, w[1..] + [SP], q, t);
    assert OpenTells(0, p, s);
  }

  lemma NameRuns(f: Steps, answer: Answer, p: Parser, s: Stream, m: Method)
    requires IsMachine(f, answer) && p.state == StartReq && p.errno == Ok
    ensures var w, r := NameBytes(m), Run(f, p, s, NameBytes(m) + [SP], 0).p;
            && |w| >= 3 && w[0] != CR && w[0] != LF && FirstMethod(w[0]) != []
            && (forall i :: 0 <= i < |w| ==> w[i] != SP)
            && r.errno == Ok && r == Fresh(p).(state := ReqSpacesBeforeUrl, meth := m, index := r.index)
  {
    NamesPlain(m);
    FirstGuess(m);
    MethodRead(f, answer, p, s, NameBytes(m));
  }

  lemma UrlTells(f: Steps, answer: Answer, p: Parser, s: Stream, u: seq<Byte>)
    requires IsMachine(f, answer) && p.state == ReqSpacesBeforeUrl && p.errno == Ok && p.meth != Connect
    requires IsUrl(u) && Unbroken(u)
    ensures Tells(f, p, s, u + [SP], p.(state := ReqHttpStart), Add(s, Data(Url, u)))
  {
    UrlRead(f, answer, p, s, u);
    var q := ClosedStretch(Path, f, answer, p, s, u);
    assert OpenTells(0, p, s);
  }

  lemma VersionParts(major: seq<Byte>, minor: seq<Byte>)
    ensures VersionBytes(major, minor) == HTTP + (major + [DOT] + minor) + [CR] + [LF]
  {
  }

  lemma VersionTells(f: Steps, answer: Answer, p: Parser, s: Stream, major: seq<Byte>, minor: seq<Byte>)
    requires IsMachine(f, answer) && p.state == ReqHttpStart && p.errno == Ok && IsNumber(major) && IsNumber(minor)
    requires Decimal(major) <= 999 && major[0] != 0x30 && Decimal(minor) <= 999
    ensures Tells(f, p, s, VersionBytes(major, minor),
                  p.(state := HeaderFieldStart, httpMajor := Decimal(major), httpMinor := Decimal(minor)), s)
  {
    var x := HTTP + (major + [DOT] + minor) + [CR];
    VersionParts(major, minor);
    RequestVersion(f, answer, p, major, minor);
    assert HttpHeaders.Open(0, p);
    var r := p.(state := HeaderFieldStart, httpMajor := Decimal(major), httpMinor := Decimal(minor));
    assert LeadsAt(f, p, s, VersionBytes(major, minor), r);
    var q := ClosedStretch(Version, f, answer, p, s, x);
    assert OpenTells(0, p, s);
  }

  /** A request is heard as it was, and then the parser is ready for another one or for none. */
  lemma RequestTells(f: Steps, answer: Answer, p: Parser, s: Stream, r: Request, skip: bool) returns (q: Parser)
    requires IsMachine(f, answer) && AtRequest(p) && RequestOk(r, skip) && forall t, q :: answer(t, q) == skip
    ensures LengthOf(ULLONG_MAX, r.headers) <= ULLONG_MAX
    ensures Tells(f, p, s, RequestBytes(r), q, RequestHeard(s, r, skip, p.statusCode))
    ensures q.errno == Ok && q.typ == p.typ && q.statusCode == p.statusCode && Remains(q, r)
  {
    LengthFits(ULLONG_MAX, r.headers);
    var t := Heard(s, OnMessageBegin);
    var u := Heard(t, Data(Url, r.url));
    var a := MethodTells(f, answer, p, s, r.meth);
    var b := a.(state := ReqHttpStart);
    UrlTells(f, answer, a, t, r.url);
    var c := b.(state := HeaderFieldStart, httpMajor := Decimal(r.major), httpMinor := Decimal(r.minor));
    VersionTells(f, answer, b, u, r.major, r.minor);
    q := RestTells(f, answer, c, u, r.headers, r.content, skip);
    var end := RequestHeard(s, r, skip, p.statusCode);
    TellsOn(f, b, u, VersionBytes(r.major, r.minor), c, u, RestBytes(r.headers, r.content), q, end);
    TellsOn(f, a, t, r.url + [SP], b, u, VersionBytes(r.major, r.minor) + RestBytes(r.headers, r.content), q, end);
    TellsOn(f, p, s, NameBytes(r.meth) + [SP], a, t,
            r.url + [SP] + (VersionBytes(r.major, r.minor) + RestBytes(r.headers, r.content)), q, end);
  }

  // ----- one request after another -----

  predicate RequestsOk(rs: seq<Request>, skip: bool) {
    && (forall i :: 0 <= i < |rs| ==> RequestOk(rs[i], skip) && LengthOf(ULLONG_MAX, rs[i].headers) <= ULLONG_MAX)
    && forall i :: 0 <= i < |rs| - 1 ==> Lasting(rs[i])
  }

  function AllRequestBytes(rs: seq<Request>): (d: seq<Byte>) {
    if rs == [] then [] else RequestBytes(rs[0]) + AllRequestBytes(rs[1..])
  }

  function RequestsHeard(s: Stream, rs: seq<Request>, skip: bool, code: nat): (t: Stream)
    requires RequestsOk(rs, skip)
    decreases |rs|
  {
    if rs == [] then s else RequestsHeard(RequestHeard(s, rs[0], skip, code), rs[1..], skip, code)
  }

  lemma MoreOk(rs: seq<Request>, skip: bool)
    requires RequestsOk(rs, skip) && |rs| > 1
    ensures RequestsOk(rs[1..], skip) && Lasting(rs[0])
  {
    var more := rs[1..];
    forall i | 0 <= i < |more| ensures RequestOk(more[i], skip) && LengthOf(ULLONG_MAX, more[i].headers) <= ULLONG_MAX {
      assert more[i] == rs[i + 1];
    }
    forall i | 0 <= i < |more| - 1 ensures Lasting(more[i]) {
      assert more[i] == rs[i + 1];
    }
  }

  /** All requests of a connection are heard as they were. */
  lemma {:induction false} RequestsTell(f: Steps, answer: Answer, p: Parser, s: Stream, rs: seq<Request>, skip: bool)
    returns (q: Parser)
    requires IsMachine(f, answer) && AtRequest(p) && RequestsOk(rs, skip) && forall t, q :: answer(t, q) == skip
    requires rs != []
    ensures Tells(f, p, s, AllRequestBytes(rs), q, RequestsHeard(s, rs, skip, p.statusCode)) && q.errno == Ok
    ensures RemainsAfter(q, rs)
    decreases |rs|, 1
  {
    q := RequestTells(f, answer, p, s, rs[0], skip);
    if |rs| == 1 {
      OnlyRequest(f, p, s, rs, skip, p.statusCode, q);
    } else {
      q := OthersTell(f, answer, p, s, rs, skip, q);
    }
  }

  /** The first one led to r. */
  lemma {:induction false} OthersTell(f: Steps, answer: Answer, p: Parser, s: Stream, rs: seq<Request>, skip: bool,
                                      r: Parser)
    returns (q: Parser)
    requires IsMachine(f, answer) && RequestsOk(rs, skip) && |rs| > 1 && forall t, q :: answer(t, q) == skip
    requires Tells(f, p, s, RequestBytes(rs[0]), r, RequestHeard(s, rs[0], skip, p.statusCode))
    requires r.errno == Ok && r.typ == ParserType.Request && r.statusCode == p.statusCode && Remains(r, rs[0])
    ensures Tells(f, p, s, AllRequestBytes(rs), q, RequestsHeard(s, rs, skip, p.statusCode)) && q.errno == Ok
    ensures RemainsAfter(q, rs)
    decreases |rs|, 0
  {
    var t := RequestHeard(s, rs[0], skip, p.statusCode);
    MoreOk(rs, skip);
    q := RequestsTell(f, answer, r, t, rs[1..], skip);
    OneThenMore(f, p, s, rs, skip, p.statusCode, r, t, q);
    RemainsStill(q, rs);
  }

  lemma OneThenMore(f: Steps, p: Parser, s: Stream, rs: seq<Request>, skip: bool, code: nat, r: Parser, t: Stream,
                    q: Parser)
    requires RequestsOk(rs, skip) && |rs| > 1 && RequestsOk(rs[1..], skip) && t == RequestHeard(s, rs[0], skip, code)
    requires Tells(f, p, s, RequestBytes(rs[0]), r, t)
    requires Tells(f, r, t, AllRequestBytes(rs[1..]), q, RequestsHeard(t, rs[1..], skip, code))
    ensures Tells(f, p, s, AllRequestBytes(rs), q, RequestsHeard(s, rs, skip, code))
  {
    TellsOn(f, p, s, RequestBytes(rs[0]), r, t, AllRequestBytes(rs[1..]), q, RequestsHeard(t, rs[1..], skip, code));
  }

  lemma OnlyRequest(f: Steps, p: Parser, s: Stream, rs: seq<Request>, skip: bool, code: nat, q: Parser)
    requires RequestsOk(rs, skip) && |rs| == 1 && Remains(q, rs[0])
    requires Tells(f, p, s, RequestBytes(rs[0]), q, RequestHeard(s, rs[0], skip, code))
    ensures Tells(f, p, s, AllRequestBytes(rs), q, RequestsHeard(s, rs, skip, code)) && RemainsAfter(q, rs)
  {
    assert rs[1..] == [];
    assert RequestBytes(rs[0]) + [] == RequestBytes(rs[0]);
  }

  /** However their bytes are cut into buffers. */
  lemma RequestsInPieces(answer: Answer, p: Parser, told: Stream, rs: seq<Request>, skip: bool, pieces: seq<seq<Byte>>)
    requires WellFormed(p) && HttpCalls.Ends(p.state, told) && AtRequest(p) && RequestsOk(rs, skip) && rs != []
    requires pieces != [] && (forall i :: 0 <= i < |pieces| ==> pieces[i] != [])
    requires HttpFragments.Whole(pieces) == AllRequestBytes(rs) && forall t, q :: answer(t, q) == skip
    ensures var e := HttpFragments.CalledAll(Machine(answer), p, told, pieces);
            && !e.stopped && e.taken == |AllRequestBytes(rs)| && e.p.errno == Ok
            && e.d.told == RequestsHeard(told, rs, skip, p.statusCode)
  {
    var f, data := Machine(answer), AllRequestBytes(rs);
    MachineIs(answer);
    MachineIsOrderly(f, answer);
    var q := RequestsTell(f, answer, p, told, rs, skip);
    assert OpenTells(0, p, told);
    HttpFragments.FragmentationInvariance(f, answer, p, told, pieces);
    HttpFragments.CallFromStart(f, p, told, data);
    assert data != [] by { assert HttpFragments.Whole(pieces)[0] == pieces[0][0]; }
    HttpFragments.CalledIs(f, p, told, data);
  }
}
