/** Responses from their first byte to their last. */
module HttpResponses {
  import opened Numbers
  import opened HttpModel
  import opened HttpRun
  import opened HttpCalls
  import opened HttpParser
  import opened HttpLengths
  import opened HttpHeaders
  import opened HttpStartLine
  import opened HttpHeard
  import opened HttpHeadings
  import opened HttpContents
  import opened HttpMessages
  import opened HttpConnections

  datatype Response = Response(
    major: seq<Byte>, minor: seq<Byte>, code: seq<Byte>, reason: seq<Byte>, headers: seq<Header>, content: Content)

  function CodeBytes(r: Response): (d: seq<Byte>) {
    r.code + ([SP] + r.reason + ([CR] + [LF]))
  }

  function ResponseBytes(r: Response): (d: seq<Byte>) {
    HTTP + (r.major + [DOT] + r.minor) + [SP] + (CodeBytes(r) + RestBytes(r.headers, r.content))
  }

  function ResponseFlags(r: Response): (flags: Flags) {
    AllSaid(NO_FLAGS, r.headers)
  }

  /** A response without a body by its status code. */
  predicate NeverHasBody(code: nat) {
    100 <= code < 200 || code == 204 || code == 304
  }

  /** A response that the parser takes, that changes to no other protocol and says where it ends. */
  predicate ResponseOk(r: Response, skip: bool) {
    && IsNumber(r.major) && IsNumber(r.minor) && IsNumber(r.code) && IsReason(r.reason)
    && Decimal(r.major) <= 999 && Decimal(r.minor) <= 999 && Decimal(r.code) <= 999
    && HeadersOk(r.headers) && ContentOk(r.content)
    && !(ResponseFlags(r).upgrade && ResponseFlags(r).connectionUpgrade)
    && match r.content
       case Nothing =>
         || skip
         || (!ResponseFlags(r).chunked
             && LengthOf(ULLONG_MAX, r.headers) in (if NeverHasBody(Decimal(r.code)) then {0, ULLONG_MAX} else {0}))
       case Whole(data) => !skip && !ResponseFlags(r).chunked && LengthOf(ULLONG_MAX, r.headers) == |data|
       case Chunked(_, _) => !skip && ResponseFlags(r).chunked
  }

  /** Nothing is told of the reason if it is empty. */
  function ReasonHeard(s: Stream, reason: seq<Byte>): (t: Stream) {
    if reason == [] then s else Add(s, Data(DataKind.Status, reason))
  }

  /** What is heard of a response; m is whatever method the parser holds. */
  function ResponseHeard(s: Stream, r: Response, skip: bool, m: Method): (t: Stream)
    requires ResponseOk(r, skip) && LengthOf(ULLONG_MAX, r.headers) <= ULLONG_MAX
  {
    var head := MessageHead(ParserType.Response, m, Decimal(r.code), ResponseFlags(r), false,
                            LengthOf(ULLONG_MAX, r.headers));
    var t := HeadersHeard(ReasonHeard(Heard(s, OnMessageBegin), r.reason), r.headers);
    ContentHeard(Heard(t, OnHeadersComplete(head, skip)), r.content)
  }

  // ----- the first line -----

  lemma StatusSpace(p: Parser, skip: bool)
    requires Within(Version, p.state) && GroupOf(p.state) == AtStatusLine
    ensures var o := Step(p, SP, skip); o.p.errno == Ok ==> Silent(p, o, o.p)
  {
    StepByState(p, SP, skip);
    StatusLineStretch(p, SP);
    LinesMarked(p.state);
    SpaceMarked(p);
  }

  lemma SpaceMarked(p: Parser)
    requires Within(Version, p.state) && GroupOf(p.state) == AtStatusLine
    ensures StepStatusLine(p, SP).p.errno == Ok ==> Marked(StepStatusLine(p, SP).p.state) == []
  {
  }

  lemma HTells(f: Steps, answer: Answer, p: Parser, s: Stream)
    requires IsMachine(f, answer) && p.state == StartRes && p.errno == Ok
    ensures Tells(f, p, s, [0x48], Fresh(p).(state := ResH), Heard(s, OnMessageBegin))
  {
    StepByState(p, 0x48, answer(s, p));
    AnnouncesTells(f, answer, p, s, 0x48, Fresh(p).(state := ResH), [OnMessageBegin]);
    OneEvent(s, OnMessageBegin);
  }

  lemma HttpParts(major: seq<Byte>, minor: seq<Byte>)
    ensures HTTP + (major + [DOT] + minor) + [SP] == [0x48] + (PROTOCOL + (major + [DOT] + minor) + [SP])
  {
  }

  /** Stretches of the first line stay in its group. */
  lemma {:induction false} VersionRun(f: Steps, answer: Answer, p: Parser, s: Stream, d: seq<Byte>, i: nat)
    requires IsMachine(f, answer) && i <= |d| && forall j :: 0 <= j < |d| ==> Fits(Version, d[j])
    requires Within(Version, p.state) && GroupOf(p.state) == AtStatusLine
    ensures var q := Run(f, p, s, d, i).p; Within(Version, q.state) && GroupOf(q.state) == AtStatusLine
    decreases |d| - i
  {
    if i < |d| {
      AtByte(f, answer, s, p, d[i]);
      StepByState(p, d[i], answer(s, p));
      InStatusLine(p, d[i]);
      var o := f(s, p, d[i]);
      if o.p.errno == Ok && !o.leave {
        VersionRun(f, answer, o.p, Hear(s, p.state, d[i], o), d, i + 1);
      }
    }
  }

  lemma InStatusLine(p: Parser, ch: Byte)
    requires Within(Version, p.state) && GroupOf(p.state) == AtStatusLine && ch != LF && ch != SP
    ensures var q := StepStatusLine(p, ch).p; Within(Version, q.state) && GroupOf(q.state) == AtStatusLine
  {
  }

  /** Part of the first line and the space after it. */
  lemma SpaceTells(f: Steps, answer: Answer, p: Parser, s: Stream, d: seq<Byte>, q: Parser)
    requires IsMachine(f, answer) && p.errno == Ok && Within(Version, p.state) && GroupOf(p.state) == AtStatusLine
    requires (forall j :: 0 <= j < |d| ==> Fits(Version, d[j])) && LeadsAt(f, p, s, d + [SP], q)
    ensures Tells(f, p, s, d + [SP], q, s)
  {
    FirstPartOk(f, p, s, d, [SP], q);
    VersionRun(f, answer, p, s, d, 0);
    var r := OpenStretch(Version, f, answer, p, s, d);
    TellsRest(f, p, s, d, r, s, [SP], q);
    GoingIsOk(f, r, s, [SP], 0);
    OneByteRun(f, r, s, SP);
    AtByte(f, answer, s, r, SP);
    StatusSpace(r, answer(s, r));
    SilentTells(f, answer, r, s, SP, q);
    TellsOn(f, p, s, d, r, s, [SP], q, s);
  }

  lemma VersionLeadsAt(f: Steps, answer: Answer, p: Parser, s: Stream, major: seq<Byte>, minor: seq<Byte>)
    requires IsMachine(f, answer) && p.errno == Ok && p.state == StartRes && IsNumber(major) && IsNumber(minor)
    requires Decimal(major) <= 999 && Decimal(minor) <= 999
    ensures LeadsAt(f, p, s, [0x48] + (PROTOCOL + (major + [DOT] + minor) + [SP]),
                    Fresh(p).(state := ResFirstStatusCode, httpMajor := Decimal(major), httpMinor := Decimal(minor)))
  {
    ResponseVersion(f, answer, p, major, minor);
    HttpParts(major, minor);
    assert HttpHeaders.Open(0, p);
  }

  lemma ResponseVersionTells(f: Steps, answer: Answer, p: Parser, s: Stream, major: seq<Byte>, minor: seq<Byte>)
    requires IsMachine(f, answer) && p.errno == Ok && p.state == StartRes && IsNumber(major) && IsNumber(minor)
    requires Decimal(major) <= 999 && Decimal(minor) <= 999
    ensures Tells(f, p, s, HTTP + (major + [DOT] + minor) + [SP],
                  Fresh(p).(state := ResFirstStatusCode, httpMajor := Decimal(major), httpMinor := Decimal(minor)),
                  Heard(s, OnMessageBegin))
  {
    var d := PROTOCOL + (major + [DOT] + minor);
    var q := Fresh(p).(state := ResFirstStatusCode, httpMajor := Decimal(major), httpMinor := Decimal(minor));
    var r, t := Fresh(p).(state := ResH), Heard(s, OnMessageBegin);
    VersionLeadsAt(f, answer, p, s, major, minor);
    HTells(f, answer, p, s);
    TellsRest(f, p, s, [0x48], r, t, d + [SP], q);
    SpaceTells(f, answer, r, t, d, q);
    TellsOn(f, p, s, [0x48], r, t, d + [SP], q, t);
    HttpParts(major, minor);
  }

  /** A byte that turns one state into another one. */
  lemma TurnTells(f: Steps, answer: Answer, p: Parser, s: Stream, ch: Byte, t: State)
    requires IsMachine(f, answer) && p.errno == Ok && Turns(p.state, ch, t) && Marked(t) == [] && !ReadsBody(p.state)
    ensures Tells(f, p, s, [ch], p.(state := t), s)
  {
    TurnStep(p, ch, t, answer(s, p));
    SilentTells(f, answer, p, s, ch, p.(state := t));
  }

  /** The reason, if there is any, and the end of the line. */
  lemma ReasonTells(f: Steps, answer: Answer, p: Parser, s: Stream, reason: seq<Byte>, q: Parser)
    requires IsMachine(f, answer) && p.errno == Ok && p.state == ResStatusStart && IsReason(reason)
    requires LeadsAt(f, p, s, reason + [CR] + [LF], q)
    ensures Tells(f, p, s, reason + [CR] + [LF], q, ReasonHeard(s, reason))
  {
    var t := ReasonHeard(s, reason);
    FirstPartOk(f, p, s, reason + [CR], [LF], q);
    var r := ReasonOnlyTells(f, answer, p, s, reason);
    TellsRest(f, p, s, reason + [CR], r, t, [LF], q);
    TurnTells(f, answer, r, t, LF, HeaderFieldStart);
    TellsTo(f, r, t, [LF], q, r.(state := HeaderFieldStart), t);
    TellsOn(f, p, s, reason + [CR], r, t, [LF], q, t);
  }

  lemma ReasonOnlyTells(f: Steps, answer: Answer, p: Parser, s: Stream, reason: seq<Byte>) returns (r: Parser)
    requires IsMachine(f, answer) && p.errno == Ok && p.state == ResStatusStart && IsReason(reason)
    requires Run(f, p, s, reason + [CR], 0).p.errno == Ok
    ensures Tells(f, p, s, reason + [CR], r, ReasonHeard(s, reason)) && r.errno == Ok && r.state == ResLineAlmostDone
  {
    if reason == [] {
      r := p.(state := ResLineAlmostDone);
      TurnTells(f, answer, p, s, CR, ResLineAlmostDone);
      assert reason + [CR] == [CR];
    } else {
      r := ClosedStretch(Reason, f, answer, p, s, reason);
    }
  }

  lemma CodeParts(r: Response)
    ensures CodeBytes(r) == r.code + [SP] + (r.reason + [CR] + [LF])
  {
  }

  lemma CodeTells(f: Steps, answer: Answer, p: Parser, s: Stream, r: Response) returns (q: Parser)
    requires IsMachine(f, answer) && p.errno == Ok && p.state == ResFirstStatusCode
    requires IsNumber(r.code) && IsReason(r.reason) && Decimal(r.code) <= 999
    ensures Tells(f, p, s, CodeBytes(r), q, ReasonHeard(s, r.reason))
    ensures q == p.(state := HeaderFieldStart, statusCode := Decimal(r.code), index := q.index)
  {
    q := StatusRead(f, answer, p, r.code, r.reason);
    CodeParts(r);
    assert HttpHeaders.Open(0, p);
    assert LeadsAt(f, p, s, CodeBytes(r), q);
    var a := With(Number.Status, p, Decimal(r.code));
    var b := a.(state := ResStatusStart);
    NumberRead(f, answer, Number.Status, p, r.code);
    TurnLeads(f, answer, a, SP, ResStatusStart);
    LeadsOn(f, p, r.code, a, [SP], b);
    assert LeadsAt(f, p, s, r.code + [SP], b);
    SpaceTells(f, answer, p, s, r.code, b);
    TellsRest(f, p, s, r.code + [SP], b, s, r.reason + [CR] + [LF], q);
    ReasonTells(f, answer, b, s, r.reason, q);
    TellsOn(f, p, s, r.code + [SP], b, s, r.reason + [CR] + [LF], q, ReasonHeard(s, r.reason));
  }

  lemma ResponseAnnounces(p: Parser, r: Response, skip: bool)
    requires ResponseOk(r, skip) && p.typ == ParserType.Response && p.meth != Connect && p.flags == NO_FLAGS
    requires p.contentLength == ULLONG_MAX && p.statusCode == Decimal(r.code)
    requires LengthOf(ULLONG_MAX, r.headers) <= ULLONG_MAX
    ensures Announced(HeadersEnd(p, r.headers), skip, r.content)
  {
  }

  /** A response is heard as it was. */
  lemma ResponseTells(f: Steps, answer: Answer, p: Parser, s: Stream, r: Response, skip: bool) returns (q: Parser)
    requires IsMachine(f, answer) && p.state == StartRes && p.errno == Ok && p.typ == ParserType.Response
    requires ResponseOk(r, skip) && p.meth != Connect && forall t, q :: answer(t, q) == skip
    ensures LengthOf(ULLONG_MAX, r.headers) <= ULLONG_MAX
    ensures Tells(f, p, s, ResponseBytes(r), q, ResponseHeard(s, r, skip, p.meth)) && q.errno == Ok
    ensures q.state
         == if Persists(Decimal(r.major), Decimal(r.minor), FinalFlags(ResponseFlags(r), r.content)) then StartRes
                       else Dead
  {
    LengthFits(ULLONG_MAX, r.headers);
    var t := Heard(s, OnMessageBegin);
    var u := ReasonHeard(t, r.reason);
    var a := Fresh(p).(state := ResFirstStatusCode, httpMajor := Decimal(r.major), httpMinor := Decimal(r.minor));
    ResponseVersionTells(f, answer, p, s, r.major, r.minor);
    var b := CodeTells(f, answer, a, t, r);
    ResponseAnnounces(b, r, skip);
    q := RestTells(f, answer, b, u, r.headers, r.content, skip);
    var end := ResponseHeard(s, r, skip, p.meth);
    TellsOn(f, a, t, CodeBytes(r), b, u, RestBytes(r.headers, r.content), q, end);
    TellsOn(f, p, s, HTTP + (r.major + [DOT] + r.minor) + [SP], a, t, CodeBytes(r) + RestBytes(r.headers, r.content), q,
            end);
  }
}
