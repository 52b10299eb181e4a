/** A connection that is ended twice: the second end completes the same message again. */
module HttpEnd {
  import opened Numbers
  import opened HttpModel
  import opened HttpRun
  import opened HttpCalls
  import opened HttpParser
  import opened HttpFragments
  import opened HttpCuts
  import opened HttpFraming

  // HTTP/1.0 200, without headers
  const RESPONSE: seq<Byte> :=
    [0x48, 0x54, 0x54, 0x50, 0x2F, 0x31, 0x2E, 0x30, 0x20, 0x32, 0x30, 0x30, 0x0D, 0x0A, 0x0D, 0x0A]

  /** The state after k bytes of it. */
  function StateAfter(k: nat): (s: State) {
    match k
    case 0 => StartRes case 1 => ResH case 2 => ResHT case 3 => ResHTT case 4 => ResHTTP
    case 5 => ResFirstHttpMajor case 6 => ResHttpMajor case 7 => ResFirstHttpMinor case 8 => ResHttpMinor
    case 9 => ResFirstStatusCode case 10 => ResStatusCode case 11 => ResStatusCode case 12 => ResStatusCode
    case 13 => ResLineAlmostDone case 14 => HeaderFieldStart case 15 => HeadersAlmostDone
    case _ => BodyIdentityEof
  }

  function StatusAfter(k: nat): (n: nat) {
    if k < 10 then 0 else if k == 10 then 2 else if k == 11 then 20 else 200
  }

  /** The parser after k bytes. */
  function ParserAfter(k: nat): (p: Parser) {
    NewParser(Response).(
      state := StateAfter(k), statusCode := StatusAfter(k), httpMajor := if k < 6 then 0 else 1,
      contentLength := if k == 0 then 0 else ULLONG_MAX)
  }

  const HEAD := MessageHead(Response, Delete, 200, NO_FLAGS, false, ULLONG_MAX)

  function TellsAt(k: nat): (es: seq<Event>) {
    if k == 0 then [OnMessageBegin] else if k == 15 then [OnHeadersComplete(HEAD, false)] else []
  }

  function OutcomeAt(k: nat): (o: Outcome) {
    Outcome(ParserAfter(k + 1), [], TellsAt(k), [], false)
  }

  // ----- one byte at a time -----

  lemma LineByte(k: nat)
    requires 1 <= k <= 13
    ensures GroupOf(ParserAfter(k).state) == AtStatusLine && StepStatusLine(ParserAfter(k), RESPONSE[k]) == OutcomeAt(k)
  {
  }

  lemma HeadByte(k: nat)
    requires 14 <= k <= 15
    ensures GroupOf(ParserAfter(k).state) == AtHeader && StepHeader(ParserAfter(k), RESPONSE[k], false) == OutcomeAt(k)
  {
  }

  lemma FirstByte()
    ensures GroupOf(ParserAfter(0).state) == AtStart && StepStart(ParserAfter(0), RESPONSE[0]) == OutcomeAt(0)
  {
  }

  lemma StepAt(k: nat)
    requires k < 16
    ensures Step(ParserAfter(k), RESPONSE[k], false) == OutcomeAt(k)
  {
    StepByState(ParserAfter(k), RESPONSE[k], false);
    if k == 0 {
      FirstByte();
    } else if k <= 13 {
      LineByte(k);
    } else {
      HeadByte(k);
    }
  }

  ghost predicate ResponseAt(f: Steps, s: Stream, k: nat) {
    k < 16 ==> f(s, ParserAfter(k), RESPONSE[k]) == OutcomeAt(k)
  }

  ghost predicate ReadsResponse(f: Steps) {
    forall s, k :: ResponseAt(f, s, k)
  }

  lemma MachineReadsResponse(f: Steps, answer: Answer)
    requires IsMachine(f, answer) && forall s, p :: !answer(s, p)
    ensures ReadsResponse(f)
  {
    forall s, k: nat ensures ResponseAt(f, s, k) {
      if k < 16 {
        AtByte(f, answer, s, ParserAfter(k), RESPONSE[k]);
        StepAt(k);
      }
    }
  }

  // ----- the response -----

  function ToldAfter(k: nat): (s: Stream) {
    if k == 0 then Silence
    else if k <= 15 then Heard(Silence, OnMessageBegin)
    else Heard(Heard(Silence, OnMessageBegin), OnHeadersComplete(HEAD, false))
  }

  lemma DeskAfter(k: nat)
    requires k < 16
    ensures Taken(Desk(ToldAfter(k), [], []), ParserAfter(k).state, RESPONSE[k], OutcomeAt(k))
         == Desk(ToldAfter(k + 1), [], [])
  {
    TellOne(ToldAfter(k), if k == 0 then OnMessageBegin else OnHeadersComplete(HEAD, false));
  }

  /** The call from byte i on ends in e. */
  ghost predicate CallIs(f: Steps, p: Parser, d: Desk, data: seq<Byte>, i: nat, e: End)
    requires i <= |data|
  {
    forall x: nat :: Open(x, p, i) ==> Call(f, p, d, data, i) == e
  }

  lemma CallNext(f: Steps, p: Parser, d: Desk, data: seq<Byte>, i: nat, o: Outcome, next: Desk, e: End)
    requires i < |data| && o == f(Flushed(d), p, data[i]) && o.p.errno == Ok && !o.leave
    requires next == Taken(d, p.state, data[i], o) && CallIs(f, o.p, next, data, i + 1, e)
    ensures CallIs(f, p, d, data, i, e)
  {
    assert Open(0, o.p, i + 1);
  }

  lemma CallMade(f: Steps, p: Parser, told: Stream, data: seq<Byte>, e: End)
    requires p.errno == Ok && data != [] && CallIs(f, p, Opened(p, told), data, 0, e)
    ensures Called(f, p, told, data) == e
  {
    assert Open(0, p, 0);
    CalledIs(f, p, told, data);
  }

  lemma CallEnds(f: Steps, p: Parser, told: Stream, data: seq<Byte>)
    ensures CallIs(f, p, Desk(told, [], []), data, |data|, End(p, Desk(told, [], []), |data|, false))
  {
  }

  lemma {:induction false} CallFrom(f: Steps, x: seq<Byte>, k: nat)
    requires ReadsResponse(f) && x == RESPONSE && k <= 16
    ensures CallIs(f, ParserAfter(k), Desk(ToldAfter(k), [], []), x, k,
                   End(ParserAfter(16), Desk(ToldAfter(16), [], []), 16, false))
    decreases 16 - k
  {
    if k == 16 {
      CallEnds(f, ParserAfter(k), ToldAfter(k), x);
    } else {
      assert ResponseAt(f, ToldAfter(k), k);
      DeskAfter(k);
      CallFrom(f, x, k + 1);
      CallNext(f, ParserAfter(k), Desk(ToldAfter(k), [], []), x, k, OutcomeAt(k), Desk(ToldAfter(k + 1), [], []),
               End(ParserAfter(16), Desk(ToldAfter(16), [], []), 16, false));
    }
  }

  lemma ResponseCalled(f: Steps, p: Parser, x: seq<Byte>) returns (e: End)
    requires ReadsResponse(f) && p == NewParser(Response) && x == RESPONSE
    ensures p.errno == Ok && CallIs(f, p, Opened(p, Silence), x, 0, e) && !e.stopped
    ensures e.p.errno == Ok && e.p.state == BodyIdentityEof && e.d.told == ToldAfter(16)
  {
    e := End(ParserAfter(16), Desk(ToldAfter(16), [], []), 16, false);
    assert p == ParserAfter(0);
    CallFrom(f, x, 0);
  }

  // ----- two ends -----

  const ENDED := Heard(ToldAfter(16), OnMessageComplete)
  const PIECES: seq<seq<Byte>> := [RESPONSE, [], []]

  lemma EndOnce(f: Steps, p: Parser, told: Stream)
    requires p.errno == Ok && p.state == BodyIdentityEof
    ensures CalledAll(f, p, told, [[]]).d.told == Add(told, OnMessageComplete)
  {
    var none: seq<Byte> := [];
    assert [none][1..] == [];
    CalledAtEnd(f, p, told);
    CalledAllStep(f, p, told, [none]);
  }

  lemma EndAgain(f: Steps, p: Parser, told: Stream)
    requires p.errno == Ok && p.state == BodyIdentityEof
    ensures CalledAll(f, p, told, [[], []]).d.told == Add(Add(told, OnMessageComplete), OnMessageComplete)
    ensures GoesOnAfterEnd(f, p, told, [[], []])
  {
    var none: seq<Byte> := [];
    assert [none, none][1..] == [none];
    CalledAtEnd(f, p, told);
    CalledAllStep(f, p, told, [none, none]);
    EndOnce(f, p, Add(told, OnMessageComplete));
  }

  lemma EndsTwice(f: Steps, p: Parser, told: Stream, x: seq<Byte>, e: End)
    requires p.errno == Ok && x != [] && CallIs(f, p, Opened(p, told), x, 0, e)
    requires !e.stopped && e.p.errno == Ok && e.p.state == BodyIdentityEof
    ensures CalledAll(f, p, told, [x, [], []]).d.told == Add(Add(e.d.told, OnMessageComplete), OnMessageComplete)
    ensures GoesOnAfterEnd(f, p, told, [x, [], []])
  {
    assert [x, [], []][1..] == [[], []];
    CallMade(f, p, told, x, e);
    CalledAllStep(f, p, told, [x, [], []]);
    EndAgain(f, e.p, e.d.told);
  }

  lemma ResponseEnds(f: Steps, p: Parser, x: seq<Byte>)
    requires ReadsResponse(f) && p == NewParser(Response) && x == RESPONSE
    ensures CalledAll(f, p, Silence, [x, [], []]).d.told == Heard(ENDED, OnMessageComplete)
    ensures GoesOnAfterEnd(f, p, Silence, [x, [], []])
  {
    var e := ResponseCalled(f, p, x);
    EndsTwice(f, p, Silence, x, e);
  }

  lemma FramesOfEnds()
    ensures FrameOf(ENDED) == Closed && FrameOf(Heard(ENDED, OnMessageComplete)) == Wrong
  {
    assert FrameOf(ToldAfter(16)) == Start(UntilEnd);
  }

  /** A response without a length, and the end of the connection announced twice to a new parser: the
      application hears twice that the message is complete, which is out of order. */
  lemma EndIsHeardTwice(f: Steps, answer: Answer)
    requires f == Machine(answer) && forall s, p :: !answer(s, p)
    ensures var told := CalledAll(f, NewParser(Response), Silence, PIECES).d.told;
            && told == Heard(Heard(ToldAfter(16), OnMessageComplete), OnMessageComplete)
            && FrameOf(told.past) == Closed && FrameOf(told) == Wrong
    ensures GoesOnAfterEnd(f, NewParser(Response), Silence, PIECES)
  {
    MachineIs(answer);
    MachineReadsResponse(f, answer);
    ResponseEnds(f, NewParser(Response), RESPONSE);
    FramesOfEnds();
  }
}
