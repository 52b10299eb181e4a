/** The rest of the first line: versions, status codes, and what follows from them when a message ends. */
module HttpStartLine {
  import opened Numbers
  import opened HttpModel
  import opened HttpRun
  import opened HttpCalls
  import opened HttpParser
  import opened HttpLengths
  import opened HttpHeaders

  // ----- runs that fail -----

  // Always true. Mentioning it opens Fails.
  ghost predicate OpenFailure(x: nat, p: Parser) {
    true
  }

  /** Whatever was heard, the bytes d are an error. */
  ghost predicate Fails(f: Steps, p: Parser, d: seq<Byte>) {
    forall x: nat, s :: OpenFailure(x, p) ==> FailsAt(f, p, s, d)
  }

  ghost predicate FailsAt(f: Steps, p: Parser, s: Stream, d: seq<Byte>) {
    Run(f, p, s, d, 0).p.errno != Ok
  }

  lemma FailsLater(f: Steps, p: Parser, x: seq<Byte>, q: Parser, y: seq<Byte>)
    requires Leads(f, p, x, q) && Fails(f, q, y)
    ensures Fails(f, p, x + y)
  {
    assert HttpHeaders.Open(0, p) && OpenFailure(0, q);
    forall s ensures FailsAt(f, p, s, x + y) {
      assert LeadsAt(f, p, s, x, q);
      assert FailsAt(f, q, Run(f, p, s, x, 0).s, y);
      RunInPieces(f, p, s, x, y);
    }
  }

  lemma FailsAlready(f: Steps, p: Parser, x: seq<Byte>, y: seq<Byte>)
    requires p.errno == Ok && Fails(f, p, x)
    ensures Fails(f, p, x + y)
  {
    assert OpenFailure(0, p);
    forall s ensures FailsAt(f, p, s, x + y) {
      assert FailsAt(f, p, s, x);
      if !Run(f, p, s, x, 0).stopped {
        GoingIsOk(f, p, s, x, 0);
      }
      RunInPieces(f, p, s, x, y);
    }
  }

  lemma FailsByte(f: Steps, answer: Answer, p: Parser, ch: Byte)
    requires IsMachine(f, answer) && forall skip :: Step(p, ch, skip).p.errno != Ok
    ensures Fails(f, p, [ch])
  {
    forall s ensures FailsAt(f, p, s, [ch]) {
      AtByte(f, answer, s, p, ch);
      assert Step(p, ch, answer(s, p)).p.errno != Ok;
    }
  }

  // ----- numbers -----

  datatype Number = ReqMajor | ReqMinor | ResMajor | ResMinor | Status

  function FirstState(n: Number): (s: State) {
    match n
    case ReqMajor => ReqFirstHttpMajor case ReqMinor => ReqFirstHttpMinor
    case ResMajor => ResFirstHttpMajor case ResMinor => ResFirstHttpMinor
    case Status => ResFirstStatusCode
  }

  function NextState(n: Number): (s: State) {
    match n
    case ReqMajor => ReqHttpMajor case ReqMinor => ReqHttpMinor
    case ResMajor => ResHttpMajor case ResMinor => ResHttpMinor
    case Status => ResStatusCode
  }

  function Of(n: Number, p: Parser): (v: nat) {
    match n
    case ReqMajor => p.httpMajor case ReqMinor => p.httpMinor
    case ResMajor => p.httpMajor case ResMinor => p.httpMinor
    case Status => p.statusCode
  }

  /** The parser once the number is v. */
  function With(n: Number, p: Parser, v: nat): (q: Parser) {
    var q := p.(state := NextState(n));
    match n
    case ReqMajor => q.(httpMajor := v) case ReqMinor => q.(httpMinor := v)
    case ResMajor => q.(httpMajor := v) case ResMinor => q.(httpMinor := v)
    case Status => q.(statusCode := v)
  }

  lemma DigitStep(n: Number, p: Parser, ch: Byte, skip: bool)
    requires p.state == NextState(n) && p.errno == Ok && IsNum(ch)
    ensures var v, o := 10 * Of(n, p) + (ch - 0x30), Step(p, ch, skip);
            if v > 999 then o.p.errno != Ok else o == Go(With(n, p, v), NextState(n))
  {
    StepByState(p, ch, skip);
  }

  lemma FirstDigitStep(n: Number, p: Parser, ch: Byte, skip: bool)
    requires p.state == FirstState(n) && p.errno == Ok && IsNum(ch)
    ensures var o := Step(p, ch, skip);
            if n == ReqMajor && ch == 0x30 then o.p.errno != Ok else o == Go(With(n, p, ch - 0x30), NextState(n))
  {
    StepByState(p, ch, skip);
  }

  predicate IsNumber(ds: seq<Byte>) {
    ds != [] && forall i :: 0 <= i < |ds| ==> IsNum(ds[i])
  }

  lemma WithTwice(n: Number, p: Parser, v: nat, w: nat)
    ensures With(n, With(n, p, v), w) == With(n, p, w) && Of(n, With(n, p, v)) == v
    ensures With(n, p, v).state == NextState(n) && With(n, p, v).errno == p.errno
  {
  }

  lemma DigitMoves(f: Steps, answer: Answer, n: Number, p: Parser, v: nat, ch: Byte)
    requires IsMachine(f, answer) && p.errno == Ok && IsNum(ch) && 10 * v + (ch - 0x30) <= 999
    ensures Moves(f, With(n, p, v), ch, With(n, p, 10 * v + (ch - 0x30)))
  {
    var w := 10 * v + (ch - 0x30);
    WithTwice(n, p, v, w);
    forall skip ensures Step(With(n, p, v), ch, skip) == Go(With(n, p, w), NextState(n)) {
      DigitStep(n, With(n, p, v), ch, skip);
    }
    MovesBy(f, answer, With(n, p, v), ch, With(n, p, w));
  }

  lemma DigitFails(f: Steps, answer: Answer, n: Number, p: Parser, v: nat, ch: Byte)
    requires IsMachine(f, answer) && p.errno == Ok && IsNum(ch) && 10 * v + (ch - 0x30) > 999
    ensures Fails(f, With(n, p, v), [ch])
  {
    WithTwice(n, p, v, v);
    forall skip ensures Step(With(n, p, v), ch, skip).p.errno != Ok {
      DigitStep(n, With(n, p, v), ch, skip);
    }
    FailsByte(f, answer, With(n, p, v), ch);
  }

  /** A number can be read: at most 999, and a major version of a request does not begin with zero. */
  predicate Taken(n: Number, ds: seq<Byte>)
    requires IsNumber(ds)
  {
    Decimal(ds) <= 999 && !(n == ReqMajor && ds[0] == 0x30)
  }

  lemma FirstDigitMoves(f: Steps, answer: Answer, n: Number, p: Parser, ch: Byte)
    requires IsMachine(f, answer) && p.state == FirstState(n) && p.errno == Ok && IsNum(ch)
    ensures if n == ReqMajor && ch == 0x30 then Fails(f, p, [ch]) else Moves(f, p, ch, With(n, p, ch - 0x30))
  {
    WithTwice(n, p, ch - 0x30, ch - 0x30);
    forall skip
      ensures var o := Step(p, ch, skip);
              if n == ReqMajor && ch == 0x30 then o.p.errno != Ok
              else o.p == With(n, p, ch - 0x30) && !o.leave
    {
      FirstDigitStep(n, p, ch, skip);
    }
    if n == ReqMajor && ch == 0x30 {
      FailsByte(f, answer, p, ch);
    } else {
      MovesBy(f, answer, p, ch, With(n, p, ch - 0x30));
    }
  }

  lemma FirstDecimal(ds: seq<Byte>)
    requires IsNumber(ds)
    ensures Decimal(ds[..1]) == ds[0] - 0x30
  {
    DecimalLast(ds, 0);
    assert ds[..0] == [];
  }

  /** The first k digits of a number. */
  lemma {:induction false} NumberReads(f: Steps, answer: Answer, n: Number, p: Parser, ds: seq<Byte>, k: nat)
    requires IsMachine(f, answer) && p.state == FirstState(n) && p.errno == Ok && IsNumber(ds) && 1 <= k <= |ds|
    ensures if Taken(n, ds[..k]) then Leads(f, p, ds[..k], With(n, p, Decimal(ds[..k]))) else Fails(f, p, ds[..k])
    decreases k
  {
    if k == 1 {
      FirstDecimal(ds);
      FirstDigitMoves(f, answer, n, p, ds[0]);
      assert ds[..1] == [ds[0]];
      if Taken(n, ds[..1]) {
        LeadsByte(f, p, ds[0], With(n, p, ds[0] - 0x30));
      }
    } else {
      var before := ds[..k - 1];
      NumberReads(f, answer, n, p, ds, k - 1);
      DecimalLast(ds, k - 1);
      assert before + [ds[k - 1]] == ds[..k] && before[0] == ds[0] == ds[..k][0];
      NumberGoesOn(f, answer, n, p, before, ds[k - 1], Decimal(before), Decimal(ds[..k]));
    }
  }

  /** One more digit. */
  lemma NumberGoesOn(f: Steps, answer: Answer, n: Number, p: Parser, before: seq<Byte>, ch: Byte, v: nat, w: nat)
    requires IsMachine(f, answer) && p.errno == Ok && IsNumber(before) && IsNum(ch) && w == 10 * v + (ch - 0x30)
    requires v == Decimal(before)
    requires if Taken(n, before) then Leads(f, p, before, With(n, p, v)) else Fails(f, p, before)
    ensures if w <= 999 && !(n == ReqMajor && before[0] == 0x30) then Leads(f, p, before + [ch], With(n, p, w))
            else Fails(f, p, before + [ch])
  {
    if !Taken(n, before) {
      FailsAlready(f, p, before, [ch]);
    } else if w <= 999 {
      DigitMoves(f, answer, n, p, v, ch);
      LeadsByte(f, With(n, p, v), ch, With(n, p, w));
      LeadsOn(f, p, before, With(n, p, v), [ch], With(n, p, w));
    } else {
      DigitFails(f, answer, n, p, v, ch);
      FailsLater(f, p, before, With(n, p, v), [ch]);
    }
  }

  lemma NumberRead(f: Steps, answer: Answer, n: Number, p: Parser, ds: seq<Byte>)
    requires IsMachine(f, answer) && p.state == FirstState(n) && p.errno == Ok && IsNumber(ds)
    ensures if Taken(n, ds) then Leads(f, p, ds, With(n, p, Decimal(ds))) else Fails(f, p, ds)
  {
    NumberReads(f, answer, n, p, ds, |ds|);
    assert ds[..|ds|] == ds;
  }

  // ----- the bytes between the numbers -----

  /** The bytes that lead from one state to the next and do nothing else. */
  predicate Turns(s: State, ch: Byte, t: State) {
    if GroupOf(s) == AtRequestLine then RequestTurns(s, ch, t)
    else GroupOf(s) == AtStatusLine && ResponseTurns(s, ch, t)
  }

  predicate RequestTurns(s: State, ch: Byte, t: State) {
    match s
    case ReqHttpStart => Is(ch, 'H') && t == ReqHttpH
    case ReqHttpH => Is(ch, 'T') && t == ReqHttpHT
    case ReqHttpHT => Is(ch, 'T') && t == ReqHttpHTT
    case ReqHttpHTT => Is(ch, 'P') && t == ReqHttpHTTP
    case ReqHttpHTTP => Is(ch, '/') && t == ReqFirstHttpMajor
    case ReqHttpMajor => Is(ch, '.') && t == ReqFirstHttpMinor
    case ReqHttpMinor => ch == CR && t == ReqLineAlmostDone
    case ReqLineAlmostDone => ch == LF && t == HeaderFieldStart
    case _ => false
  }

  predicate ResponseTurns(s: State, ch: Byte, t: State) {
    match s
    case ResH => Is(ch, 'T') && t == ResHT
    case ResHT => Is(ch, 'T') && t == ResHTT
    case ResHTT => Is(ch, 'P') && t == ResHTTP
    case ResHTTP => Is(ch, '/') && t == ResFirstHttpMajor
    case ResHttpMajor => Is(ch, '.') && t == ResFirstHttpMinor
    case ResHttpMinor => ch == SP && t == ResFirstStatusCode
    case ResStatusCode => (ch == CR && t == ResLineAlmostDone) || (ch == SP && t == ResStatusStart)
    case ResStatusStart => ch == CR && t == ResLineAlmostDone
    case ResLineAlmostDone => ch == LF && t == HeaderFieldStart
    case _ => false
  }

  lemma TurnStep(p: Parser, ch: Byte, t: State, skip: bool)
    requires Turns(p.state, ch, t)
    ensures Step(p, ch, skip) == Go(p, t)
  {
    StepByState(p, ch, skip);
    if GroupOf(p.state) == AtRequestLine {
      RequestTurn(p, ch, t);
    } else {
      ResponseTurn(p, ch, t);
    }
  }

  lemma RequestTurn(p: Parser, ch: Byte, t: State)
    requires RequestTurns(p.state, ch, t)
    ensures StepRequestLine(p, ch) == Go(p, t)
  {
  }

  lemma ResponseTurn(p: Parser, ch: Byte, t: State)
    requires ResponseTurns(p.state, ch, t)
    ensures StepStatusLine(p, ch) == Go(p, t)
  {
  }

  lemma TurnLeads(f: Steps, answer: Answer, p: Parser, ch: Byte, t: State)
    requires IsMachine(f, answer) && p.errno == Ok && Turns(p.state, ch, t)
    ensures Leads(f, p, [ch], p.(state := t))
  {
    forall skip ensures Step(p, ch, skip) == Go(p, t) {
      TurnStep(p, ch, t, skip);
    }
    MovesBy(f, answer, p, ch, p.(state := t));
    LeadsByte(f, p, ch, p.(state := t));
  }

  lemma TwoTurns(f: Steps, answer: Answer, p: Parser, a: Byte, t: State, b: Byte, u: State)
    requires IsMachine(f, answer) && p.errno == Ok && Turns(p.state, a, t) && Turns(t, b, u)
    ensures Leads(f, p, [a] + [b], p.(state := u))
  {
    TurnLeads(f, answer, p, a, t);
    TurnLeads(f, answer, p.(state := t), b, u);
    LeadsOn(f, p, [a], p.(state := t), [b], p.(state := u));
  }

  const DOT: Byte := 46

  // "TTP/"
  const PROTOCOL: seq<Byte> := ([0x54] + [0x54]) + ([0x50] + [0x2F])

  lemma RequestProtocolLeads(f: Steps, answer: Answer, p: Parser)
    requires IsMachine(f, answer) && p.errno == Ok && p.state == ReqHttpH
    ensures Leads(f, p, PROTOCOL, p.(state := ReqFirstHttpMajor))
  {
    TwoTurns(f, answer, p, 0x54, ReqHttpHT, 0x54, ReqHttpHTT);
    TwoTurns(f, answer, p.(state := ReqHttpHTT), 0x50, ReqHttpHTTP, 0x2F, ReqFirstHttpMajor);
    LeadsOn(f, p, [0x54] + [0x54], p.(state := ReqHttpHTT), [0x50] + [0x2F], p.(state := ReqFirstHttpMajor));
  }

  lemma ResponseProtocolLeads(f: Steps, answer: Answer, p: Parser)
    requires IsMachine(f, answer) && p.errno == Ok && p.state == ResH
    ensures Leads(f, p, PROTOCOL, p.(state := ResFirstHttpMajor))
  {
    TwoTurns(f, answer, p, 0x54, ResHT, 0x54, ResHTT);
    TwoTurns(f, answer, p.(state := ResHTT), 0x50, ResHTTP, 0x2F, ResFirstHttpMajor);
    LeadsOn(f, p, [0x54] + [0x54], p.(state := ResHTT), [0x50] + [0x2F], p.(state := ResFirstHttpMajor));
  }

  // ----- versions -----

  /** A major and a minor version. */
  lemma VersionReads(f: Steps, answer: Answer, p: Parser, a: Number, b: Number, major: seq<Byte>, minor: seq<Byte>)
    requires IsMachine(f, answer) && p.errno == Ok && p.state == FirstState(a) && IsNumber(major) && IsNumber(minor)
    requires (a == ReqMajor && b == ReqMinor) || (a == ResMajor && b == ResMinor)
    ensures var d := major + [DOT] + minor;
            if Taken(a, major) && Taken(b, minor) then
              Leads(f, p, d, p.(state := NextState(b), httpMajor := Decimal(major), httpMinor := Decimal(minor)))
            else Fails(f, p, d)
  {
    NumberRead(f, answer, a, p, major);
    if Taken(a, major) {
      var q := With(a, p, Decimal(major));
      var r := q.(state := FirstState(b));
      TurnLeads(f, answer, q, DOT, FirstState(b));
      LeadsOn(f, p, major, q, [DOT], r);
      NumberRead(f, answer, b, r, minor);
      if Taken(b, minor) {
        LeadsOn(f, p, major + [DOT], r, minor, With(b, r, Decimal(minor)));
      } else {
        FailsLater(f, p, major + [DOT], r, minor);
      }
    } else {
      FailsAlready(f, p, major, [DOT]);
      FailsAlready(f, p, major + [DOT], minor);
    }
  }

  // "HTTP/"
  const HTTP: seq<Byte> := [0x48] + PROTOCOL

  lemma RequestProtocol(f: Steps, answer: Answer, p: Parser)
    requires IsMachine(f, answer) && p.errno == Ok && p.state == ReqHttpStart
    ensures Leads(f, p, HTTP, p.(state := ReqFirstHttpMajor))
  {
    TurnLeads(f, answer, p, 0x48, ReqHttpH);
    RequestProtocolLeads(f, answer, p.(state := ReqHttpH));
    LeadsOn(f, p, [0x48], p.(state := ReqHttpH), PROTOCOL, p.(state := ReqFirstHttpMajor));
  }

  /** The version in a request line: no error just if both numbers can be read, and then it is remembered. */
  lemma RequestVersion(f: Steps, answer: Answer, p: Parser, major: seq<Byte>, minor: seq<Byte>)
    requires IsMachine(f, answer) && p.errno == Ok && p.state == ReqHttpStart && IsNumber(major) && IsNumber(minor)
    ensures var d := HTTP + (major + [DOT] + minor) + ([CR] + [LF]);
            if Decimal(major) <= 999 && major[0] != 0x30 && Decimal(minor) <= 999 then
              Leads(f, p, d, p.(state := HeaderFieldStart, httpMajor := Decimal(major), httpMinor := Decimal(minor)))
            else Fails(f, p, d)
  {
    var q, v := p.(state := ReqFirstHttpMajor), major + [DOT] + minor;
    RequestProtocol(f, answer, p);
    VersionReads(f, answer, q, ReqMajor, ReqMinor, major, minor);
    if Taken(ReqMajor, major) && Taken(ReqMinor, minor) {
      var r := p.(state := ReqHttpMinor, httpMajor := Decimal(major), httpMinor := Decimal(minor));
      LeadsOn(f, p, HTTP, q, v, r);
      TwoTurns(f, answer, r, CR, ReqLineAlmostDone, LF, HeaderFieldStart);
      LeadsOn(f, p, HTTP + v, r, [CR] + [LF], r.(state := HeaderFieldStart));
    } else {
      FailsLater(f, p, HTTP, q, v);
      FailsAlready(f, p, HTTP + v, [CR] + [LF]);
    }
  }

  // ----- the first line of a response -----

  lemma ResponseStarts(f: Steps, answer: Answer, p: Parser)
    requires IsMachine(f, answer) && p.errno == Ok && p.state == StartRes
    ensures Leads(f, p, HTTP, Fresh(p).(state := ResFirstHttpMajor))
  {
    var q := Fresh(p).(state := ResH);
    forall skip ensures Step(p, 0x48, skip) == Tell(Fresh(p), ResH, OnMessageBegin) {
      StepByState(p, 0x48, skip);
    }
    MovesBy(f, answer, p, 0x48, q);
    LeadsByte(f, p, 0x48, q);
    ResponseProtocolLeads(f, answer, q);
    LeadsOn(f, p, [0x48], q, PROTOCOL, q.(state := ResFirstHttpMajor));
  }

  predicate IsReason(d: seq<Byte>) {
    forall i :: 0 <= i < |d| ==> d[i] != CR && d[i] != LF
  }

  lemma ReasonByteMoves(f: Steps, answer: Answer, p: Parser, ch: Byte)
    requires IsMachine(f, answer) && p.errno == Ok
    requires (p.state == ResStatusStart || (p.state == ResStatus && p.index == 0))
    requires ch != CR && ch != LF
    ensures Moves(f, p, ch, p.(state := ResStatus, index := 0))
  {
    var q := p.(state := ResStatus, index := 0);
    forall skip ensures Step(p, ch, skip).p == q && !Step(p, ch, skip).leave {
      StepByState(p, ch, skip);
    }
    MovesBy(f, answer, p, ch, q);
  }

  lemma {:induction false} ReasonLeads(f: Steps, answer: Answer, p: Parser, d: seq<Byte>, k: nat)
    requires IsMachine(f, answer) && p.errno == Ok && p.state == ResStatusStart && IsReason(d) && 1 <= k <= |d|
    ensures Leads(f, p, d[..k], p.(state := ResStatus, index := 0))
    decreases k
  {
    if k == 1 {
      FirstReason(f, answer, p, d);
    } else {
      ReasonLeads(f, answer, p, d, k - 1);
      NextReason(f, answer, p, d, k);
    }
  }

  lemma FirstReason(f: Steps, answer: Answer, p: Parser, d: seq<Byte>)
    requires IsMachine(f, answer) && p.errno == Ok && p.state == ResStatusStart && IsReason(d) && d != []
    ensures Leads(f, p, d[..1], p.(state := ResStatus, index := 0))
  {
    ReasonByte(f, answer, p, d, 1);
    LeadsFirst(f, p, d, p.(state := ResStatus, index := 0));
  }

  lemma NextReason(f: Steps, answer: Answer, p: Parser, d: seq<Byte>, k: nat)
    requires IsMachine(f, answer) && p.errno == Ok && p.state == ResStatusStart && IsReason(d) && 1 < k <= |d|
    requires Leads(f, p, d[..k - 1], p.(state := ResStatus, index := 0))
    ensures Leads(f, p, d[..k], p.(state := ResStatus, index := 0))
  {
    var q := p.(state := ResStatus, index := 0);
    ReasonByte(f, answer, p, d, k);
    LeadsMore(f, p, d, k - 1, q, q);
  }

  lemma ReasonByte(f: Steps, answer: Answer, p: Parser, d: seq<Byte>, k: nat)
    requires IsMachine(f, answer) && p.errno == Ok && p.state == ResStatusStart && IsReason(d) && 1 <= k <= |d|
    ensures var q := p.(state := ResStatus, index := 0); Moves(f, if k == 1 then p else q, d[k - 1], q)
  {
    var q := p.(state := ResStatus, index := 0);
    ReasonByteMoves(f, answer, if k == 1 then p else q, d[k - 1]);
  }

  lemma ReasonEnds(f: Steps, answer: Answer, p: Parser)
    requires IsMachine(f, answer) && p.errno == Ok && p.state == ResStatus
    ensures Leads(f, p, [CR] + [LF], p.(state := HeaderFieldStart))
  {
    var q := p.(state := ResLineAlmostDone);
    forall skip ensures Step(p, CR, skip) == Flush(p, ResLineAlmostDone, DataKind.Status) {
      StepByState(p, CR, skip);
    }
    MovesBy(f, answer, p, CR, q);
    LeadsByte(f, p, CR, q);
    TurnLeads(f, answer, q, LF, HeaderFieldStart);
    LeadsOn(f, p, [CR], q, [LF], p.(state := HeaderFieldStart));
  }

  /** A space, a reason if there is any, and the end of the line. */
  lemma ReasonRead(f: Steps, answer: Answer, p: Parser, reason: seq<Byte>) returns (q: Parser)
    requires IsMachine(f, answer) && p.errno == Ok && p.state == ResStatusCode && IsReason(reason)
    ensures q == p.(state := HeaderFieldStart, index := q.index)
    ensures Leads(f, p, [SP] + reason + ([CR] + [LF]), q)
  {
    var start := p.(state := ResStatusStart);
    TurnLeads(f, answer, p, SP, ResStatusStart);
    if reason == [] {
      q := p.(state := HeaderFieldStart);
      TwoTurns(f, answer, start, CR, ResLineAlmostDone, LF, HeaderFieldStart);
      assert [SP] + reason == [SP];
      LeadsOn(f, p, [SP], start, [CR] + [LF], q);
    } else {
      var r := start.(state := ResStatus, index := 0);
      q := r.(state := HeaderFieldStart);
      ReasonLeads(f, answer, start, reason, |reason|);
      assert reason[..|reason|] == reason;
      LeadsOn(f, p, [SP], start, reason, r);
      ReasonEnds(f, answer, r);
      LeadsOn(f, p, [SP] + reason, r, [CR] + [LF], q);
    }
  }

  /** "HTTP/" and a version. */
  lemma ResponseVersion(f: Steps, answer: Answer, p: Parser, major: seq<Byte>, minor: seq<Byte>)
    requires IsMachine(f, answer) && p.errno == Ok && p.state == StartRes && IsNumber(major) && IsNumber(minor)
    ensures var d := HTTP + (major + [DOT] + minor) + [SP];
            if Decimal(major) <= 999 && Decimal(minor) <= 999 then
              Leads(f, p, d, Fresh(p).(state := ResFirstStatusCode, httpMajor := Decimal(major),
                                       httpMinor := Decimal(minor)))
            else Fails(f, p, d)
  {
    var q, v := Fresh(p).(state := ResFirstHttpMajor), major + [DOT] + minor;
    ResponseStarts(f, answer, p);
    VersionReads(f, answer, q, ResMajor, ResMinor, major, minor);
    if Taken(ResMajor, major) && Taken(ResMinor, minor) {
      var r := q.(state := ResHttpMinor, httpMajor := Decimal(major), httpMinor := Decimal(minor));
      LeadsOn(f, p, HTTP, q, v, r);
      TurnLeads(f, answer, r, SP, ResFirstStatusCode);
      LeadsOn(f, p, HTTP + v, r, [SP], r.(state := ResFirstStatusCode));
    } else {
      FailsLater(f, p, HTTP, q, v);
      FailsAlready(f, p, HTTP + v, [SP]);
    }
  }

  /** A status code, and the rest of the line. */
  lemma StatusRead(f: Steps, answer: Answer, p: Parser, code: seq<Byte>, reason: seq<Byte>) returns (q: Parser)
    requires IsMachine(f, answer) && p.errno == Ok && p.state == ResFirstStatusCode && IsNumber(code)
    requires IsReason(reason)
    ensures var d := code + ([SP] + reason + ([CR] + [LF]));
            if Decimal(code) <= 999 then
              && Leads(f, p, d, q)
              && q == p.(state := HeaderFieldStart, statusCode := Decimal(code), index := q.index)
            else Fails(f, p, d)
  {
    var rest := [SP] + reason + ([CR] + [LF]);
    q := p;
    NumberRead(f, answer, Number.Status, p, code);
    if Taken(Number.Status, code) {
      var r := With(Number.Status, p, Decimal(code));
      q := ReasonRead(f, answer, r, reason);
      LeadsOn(f, p, code, r, rest, q);
    } else {
      FailsAlready(f, p, code, rest);
    }
  }

  /** The first line of a response: no error just if its numbers can be read, and then they are
      remembered. */
  lemma StatusLineRead(f: Steps, answer: Answer, p: Parser, major: seq<Byte>, minor: seq<Byte>, code: seq<Byte>,
                       reason: seq<Byte>)
    returns (q: Parser)
    requires IsMachine(f, answer) && p.errno == Ok && p.state == StartRes
    requires IsNumber(major) && IsNumber(minor) && IsNumber(code) && IsReason(reason)
    ensures var d := HTTP + (major + [DOT] + minor) + [SP] + (code + ([SP] + reason + ([CR] + [LF])));
            if Decimal(major) <= 999 && Decimal(minor) <= 999 && Decimal(code) <= 999 then
              && Leads(f, p, d, q)
              && q == p.(state := HeaderFieldStart, httpMajor := Decimal(major), httpMinor := Decimal(minor),
                         statusCode := Decimal(code), flags := NO_FLAGS, contentLength := ULLONG_MAX, index := q.index)
            else Fails(f, p, d)
  {
    var v, rest := HTTP + (major + [DOT] + minor) + [SP], code + ([SP] + reason + ([CR] + [LF]));
    q := p;
    ResponseVersion(f, answer, p, major, minor);
    if Decimal(major) <= 999 && Decimal(minor) <= 999 {
      var r := Fresh(p).(state := ResFirstStatusCode, httpMajor := Decimal(major), httpMinor := Decimal(minor));
      q := StatusRead(f, answer, r, code, reason);
      if Decimal(code) <= 999 {
        LeadsOn(f, p, v, r, rest, q);
      } else {
        FailsLater(f, p, v, r, rest);
      }
    } else {
      FailsAlready(f, p, v, rest);
    }
  }

  // ----- the end of the headers -----

  /** What the application is told: another protocol is asked for by an Upgrade header that Connection names,
      or by CONNECT. */
  lemma HeadersEndTold(p: Parser, skip: bool)
    requires p.state == HeadersAlmostDone && !p.flags.trailing
    ensures var o := Step(p, LF, skip);
            var upgrade := p.meth == Connect || (p.flags.upgrade && p.flags.connectionUpgrade);
            o.tells != [] && o.tells[0] == OnHeadersComplete(
              MessageHead(p.typ, p.meth, p.statusCode, p.flags, upgrade, p.contentLength), skip)
  {
    StepByState(p, LF, skip);
    HeaderByState(p, LF, skip);
  }

  // ----- the end of a message -----

  /** The end of the message could be told, and the connection is to be kept: always from version 1.1 on,
      unless it is to be closed, and before that only if it is to be kept alive. */
  predicate GoesOn(p: Parser) {
    && (if p.httpMajor >= 1 && p.httpMinor >= 1 then !p.flags.close else p.flags.keepAlive)
    && (|| p.typ == Request || 100 <= p.statusCode < 200 || p.statusCode == 204 || p.statusCode == 304
        || p.flags.skipBody || p.flags.chunked || p.contentLength < ULLONG_MAX)
  }

  predicate EndsMessage(o: Outcome) {
    OnMessageComplete in o.tells && o.p.errno == Ok
  }

  /** The state after a message. */
  predicate Goes(p: Parser) {
    p.state == if !GoesOn(p) then Dead else if p.typ == Request then StartReq else StartRes
  }

  lemma CompleteGoes(p: Parser, leave: bool)
    ensures Goes(Complete(p, leave).p)
  {
  }

  lemma DoneGoes(p: Parser)
    ensures EndsMessage(StepHeadersDone(p)) ==> Goes(StepHeadersDone(p).p)
  {
    CompleteGoes(p, true);
    CompleteGoes(p, false);
  }

  lemma HeadersEndGoes(p: Parser, ch: Byte, skip: bool)
    ensures EndsMessage(StepHeadersAlmostDone(p, ch, skip)) ==> Goes(StepHeadersAlmostDone(p, ch, skip).p)
  {
    CompleteGoes(p, p.upgrade);
    var q := p.(state := HeadersDone, upgrade := (p.flags.upgrade && p.flags.connectionUpgrade) || p.meth == Connect);
    DoneGoes(q);
    DoneGoes(q.(flags := q.flags.(skipBody := true)));
  }

  lemma FieldStartGoes(p: Parser, ch: Byte, skip: bool)
    ensures EndsMessage(StepHeaderFieldStart(p, ch, skip)) ==> Goes(StepHeaderFieldStart(p, ch, skip).p)
  {
    HeadersEndGoes(p.(state := HeadersAlmostDone), ch, skip);
  }

  lemma ValueLineGoes(p: Parser, ch: Byte, skip: bool)
    requires WellFormed(p) && GroupOf(p.state) == AtHeader
    requires p.state != HeaderFieldStart && p.state != HeaderField && p.state != HeadersAlmostDone
    ensures EndsMessage(StepValueLine(p, ch, skip)) ==> Goes(StepValueLine(p, ch, skip).p)
  {
    if p.state == HeaderValueLws {
      FoldIs(p, ch, skip);
      NextHeaderGoes(p, ch, skip);
    } else if p.state == HeaderValueDiscardLws {
      EmptyFoldIs(p, ch, skip);
      NextHeaderGoes(p, ch, skip);
    } else {
      OtherLineState(p);
      OtherValueLine(p, ch, skip);
    }
  }

  predicate InValueLine(s: State) {
    s == HeaderValue || s == HeaderAlmostDone || s == HeaderValueDiscardWs || s == HeaderValueDiscardWsAlmostDone
  }

  lemma OtherLineState(p: Parser)
    requires WellFormed(p) && GroupOf(p.state) == AtHeader
    requires p.state != HeaderFieldStart && p.state != HeaderField && p.state != HeadersAlmostDone
    requires p.state != HeaderValueLws && p.state != HeaderValueDiscardLws
    ensures InValueLine(p.state)
  {
    NeverThere(p);
  }

  lemma NeverThere(p: Parser)
    requires WellFormed(p)
    ensures p.state != HeaderValueStart && p.state != HeadersDone
  {
    assert HttpModel.Expand(0);
  }

  lemma NextHeaderGoes(p: Parser, ch: Byte, skip: bool)
    ensures var o := StepNextHeader(p, ch, skip);
            && (EndsMessage(o) ==> Goes(o.p))
            && (EndsMessage(After(Data(Value, []), o)) ==> Goes(o.p))
  {
    FieldStartGoes(Finished(p).(state := HeaderFieldStart), ch, skip);
  }

  lemma OtherValueLine(p: Parser, ch: Byte, skip: bool)
    requires InValueLine(p.state)
    ensures OnMessageComplete !in StepValueLine(p, ch, skip).tells
  {
  }

  lemma HeaderGoes(p: Parser, ch: Byte, skip: bool)
    requires WellFormed(p) && GroupOf(p.state) == AtHeader
    ensures EndsMessage(StepHeader(p, ch, skip)) ==> Goes(StepHeader(p, ch, skip).p)
  {
    HeaderByState(p, ch, skip);
    if p.state == HeaderFieldStart {
      FieldStartGoes(p, ch, skip);
    } else if p.state == HeadersAlmostDone {
      HeadersEndGoes(p, ch, skip);
    } else if p.state != HeaderField {
      ValueLineGoes(p, ch, skip);
    }
  }

  lemma BodyEndGoes(p: Parser, ch: Byte)
    ensures EndsMessage(StepBody(p, ch)) ==> Goes(StepBody(p, ch).p)
  {
    if p.state == ChunkSizeStart || p.state == ChunkSize || p.state == ChunkParameters
       || p.state == ChunkSizeAlmostDone || p.state == ChunkData || p.state == ChunkDataAlmostDone
       || p.state == ChunkDataDone {
      ChunksTellNoEnd(p, ch);
    }
    CompleteGoes(p.(contentLength := 0, state := MessageDone), p.upgrade);
    CompleteGoes(p, p.upgrade);
  }

  lemma ChunksTellNoEnd(p: Parser, ch: Byte)
    requires p.state == ChunkSizeStart || p.state == ChunkSize || p.state == ChunkParameters
             || p.state == ChunkSizeAlmostDone || p.state == ChunkData || p.state == ChunkDataAlmostDone
             || p.state == ChunkDataDone
    ensures OnMessageComplete !in StepBody(p, ch).tells
  {
  }

  lemma StartTellsNoEnd(p: Parser, ch: Byte)
    ensures OnMessageComplete !in StepStart(p, ch).tells
  {
  }

  lemma LinesTellNoEnd(p: Parser, ch: Byte)
    ensures OnMessageComplete !in StepStatusLine(p, ch).tells && OnMessageComplete !in StepRequestLine(p, ch).tells
    ensures OnMessageComplete !in StepMethod(p, ch).tells && OnMessageComplete !in StepUrl(p, ch).tells
  {
    StatusLineTellsNothing(p, ch);
    RequestLineTellsNothing(p, ch);
  }

  lemma StatusLineTellsNothing(p: Parser, ch: Byte)
    ensures StepStatusLine(p, ch).tells == []
  {
  }

  lemma RequestLineTellsNothing(p: Parser, ch: Byte)
    ensures StepRequestLine(p, ch).tells == []
  {
  }

  /** When a byte completes a message, the parser goes on with another one just if the connection is kept. */
  lemma MessageEnds(p: Parser, ch: Byte, skip: bool)
    requires WellFormed(p) && EndsMessage(Step(p, ch, skip))
    ensures Goes(Step(p, ch, skip).p)
  {
    StepByState(p, ch, skip);
    var g := GroupOf(p.state);
    if g == AtHeader {
      HeaderGoes(p, ch, skip);
    } else if g == AtBody {
      BodyEndGoes(p, ch);
    } else {
      StartTellsNoEnd(p, ch);
      LinesTellNoEnd(p, ch);
    }
  }

  /** After the last message on a connection, anything but line ends is an error. */
  lemma NothingAfterLast(p: Parser, ch: Byte, skip: bool)
    requires p.state == Dead && p.errno == Ok
    ensures Step(p, ch, skip).p.errno == if ch == CR || ch == LF then Ok else ClosedConnection
    ensures Step(p, ch, skip).p.state == Dead
  {
  }
}
