/** Header lines: what is heard of all of them, and what is remembered at their end. */
module HttpHeadings {
  import opened Numbers
  import opened HttpModel
  import opened HttpRun
  import opened HttpCalls
  import opened HttpParser
  import opened HttpLengths
  import opened HttpHeaders
  import opened HttpHeard

  datatype Header = Header(name: seq<Byte>, blanks: seq<Byte>, value: seq<Byte>)

  /** A header that the parser takes: a value is there, a Connection header has one token, and a content
      length is a number within bounds. */
  predicate HeaderOk(h: Header) {
    && IsName(h.name) && IsBlank(h.blanks) && IsValue(h.value) && (IsConnection(h.name) ==> OneToken(h.value))
    && (Spells(h.name, "content-length") ==> IsLength(h.value) && NotTooLong(h.value))
  }

  function LineOf(h: Header): (d: seq<Byte>) {
    Line(h.name, h.blanks, h.value)
  }

  function LengthBy(n: nat, h: Header): (r: nat) {
    if Spells(h.name, "content-length") && IsLength(h.value) then Decimal(Digits(h.value)) else n
  }

  // ----- one line -----

  /** The parser at the end of a line. */
  predicate AfterLine(p: Parser, q: Parser, h: Header) {
    && q == p.(state := HeaderValueLws, headerState := q.headerState, index := q.index, flags := q.flags,
               contentLength := q.contentLength)
    && FlagsAfter(q.flags, q.headerState) == Said(p.flags, h.name, h.value)
    && q.contentLength == LengthBy(p.contentLength, h)
  }

  lemma LengthSaysNothing(flags: Flags, name: seq<Byte>, v: seq<Byte>)
    requires Spells(name, "content-length")
    ensures Said(flags, name, v) == flags
  {
  }

  lemma LineEnds(f: Steps, answer: Answer, p: Parser, h: Header, r: Parser, t: Parser)
    requires IsMachine(f, answer) && Leads(f, p, h.name + [COLON] + h.blanks, r) && Leads(f, r, h.value, t)
    requires t.state == HeaderValue && t.errno == Ok
    ensures Leads(f, p, LineOf(h), t.(state := HeaderValueLws))
  {
    LeadsOn(f, p, h.name + [COLON] + h.blanks, r, h.value, t);
    LineEndLeads(f, answer, t);
    LeadsOn(f, p, h.name + [COLON] + h.blanks + h.value, t, [CR] + [LF], t.(state := HeaderValueLws));
  }

  lemma TextLineLeads(f: Steps, answer: Answer, p: Parser, h: Header) returns (q: Parser)
    requires IsMachine(f, answer) && p.state == HeaderFieldStart && p.errno == Ok && HeaderOk(h)
    requires !Spells(h.name, "content-length")
    ensures Leads(f, p, LineOf(h), q) && AfterLine(p, q, h)
  {
    NameIsKnown(h.name);
    var r := NameRead(f, answer, p, h.name, h.blanks);
    var t := TextLeads(f, answer, r, h.value, |h.value|);
    assert h.value[..|h.value|] == h.value && HttpHeaders.Open(0, t);
    q := t.(state := HeaderValueLws);
    LineEnds(f, answer, p, h, r, t);
    SaidIs(p.flags, h.name, h.value, r.headerState);
  }

  lemma LengthName(name: seq<Byte>)
    requires IsName(name) && Spells(name, "content-length")
    ensures NameState(name, |name|) == HContentLength
  {
    NameIsKnown(name);
  }

  lemma LengthLineLeads(f: Steps, answer: Answer, p: Parser, h: Header) returns (q: Parser)
    requires IsMachine(f, answer) && p.state == HeaderFieldStart && p.errno == Ok && HeaderOk(h)
    requires Spells(h.name, "content-length")
    ensures Leads(f, p, LineOf(h), q) && AfterLine(p, q, h)
  {
    DecimalFits(h.value);
    LengthName(h.name);
    var r := NameRead(f, answer, p, h.name, h.blanks);
    var t := LengthLeads(f, answer, r, h.value, |h.value|);
    assert h.value[..|h.value|] == h.value && HttpHeaders.Open(0, t);
    q := t.(state := HeaderValueLws);
    LineEnds(f, answer, p, h, r, t);
    LengthSaysNothing(p.flags, h.name, h.value);
  }

  lemma LineLeads(f: Steps, answer: Answer, p: Parser, h: Header) returns (q: Parser)
    requires IsMachine(f, answer) && p.state == HeaderFieldStart && p.errno == Ok && HeaderOk(h)
    ensures Leads(f, p, LineOf(h), q) && AfterLine(p, q, h)
  {
    if Spells(h.name, "content-length") {
      q := LengthLineLeads(f, answer, p, h);
    } else {
      q := TextLineLeads(f, answer, p, h);
    }
  }

  /** A header was heard. */
  function HeaderHeard(s: Stream, h: Header): (t: Stream) {
    Add(Add(s, Data(Field, h.name)), Data(Value, h.value))
  }

  lemma LineFeedTells(f: Steps, answer: Answer, p: Parser, s: Stream)
    requires IsMachine(f, answer) && p.state == HeaderAlmostDone && p.errno == Ok
    ensures Tells(f, p, s, [LF], p.(state := HeaderValueLws), s)
  {
    var skip := answer(s, p);
    StepByState(p, LF, skip);
    HeaderByState(p, LF, skip);
    LineEndStep(p, LF, skip);
    SilentTells(f, answer, p, s, LF, p.(state := HeaderValueLws));
  }

  lemma TellsTo(f: Steps, p: Parser, s: Stream, d: seq<Byte>, q: Parser, r: Parser, t: Stream)
    requires LeadsAt(f, p, s, d, q) && Tells(f, p, s, d, r, t)
    ensures q == r
  {
    assert OpenTells(0, p, s);
  }

  /** The value and the end of its line. */
  lemma ValueHeard(f: Steps, answer: Answer, p: Parser, s: Stream, v: seq<Byte>, q: Parser)
    requires IsMachine(f, answer) && p.state == HeaderValueDiscardWs && p.errno == Ok && IsValue(v)
    requires LeadsAt(f, p, s, v + [CR] + [LF], q)
    ensures Tells(f, p, s, v + [CR] + [LF], q, Add(s, Data(Value, v)))
  {
    var t := Add(s, Data(Value, v));
    FirstPartOk(f, p, s, v + [CR], [LF], q);
    var r := ClosedStretch(Text, f, answer, p, s, v);
    TellsRest(f, p, s, v + [CR], r, t, [LF], q);
    LineFeedTells(f, answer, r, t);
    TellsTo(f, r, t, [LF], q, r.(state := HeaderValueLws), t);
    TellsOn(f, p, s, v + [CR], r, t, [LF], q, t);
  }

  lemma BlanksTell(f: Steps, answer: Answer, p: Parser, s: Stream, d: seq<Byte>)
    requires IsMachine(f, answer) && p.state == HeaderValueDiscardWs && p.errno == Ok && IsBlank(d)
    ensures Tells(f, p, s, d, p, s)
  {
    BlankLeads(f, answer, p, d, |d|);
    assert d[..|d|] == d && HttpHeaders.Open(0, p);
    assert LeadsAt(f, p, s, d, p);
    StretchRun(Blank, f, answer, p, s, d, 0);
    assert d[0..] == d;
  }

  lemma LineParts(h: Header)
    ensures LineOf(h) == h.name + [COLON] + (h.blanks + (h.value + [CR] + [LF]))
  {
  }

  /** The name and the value of a header are heard. */
  lemma LineHeard(f: Steps, answer: Answer, p: Parser, s: Stream, h: Header, q: Parser)
    requires IsMachine(f, answer) && p.state == HeaderFieldStart && p.errno == Ok && HeaderOk(h)
    requires LeadsAt(f, p, s, LineOf(h), q)
    ensures Tells(f, p, s, LineOf(h), q, HeaderHeard(s, h))
  {
    var x, y, z := h.name + [COLON], h.blanks, h.value + [CR] + [LF];
    var t := Add(s, Data(Field, h.name));
    LineParts(h);
    FirstPartOk(f, p, s, x, y + z, q);
    var r := ClosedStretch(Name, f, answer, p, s, h.name);
    TellsRest(f, p, s, x, r, t, y + z, q);
    BlanksTell(f, answer, r, t, y);
    TellsRest(f, r, t, y, r, t, z, q);
    ValueHeard(f, answer, r, t, h.value, q);
    TellsOn(f, r, t, y, r, t, z, q, HeaderHeard(s, h));
    TellsOn(f, p, s, x, r, t, y + z, q, HeaderHeard(s, h));
  }

  lemma LineTells(f: Steps, answer: Answer, p: Parser, s: Stream, h: Header) returns (q: Parser)
    requires IsMachine(f, answer) && p.state == HeaderFieldStart && p.errno == Ok && HeaderOk(h)
    ensures Tells(f, p, s, LineOf(h), q, HeaderHeard(s, h)) && AfterLine(p, q, h)
  {
    q := LineLeads(f, answer, p, h);
    assert HttpHeaders.Open(0, p);
    assert LeadsAt(f, p, s, LineOf(h), q);
    LineHeard(f, answer, p, s, h, q);
  }

  // ----- all lines -----

  function Lines(hs: seq<Header>): (d: seq<Byte>) {
    if hs == [] then [] else LineOf(hs[0]) + Lines(hs[1..])
  }

  function HeadersHeard(s: Stream, hs: seq<Header>): (t: Stream)
    decreases |hs|
  {
    if hs == [] then s else HeadersHeard(HeaderHeard(s, hs[0]), hs[1..])
  }

  function AllSaid(flags: Flags, hs: seq<Header>): (r: Flags)
    decreases |hs|
  {
    if hs == [] then flags else AllSaid(Said(flags, hs[0].name, hs[0].value), hs[1..])
  }

  /** The last content length, or n. */
  function LengthOf(n: nat, hs: seq<Header>): (r: nat)
    decreases |hs|
  {
    if hs == [] then n else LengthOf(LengthBy(n, hs[0]), hs[1..])
  }

  predicate HeadersOk(hs: seq<Header>) {
    forall i :: 0 <= i < |hs| ==> HeaderOk(hs[i])
  }

  /** The parser after a line, before the first byte of the next one. */
  function NextLine(q: Parser): (r: Parser) {
    Finished(q).(state := HeaderFieldStart)
  }

  lemma SameStep(q: Parser, ch: Byte, a: bool, b: bool)
    requires q.state == HeaderValueLws && ch != SP && ch != HT && ch != LF
    ensures Step(q, ch, a) == Step(NextLine(q), ch, b)
  {
    NextLineStep(q, ch, a);
    FieldStartIs(NextLine(q), ch, b);
    AnyAnswer(NextLine(q), ch, a, b);
  }

  lemma NextLineStep(q: Parser, ch: Byte, skip: bool)
    requires q.state == HeaderValueLws && ch != SP && ch != HT
    ensures Step(q, ch, skip) == StepHeaderFieldStart(NextLine(q), ch, skip)
  {
    StepByState(q, ch, skip);
    HeaderByState(q, ch, skip);
    FoldIs(q, ch, skip);
  }

  lemma FieldStartIs(r: Parser, ch: Byte, skip: bool)
    requires r.state == HeaderFieldStart
    ensures Step(r, ch, skip) == StepHeaderFieldStart(r, ch, skip)
  {
    StepByState(r, ch, skip);
    HeaderByState(r, ch, skip);
  }

  lemma AnyAnswer(r: Parser, ch: Byte, a: bool, b: bool)
    requires ch != LF
    ensures StepHeaderFieldStart(r, ch, a) == StepHeaderFieldStart(r, ch, b)
  {
  }

  /** A line that does not begin with a blank is read as if it were the first. */
  lemma NextLineRuns(f: Steps, answer: Answer, q: Parser, s: Stream, d: seq<Byte>)
    requires IsMachine(f, answer) && q.state == HeaderValueLws && d != [] && d[0] != SP && d[0] != HT && d[0] != LF
    ensures Run(f, q, s, d, 0) == Run(f, NextLine(q), s, d, 0)
  {
    var r := NextLine(q);
    AtByte(f, answer, s, q, d[0]);
    AtByte(f, answer, s, r, d[0]);
    SameStep(q, d[0], answer(s, q), answer(s, r));
    assert !ReadsBody(q.state) && !ReadsBody(r.state);
  }

  lemma LinesBegin(hs: seq<Header>)
    requires HeadersOk(hs)
    ensures var d := Lines(hs) + [CR]; d[0] != SP && d[0] != HT && d[0] != LF
  {
    if hs != [] {
      assert HeaderOk(hs[0]);
      assert Lines(hs)[0] == hs[0].name[0];
    }
  }

  /** The parser after all lines. */
  predicate AfterLines(p: Parser, q: Parser, hs: seq<Header>) {
    && q == p.(state := HeadersAlmostDone, headerState := q.headerState, index := q.index, flags := q.flags,
               contentLength := q.contentLength)
    && q.flags == AllSaid(p.flags, hs) && q.contentLength == LengthOf(p.contentLength, hs)
  }

  lemma LastLineTells(f: Steps, answer: Answer, p: Parser, s: Stream)
    requires IsMachine(f, answer) && p.state == HeaderFieldStart && p.errno == Ok
    ensures Tells(f, p, s, [CR], p.(state := HeadersAlmostDone), s)
  {
    FieldStartIs(p, CR, answer(s, p));
    SilentTells(f, answer, p, s, CR, p.(state := HeadersAlmostDone));
  }

  /** All headers are heard, in order, and what they say is remembered at the line end after them. */
  lemma {:induction false} LinesTell(f: Steps, answer: Answer, p: Parser, s: Stream, hs: seq<Header>)
    returns (q: Parser)
    requires IsMachine(f, answer) && p.state == HeaderFieldStart && p.errno == Ok && HeadersOk(hs)
    ensures Tells(f, p, s, Lines(hs) + [CR], q, HeadersHeard(s, hs)) && AfterLines(p, q, hs)
    decreases |hs|
  {
    if hs == [] {
      q := p.(state := HeadersAlmostDone);
      LastLineTells(f, answer, p, s);
      assert Lines(hs) + [CR] == [CR];
    } else {
      assert HeaderOk(hs[0]);
      var r := LineTells(f, answer, p, s, hs[0]);
      q := LinesTell(f, answer, NextLine(r), HeaderHeard(s, hs[0]), hs[1..]);
      LinesJoin(f, answer, p, s, hs, r, q);
      AfterBoth(p, r, q, hs);
    }
  }

  lemma LinesJoin(f: Steps, answer: Answer, p: Parser, s: Stream, hs: seq<Header>, r: Parser, q: Parser)
    requires IsMachine(f, answer) && HeadersOk(hs) && hs != [] && r.state == HeaderValueLws
    requires Tells(f, p, s, LineOf(hs[0]), r, HeaderHeard(s, hs[0]))
    requires Tells(f, NextLine(r), HeaderHeard(s, hs[0]), Lines(hs[1..]) + [CR], q,
                   HeadersHeard(HeaderHeard(s, hs[0]), hs[1..]))
    ensures Tells(f, p, s, Lines(hs) + [CR], q, HeadersHeard(s, hs))
  {
    var h, more := hs[0], hs[1..];
    LineThenLines(f, answer, p, s, h, more, r, q);
    assert Lines(hs) + [CR] == LineOf(h) + (Lines(more) + [CR]);
  }

  lemma AfterBoth(p: Parser, r: Parser, q: Parser, hs: seq<Header>)
    requires hs != [] && AfterLine(p, r, hs[0]) && AfterLines(NextLine(r), q, hs[1..])
    ensures AfterLines(p, q, hs)
  {
    FinishedIs(r);
  }

  lemma LineThenLines(f: Steps, answer: Answer, p: Parser, s: Stream, h: Header, more: seq<Header>, r: Parser,
                      q: Parser)
    requires IsMachine(f, answer) && HeadersOk(more) && r.state == HeaderValueLws
    requires Tells(f, p, s, LineOf(h), r, HeaderHeard(s, h))
    requires Tells(f, NextLine(r), HeaderHeard(s, h), Lines(more) + [CR], q, HeadersHeard(HeaderHeard(s, h), more))
    ensures Tells(f, p, s, LineOf(h) + (Lines(more) + [CR]), q, HeadersHeard(HeaderHeard(s, h), more))
  {
    var t, rest := HeaderHeard(s, h), Lines(more) + [CR];
    LinesBegin(more);
    NextLineRuns(f, answer, r, t, rest);
    SameTells(f, r, NextLine(r), t, rest, q, HeadersHeard(t, more));
    TellsOn(f, p, s, LineOf(h), r, t, rest, q, HeadersHeard(t, more));
  }

  lemma SameTells(f: Steps, p: Parser, r: Parser, s: Stream, d: seq<Byte>, q: Parser, t: Stream)
    requires Run(f, p, s, d, 0) == Run(f, r, s, d, 0) && Tells(f, r, s, d, q, t)
    ensures Tells(f, p, s, d, q, t)
  {
    assert OpenTells(0, r, s);
  }
}
