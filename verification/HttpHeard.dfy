/** What is heard of a line: the bytes of its data, put together, and nothing else. */
module HttpHeard {
  import opened Numbers
  import opened HttpModel
  import opened HttpRun
  import opened HttpCalls
  import opened HttpParser
  import opened HttpLengths
  import opened HttpHeaders
  import opened HttpUrls

  // ----- runs and what is heard of them -----

  // Always true. Mentioning it opens Tells.
  ghost predicate OpenTells(x: nat, p: Parser, s: Stream) {
    true
  }

  /** The bytes d lead from p to q, and s and then what is heard of them are t. */
  ghost predicate Tells(f: Steps, p: Parser, s: Stream, d: seq<Byte>, q: Parser, t: Stream) {
    forall x: nat :: OpenTells(x, p, s) ==> Run(f, p, s, d, 0) == Result(q, t, |d|, false)
  }

  lemma TellsOn(f: Steps, p: Parser, s: Stream, x: seq<Byte>, q: Parser, t: Stream, y: seq<Byte>, r: Parser, u: Stream)
    requires Tells(f, p, s, x, q, t) && Tells(f, q, t, y, r, u)
    ensures Tells(f, p, s, x + y, r, u)
  {
    assert OpenTells(0, p, s) && OpenTells(0, q, t);
    RunInPieces(f, p, s, x, y);
  }

  /** What a run does after its first part. */
  lemma TellsRest(f: Steps, p: Parser, s: Stream, x: seq<Byte>, r: Parser, t: Stream, y: seq<Byte>, q: Parser)
    requires LeadsAt(f, p, s, x + y, q) && Tells(f, p, s, x, r, t)
    ensures LeadsAt(f, r, t, y, q)
  {
    assert OpenTells(0, p, s);
    RunInPieces(f, p, s, x, y);
  }

  /** A run that gets on does so in its first part. */
  lemma FirstPartOk(f: Steps, p: Parser, s: Stream, x: seq<Byte>, y: seq<Byte>, q: Parser)
    requires LeadsAt(f, p, s, x + y, q) && p.errno == Ok
    ensures Run(f, p, s, x, 0).p.errno == Ok
  {
    RunInPieces(f, p, s, x, y);
    GoingIsOk(f, p, s, x, 0);
  }

  /** A byte of no data, of which nothing is told. */
  predicate Silent(p: Parser, o: Outcome, q: Parser) {
    o.p == q && q.errno == Ok && o.tells == [] && !o.leave && Marked(q.state) == [] && !ReadsBody(p.state)
  }

  lemma SilentTells(f: Steps, answer: Answer, p: Parser, s: Stream, ch: Byte, q: Parser)
    requires IsMachine(f, answer) && Silent(p, Step(p, ch, answer(s, p)), q)
    ensures Tells(f, p, s, [ch], q, s)
  {
    AtByte(f, answer, s, p, ch);
    assert Run(f, q, s, [ch], 1) == Result(q, s, 1, false);
  }

  /** A byte of which something is told. */
  predicate Announces(p: Parser, o: Outcome, q: Parser, es: seq<Event>) {
    o.p == q && q.errno == Ok && o.tells == es && !o.leave && Marked(q.state) == [] && !ReadsBody(p.state)
  }

  lemma AnnouncesTells(f: Steps, answer: Answer, p: Parser, s: Stream, ch: Byte, q: Parser, es: seq<Event>)
    requires IsMachine(f, answer) && Announces(p, Step(p, ch, answer(s, p)), q, es)
    ensures Tells(f, p, s, [ch], q, AddAll(s, es))
  {
    AtByte(f, answer, s, p, ch);
    var t := AddAll(s, es);
    assert Run(f, q, t, [ch], 1) == Result(q, t, 1, false);
  }

  // ----- stretches of bytes of one kind -----

  /** Some bytes of a kind were heard. */
  function Grown(s: Stream, kind: seq<DataKind>, d: seq<Byte>): (t: Stream) {
    if kind == [] || d == [] then s else Add(s, Data(kind[0], d))
  }

  lemma GrownMore(s: Stream, kind: seq<DataKind>, ch: Byte, d: seq<Byte>)
    ensures Grown(AddByte(s, kind, ch), kind, d) == Grown(s, kind, [ch] + d)
  {
    if kind != [] && s.Heard? && s.e.Data? && s.e.kind == kind[0] {
      assert s.e.bytes + [ch] + d == s.e.bytes + ([ch] + d);
    }
    assert [ch] + [] == [ch];
  }

  datatype Stretch = Name | Blank | Text | Word | Path | Version | Reason | Size

  function KindOf(g: Stretch): (k: seq<DataKind>) {
    match g
    case Name => [Field] case Text => [Value] case Path => [Url] case Reason => [Status]
    case _ => []
  }

  /** The state in which a stretch begins, if it is not one of those within it. */
  predicate Starts(g: Stretch, s: State) {
    match g
    case Name => s == HeaderFieldStart
    case Text => s == HeaderValueDiscardWs
    case Path => s == ReqSpacesBeforeUrl
    case Reason => s == ResStatusStart
    case Size => s == ChunkSizeStart
    case _ => false
  }

  predicate Within(g: Stretch, s: State) {
    match g
    case Name => s == HeaderField
    case Blank => s == HeaderValueDiscardWs
    case Text => s == HeaderValue
    case Word => s == ReqMethod
    case Path => HttpUrls.InUrl(s)
    case Version => GroupOf(s) == AtRequestLine || (GroupOf(s) == AtStatusLine && s != ResStatusStart && s != ResStatus)
    case Reason => s == ResStatus
    case Size => s == ChunkSize
  }

  predicate Fits(g: Stretch, ch: Byte) {
    match g
    case Name => Token(ch) != 0
    case Blank => ch == SP || ch == HT
    case Text => ch != CR && ch != LF
    case Word => ch != SP
    case Path => ch != SP && ch != CR && ch != LF
    case Version => ch != SP && ch != LF
    case Reason => ch != CR && ch != LF
    case Size => Unhex(ch) != -1
  }

  predicate FirstFits(g: Stretch, s: State, ch: Byte) {
    g == Text && Starts(g, s) ==> ch != SP && ch != HT
  }

  predicate Continues(g: Stretch, p: Parser, o: Outcome) {
    && !ReadsBody(p.state)
    && (o.p.errno == Ok ==> o.tells == [] && !o.leave && Marked(o.p.state) == KindOf(g) && Within(g, o.p.state))
  }

  lemma NameStretch(p: Parser, ch: Byte, skip: bool)
    requires (p.state == HeaderFieldStart || p.state == HeaderField) && Token(ch) != 0
    ensures Continues(Name, p, Step(p, ch, skip))
  {
    if p.state == HeaderFieldStart {
      FieldStartStep(p, ch, skip);
    } else {
      StepReads(p, ch, skip);
    }
  }

  lemma BlankStretch(p: Parser, ch: Byte, skip: bool)
    requires p.state == HeaderValueDiscardWs && (ch == SP || ch == HT)
    ensures Continues(Blank, p, Step(p, ch, skip))
  {
    DiscardStep(p, ch, skip);
  }

  lemma TextStretch(p: Parser, ch: Byte, skip: bool)
    requires p.state == HeaderValue && ch != CR && ch != LF
    ensures Continues(Text, p, Step(p, ch, skip))
  {
    StepReads(p, ch, skip);
  }

  lemma FirstTextStretch(p: Parser, ch: Byte, skip: bool)
    requires p.state == HeaderValueDiscardWs && ch != CR && ch != LF && ch != SP && ch != HT
    ensures Continues(Text, p, Step(p, ch, skip))
  {
    DiscardStep(p, ch, skip);
    ValueStarts(p, ch);
  }

  lemma ValueStarts(p: Parser, ch: Byte)
    ensures var o := StepHeaderValueStart(p, ch); o.tells == [] && !o.leave && o.p.state == HeaderValue
  {
  }

  lemma UrlStretch(p: Parser, ch: Byte, skip: bool)
    requires (p.state == ReqSpacesBeforeUrl || HttpUrls.InUrl(p.state)) && Fits(Path, ch)
    ensures Continues(Path, p, Step(p, ch, skip))
  {
    UrlMarked(p.state);
    StepByState(p, ch, skip);
    if p.state == ReqSpacesBeforeUrl {
      UrlStarts(p.meth == Connect, ch);
    } else {
      InUrlGroup(p.state);
      UrlStays(p.state, ch);
    }
    UrlMarked(StepUrl(p, ch).p.state);
  }

  lemma UrlMarked(s: State)
    ensures HttpUrls.InUrl(s) ==> Marked(s) == [Url] && !ReadsBody(s)
  {
  }

  lemma LinesMarked(s: State)
    ensures GroupOf(s) == AtRequestLine || (GroupOf(s) == AtStatusLine && s != ResStatus) || s == HeaderFieldStart ==>
              Marked(s) == [] && !ReadsBody(s)
  {
  }

  /** A byte of the first line, other than those of the URL and the reason. */
  predicate InLine(o: Outcome, s: State) {
    o.p.errno == Ok ==> o.tells == [] && !o.leave && o.p.state == s
  }

  lemma RequestLineStretch(p: Parser, ch: Byte)
    requires GroupOf(p.state) == AtRequestLine
    ensures var o := StepRequestLine(p, ch);
            && InLine(o, o.p.state)
            && (o.p.errno == Ok ==> if ch == LF then o.p.state == HeaderFieldStart else Within(Version, o.p.state))
  {
  }

  lemma StatusLineStretch(p: Parser, ch: Byte)
    requires GroupOf(p.state) == AtStatusLine && p.state != ResStatusStart && p.state != ResStatus
    ensures var o := StepStatusLine(p, ch);
            && InLine(o, o.p.state)
            && (o.p.errno == Ok && ch != SP ==>
                  if ch == LF then o.p.state == HeaderFieldStart else Within(Version, o.p.state))
  {
  }

  lemma VersionStretch(p: Parser, ch: Byte, skip: bool)
    requires Within(Version, p.state) && ch != SP
    ensures var o := Step(p, ch, skip);
            && !ReadsBody(p.state)
            && (o.p.errno == Ok ==>
                  && o.tells == [] && !o.leave && Marked(o.p.state) == []
                  && if ch == LF then o.p.state == HeaderFieldStart else Within(Version, o.p.state))
  {
    LinesMarked(p.state);
    StepByState(p, ch, skip);
    if GroupOf(p.state) == AtRequestLine {
      RequestLineStretch(p, ch);
      LinesMarked(StepRequestLine(p, ch).p.state);
    } else {
      StatusLineStretch(p, ch);
      LinesMarked(StepStatusLine(p, ch).p.state);
    }
  }

  lemma WordStretch(p: Parser, ch: Byte, skip: bool)
    requires p.state == ReqMethod
    ensures var o := Step(p, ch, skip);
            if ch == SP then o.p.errno == Ok ==> Silent(p, o, o.p) else Continues(Word, p, o)
  {
    StepByState(p, ch, skip);
  }

  lemma ReasonStretch(p: Parser, ch: Byte, skip: bool)
    requires (p.state == ResStatusStart || p.state == ResStatus) && ch != CR && ch != LF
    ensures Continues(Reason, p, Step(p, ch, skip))
  {
    StepByState(p, ch, skip);
  }

  lemma SizeStretch(p: Parser, ch: Byte, skip: bool)
    requires (p.state == ChunkSizeStart || p.state == ChunkSize) && Unhex(ch) != -1
    ensures Continues(Size, p, Step(p, ch, skip))
  {
    SizeGroup(p, ch, skip);
    SizeBody(p, ch);
  }

  lemma SizeGroup(p: Parser, ch: Byte, skip: bool)
    requires p.state == ChunkSizeStart || p.state == ChunkSize
    ensures Step(p, ch, skip) == StepBody(p, ch)
  {
    StepByState(p, ch, skip);
  }

  lemma SizeBody(p: Parser, ch: Byte)
    requires (p.state == ChunkSizeStart || p.state == ChunkSize) && Unhex(ch) != -1
    ensures var o := StepBody(p, ch); o.tells == [] && !o.leave && (o.p.errno == Ok ==> o.p.state == ChunkSize)
  {
    if p.state == ChunkSize {
      assert ch != CR;
    }
  }

  lemma StretchStep(g: Stretch, p: Parser, ch: Byte, skip: bool)
    requires (Starts(g, p.state) || Within(g, p.state)) && Fits(g, ch) && FirstFits(g, p.state, ch)
    ensures Continues(g, p, Step(p, ch, skip))
  {
    match g
    case Name => NameStretch(p, ch, skip);
    case Blank => BlankStretch(p, ch, skip);
    case Text => if p.state == HeaderValue { TextStretch(p, ch, skip); } else { FirstTextStretch(p, ch, skip); }
    case Word => WordStretch(p, ch, skip);
    case Path => UrlStretch(p, ch, skip);
    case Version => VersionStretch(p, ch, skip);
    case Reason => ReasonStretch(p, ch, skip);
    case Size => SizeStretch(p, ch, skip);
  }

  lemma NotStarting(g: Stretch, s: State)
    requires Within(g, s)
    ensures forall ch :: FirstFits(g, s, ch)
  {
  }

  /** One byte of a stretch. */
  lemma StretchByte(g: Stretch, f: Steps, answer: Answer, p: Parser, s: Stream, ch: Byte)
    requires IsMachine(f, answer)
    requires (Starts(g, p.state) || Within(g, p.state)) && Fits(g, ch) && FirstFits(g, p.state, ch)
    ensures var o := f(s, p, ch);
            o.p.errno == Ok ==>
              !o.leave && Within(g, o.p.state) && Hear(s, p.state, ch, o) == AddByte(s, KindOf(g), ch)
  {
    AtByte(f, answer, s, p, ch);
    StretchStep(g, p, ch, answer(s, p));
  }

  /** A stretch without an error is heard as data of its kind, or not at all. */
  ghost predicate HeardSo(g: Stretch, r: Result, s: Stream, d: seq<Byte>) {
    r.p.errno == Ok ==> !r.stopped && r.s == Grown(s, KindOf(g), d) && (d != [] ==> Within(g, r.p.state))
  }

  lemma {:induction false} StretchRun(g: Stretch, f: Steps, answer: Answer, p: Parser, s: Stream, d: seq<Byte>, i: nat)
    requires IsMachine(f, answer) && p.errno == Ok && i <= |d| && forall j :: 0 <= j < |d| ==> Fits(g, d[j])
    requires (Starts(g, p.state) || Within(g, p.state)) && (i < |d| ==> FirstFits(g, p.state, d[i]))
    ensures HeardSo(g, Run(f, p, s, d, i), s, d[i..])
    decreases |d| - i
  {
    if i == |d| {
      assert d[i..] == [];
    } else {
      StretchByte(g, f, answer, p, s, d[i]);
      var q, t := f(s, p, d[i]).p, AddByte(s, KindOf(g), d[i]);
      if q.errno == Ok {
        NotStarting(g, q.state);
        StretchRun(g, f, answer, q, t, d, i + 1);
        assert Run(f, p, s, d, i) == Run(f, q, t, d, i + 1);
        HeardMore(g, Run(f, q, t, d, i + 1), q, s, d[i], d[i + 1..]);
        assert [d[i]] + d[i + 1..] == d[i..];
      }
    }
  }

  lemma HeardMore(g: Stretch, r: Result, q: Parser, s: Stream, ch: Byte, d: seq<Byte>)
    requires HeardSo(g, r, AddByte(s, KindOf(g), ch), d) && Within(g, q.state) && (d == [] ==> r.p == q)
    ensures HeardSo(g, r, s, [ch] + d)
  {
    GrownMore(s, KindOf(g), ch, d);
  }

  // ----- what ends a stretch -----

  /** The byte after a stretch. */
  function ClosedBy(g: Stretch): (ch: Byte) {
    match g
    case Name => COLON
    case Word => SP
    case Path => SP
    case Version => LF
    case _ => CR
  }

  /** The state after it. */
  predicate ClosesTo(g: Stretch, s: State) {
    match g
    case Name => s == HeaderValueDiscardWs
    case Text => s == HeaderAlmostDone
    case Path => s == ReqHttpStart
    case Version => s == HeaderFieldStart
    case Reason => s == ResLineAlmostDone
    case Size => s == ChunkSizeAlmostDone
    case _ => true
  }

  lemma CloseStep(g: Stretch, p: Parser, skip: bool)
    requires Within(g, p.state) && g != Blank
    ensures var o := Step(p, ClosedBy(g), skip);
            o.p.errno == Ok ==> Silent(p, o, o.p) && ClosesTo(g, o.p.state)
  {
    match g
    case Name => NameCloses(p, skip);
    case Text => TextCloses(p, skip);
    case Word => WordStretch(p, SP, skip);
    case Path => PathCloses(p, skip);
    case Version => VersionStretch(p, LF, skip);
    case Reason => ReasonCloses(p, skip);
    case Size => SizeCloses(p, skip);
  }

  lemma NameCloses(p: Parser, skip: bool)
    requires p.state == HeaderField
    ensures var o := Step(p, COLON, skip); o.p.errno == Ok ==> Silent(p, o, o.p) && o.p.state == HeaderValueDiscardWs
  {
    StepReads(p, COLON, skip);
  }

  lemma TextCloses(p: Parser, skip: bool)
    requires p.state == HeaderValue
    ensures var o := Step(p, CR, skip); o.p.errno == Ok ==> Silent(p, o, o.p) && o.p.state == HeaderAlmostDone
  {
    StepReads(p, CR, skip);
  }

  lemma ReasonCloses(p: Parser, skip: bool)
    requires p.state == ResStatus
    ensures var o := Step(p, CR, skip); o.p.errno == Ok ==> Silent(p, o, o.p) && o.p.state == ResLineAlmostDone
  {
    StepByState(p, CR, skip);
  }

  lemma SizeCloses(p: Parser, skip: bool)
    requires p.state == ChunkSize
    ensures var o := Step(p, CR, skip); o.p.errno == Ok ==> Silent(p, o, o.p) && o.p.state == ChunkSizeAlmostDone
  {
    StepByState(p, CR, skip);
  }

  lemma PathCloses(p: Parser, skip: bool)
    requires HttpUrls.InUrl(p.state)
    ensures var o := Step(p, SP, skip); o.p.errno == Ok ==> Silent(p, o, o.p) && o.p.state == ReqHttpStart
  {
    UrlMarked(p.state);
    InUrlGroup(p.state);
    StepByState(p, SP, skip);
  }

  /** The byte after a stretch, if it is no error. */
  lemma ClosingByte(g: Stretch, f: Steps, answer: Answer, p: Parser, s: Stream) returns (q: Parser)
    requires IsMachine(f, answer) && g != Blank && Within(g, p.state)
    requires Run(f, p, s, [ClosedBy(g)], 0).p.errno == Ok
    ensures q.errno == Ok && ClosesTo(g, q.state) && Tells(f, p, s, [ClosedBy(g)], q, s)
  {
    var ch := ClosedBy(g);
    OneByteRun(f, p, s, ch);
    AtByte(f, answer, s, p, ch);
    CloseStep(g, p, answer(s, p));
    q := Step(p, ch, answer(s, p)).p;
    SilentTells(f, answer, p, s, ch, q);
  }

  /** A stretch, if it is no error. */
  lemma OpenStretch(g: Stretch, f: Steps, answer: Answer, p: Parser, s: Stream, d: seq<Byte>) returns (q: Parser)
    requires IsMachine(f, answer) && p.errno == Ok && forall j :: 0 <= j < |d| ==> Fits(g, d[j])
    requires (Starts(g, p.state) || Within(g, p.state)) && (d != [] ==> FirstFits(g, p.state, d[0]))
    requires Run(f, p, s, d, 0).p.errno == Ok
    ensures q.errno == Ok && (d != [] ==> Within(g, q.state)) && Tells(f, p, s, d, q, Grown(s, KindOf(g), d))
    ensures q == Run(f, p, s, d, 0).p
  {
    StretchRun(g, f, answer, p, s, d, 0);
    assert d[0..] == d;
    q := Run(f, p, s, d, 0).p;
  }

  lemma TellsLast(f: Steps, p: Parser, s: Stream, x: seq<Byte>, r: Parser, t: Stream, y: seq<Byte>)
    requires Tells(f, p, s, x, r, t)
    ensures Run(f, p, s, x + y, 0).p == Run(f, r, t, y, 0).p
  {
    assert OpenTells(0, p, s);
    RunInPieces(f, p, s, x, y);
  }

  lemma StretchOk(g: Stretch, f: Steps, answer: Answer, p: Parser, s: Stream, d: seq<Byte>)
    requires p.errno == Ok && Run(f, p, s, d + [ClosedBy(g)], 0).p.errno == Ok
    ensures Run(f, p, s, d, 0).p.errno == Ok
  {
    RunInPieces(f, p, s, d, [ClosedBy(g)]);
    if !Run(f, p, s, d, 0).stopped {
      GoingIsOk(f, p, s, d, 0);
    }
  }

  /** A stretch and the byte after it, if they are no error. */
  lemma ClosedStretch(g: Stretch, f: Steps, answer: Answer, p: Parser, s: Stream, d: seq<Byte>) returns (q: Parser)
    requires IsMachine(f, answer) && p.errno == Ok && g != Blank && d != []
    requires forall j :: 0 <= j < |d| ==> Fits(g, d[j])
    requires (Starts(g, p.state) || Within(g, p.state)) && FirstFits(g, p.state, d[0])
    requires Run(f, p, s, d + [ClosedBy(g)], 0).p.errno == Ok
    ensures q.errno == Ok && ClosesTo(g, q.state)
    ensures Tells(f, p, s, d + [ClosedBy(g)], q, Grown(s, KindOf(g), d))
  {
    StretchOk(g, f, answer, p, s, d);
    var r := OpenStretch(g, f, answer, p, s, d);
    var t := Grown(s, KindOf(g), d);
    TellsLast(f, p, s, d, r, t, [ClosedBy(g)]);
    q := ClosingByte(g, f, answer, r, t);
    TellsOn(f, p, s, d, r, t, [ClosedBy(g)], q, t);
  }
}
