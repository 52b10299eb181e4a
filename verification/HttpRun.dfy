/**
 Runs of the byte machine: what an application hears of a whole buffer, how runs split, and what
 every run keeps.
 */
module HttpRun {
  import opened Numbers
  import opened HttpModel

  /** The kind of data a byte belongs to when it leaves the parser in state s. */
  function Marked(s: State): (k: seq<DataKind>)
    ensures |k| <= 1
  {
    match s
    case HeaderField => [Field]
    case HeaderValue => [Value]
    case ResStatus => [Status]
    case ReqSchema => [Url] case ReqSchemaSlash => [Url] case ReqSchemaSlashSlash => [Url] case ReqServerStart => [Url]
    case ReqServer => [Url] case ReqServerWithAt => [Url] case ReqPath => [Url] case ReqQueryStringStart => [Url]
    case ReqQueryString => [Url] case ReqFragmentStart => [Url] case ReqFragment => [Url]
    case _ => []
  }

  predicate ReadsBody(s: State) {
    s == BodyIdentity || s == BodyIdentityEof || s == ChunkData
  }

  /** Body bytes may be pending. */
  predicate InBody(s: State) {
    ReadsBody(s) || s == ChunkDataAlmostDone
  }

  function AddByte(s: Stream, kind: seq<DataKind>, ch: Byte): (r: Stream) {
    if kind == [] then s else Add(s, Data(kind[0], [ch]))
  }

  /** What is heard of one byte that is read in state before. */
  function Hear(s: Stream, before: State, ch: Byte, o: Outcome): (r: Stream) {
    if o.p.errno != Ok then AddAll(s, o.tells)
    else if ReadsBody(before) then AddAll(AddByte(s, [Body], ch), o.tells)
    else AddByte(AddAll(s, o.tells), Marked(o.p.state), ch)
  }

  /** The end of a run: fields, notifications, the bytes taken, and whether the parser stopped, for an
      error or for another protocol. */
  datatype Result = Result(p: Parser, s: Stream, taken: nat, stopped: bool)

  /** The bytes of data from i on, one at a time, through a machine f. */
  function Run(f: (Stream, Parser, Byte) -> Outcome, p: Parser, s: Stream, data: seq<Byte>, i: nat): (r: Result)
    requires i <= |data|
    ensures !r.stopped ==> r.taken == |data|
    decreases |data| - i
  {
    if i == |data| then Result(p, s, i, false)
    else
      var o := f(s, p, data[i]);
      var s' := Hear(s, p.state, data[i], o);
      if o.p.errno != Ok then Result(o.p, s', i, true)
      else if o.leave then Result(o.p, s', i + 1, true)
      else Run(f, o.p, s', data, i + 1)
  }

  /** What the application answers to headers-complete: whether the message has no body. It has heard
      the stream, and sees the fields of the parser. */
  type Answer = (Stream, Parser) -> bool

  /** The parser's machine, for one application. */
  function Machine(answer: Answer): (f: (Stream, Parser, Byte) -> Outcome) {
    (s: Stream, p: Parser, ch: Byte) => Step(p, ch, answer(s, p))
  }

  // Always true. Mentioning it opens RunsTo at byte i.
  ghost predicate OpenRun(x: nat, p: Parser, i: nat) {
    true
  }

  /** The run from byte i on leaves the fields in q. */
  ghost predicate RunsTo(f: (Stream, Parser, Byte) -> Outcome, p: Parser, s: Stream, data: seq<Byte>, i: nat, q: Parser)
    requires i <= |data|
  {
    forall x: nat :: OpenRun(x, p, i) ==> Run(f, p, s, data, i).p == q
  }

  lemma RunsToIs(f: (Stream, Parser, Byte) -> Outcome, p: Parser, s: Stream, data: seq<Byte>, i: nat, q: Parser)
    requires i <= |data| && RunsTo(f, p, s, data, i, q)
    ensures Run(f, p, s, data, i).p == q
  {
    assert OpenRun(0, p, i);
  }

  lemma RunHere(f: (Stream, Parser, Byte) -> Outcome, p: Parser, s: Stream, data: seq<Byte>)
    ensures RunsTo(f, p, s, data, |data|, p)
  {
  }

  /** So it does whatever was heard. */
  ghost predicate AlwaysRunsTo(f: (Stream, Parser, Byte) -> Outcome, p: Parser, data: seq<Byte>, i: nat, q: Parser)
    requires i <= |data|
  {
    forall s :: RunsTo(f, p, s, data, i, q)
  }

  lemma RunOn(f: (Stream, Parser, Byte) -> Outcome, p: Parser, s: Stream, data: seq<Byte>, i: nat, o: Outcome,
              q: Parser)
    requires i < |data| && o == f(s, p, data[i]) && !o.leave
    requires if o.p.errno != Ok then q == o.p else AlwaysRunsTo(f, o.p, data, i + 1, q)
    ensures RunsTo(f, p, s, data, i, q)
  {
    if o.p.errno == Ok {
      RunsToIs(f, o.p, Hear(s, p.state, data[i], o), data, i + 1, q);
    }
  }

  // ----- which bytes are data -----

  /** Data is handed over where a byte leaves its states, and begins where a byte enters them; nothing
      else is told while data is pending. */
  ghost predicate Shaped(before: State, o: Outcome) {
    forall x: nat :: HttpModel.Expand(x) ==> Follows(before, o)
  }

  predicate Follows(before: State, o: Outcome) {
    if ReadsBody(before) then
      && o.p.errno == Ok && o.flush == [] && o.mark == [] && Marked(o.p.state) == []
      && (if o.tells == [] then !o.leave && InBody(o.p.state) else !InBody(o.p.state))
    else if o.p.errno != Ok then
      o.flush == [] && (Marked(before) != [] || before == ChunkDataAlmostDone ==> o.tells == [])
    else if o.flush != [] then
      && o.mark == [] && o.tells == [] && !o.leave && Marked(o.p.state) == [] && !ReadsBody(o.p.state)
      && o.p.state != ChunkDataAlmostDone
      && (o.flush == Marked(before) || (before == ChunkDataAlmostDone && o.flush == [Body]))
    else if Marked(before) != [] then Marked(o.p.state) == Marked(before) && o.mark == [] && o.tells == [] && !o.leave
    else && before != ChunkDataAlmostDone
         && o.mark == Marked(o.p.state)
         && o.p.state != ChunkDataAlmostDone
         && (o.leave ==> o.mark == [])
  }

  lemma StartShaped(p: Parser, ch: Byte)
    requires Sound(p) && GroupOf(p.state) == AtStart
    ensures Follows(p.state, StepStart(p, ch))
  {
  }

  lemma StatusLineShaped(p: Parser, ch: Byte)
    requires Sound(p) && GroupOf(p.state) == AtStatusLine
    ensures Follows(p.state, StepStatusLine(p, ch))
  {
  }

  lemma MethodShaped(p: Parser, ch: Byte)
    requires Sound(p) && p.state == ReqMethod
    ensures Follows(p.state, StepMethod(p, ch))
  {
  }

  lemma UrlMarked(s: State, ch: Byte)
    ensures var r := ParseUrlChar(s, ch); r == Dead || (Marked(r) == [Url] && r != ChunkDataAlmostDone)
  {
  }

  lemma UrlStartShaped(p: Parser, ch: Byte)
    requires Sound(p) && p.state == ReqSpacesBeforeUrl
    ensures Follows(p.state, StepUrl(p, ch))
  {
    UrlMarked(if p.meth == Connect then ReqServerStart else ReqSpacesBeforeUrl, ch);
  }

  lemma InUrl(s: State)
    ensures GroupOf(s) == AtUrl && s != ReqSpacesBeforeUrl ==> Marked(s) == [Url] && !ReadsBody(s)
  {
  }

  lemma UrlShaped(p: Parser, ch: Byte)
    requires Sound(p) && GroupOf(p.state) == AtUrl
    ensures Follows(p.state, StepUrl(p, ch))
  {
    if p.state == ReqSpacesBeforeUrl {
      UrlStartShaped(p, ch);
    } else {
      InUrl(p.state);
      UrlMarked(p.state, ch);
    }
  }

  lemma RequestLineShaped(p: Parser, ch: Byte)
    requires Sound(p) && GroupOf(p.state) == AtRequestLine
    ensures Follows(p.state, StepRequestLine(p, ch))
  {
  }

  lemma CompleteShaped(p: Parser, leave: bool)
    requires p.errno == Ok
    ensures var o := Complete(p, leave);
            o.flush == [] && o.mark == [] == Marked(o.p.state) && o.p.state != ChunkDataAlmostDone
  {
  }

  lemma HeadersDoneShaped(p: Parser)
    requires p.errno == Ok
    ensures var o := StepHeadersDone(p);
            && o.flush == []
            && o.mark == []
            && o.p.errno == Ok
            && Marked(o.p.state) == []
            && o.p.state != ChunkDataAlmostDone
  {
    CompleteShaped(p, true);
    CompleteShaped(p, false);
  }

  lemma HeadersEndShaped(p: Parser, ch: Byte, skip: bool)
    requires p.errno == Ok
    ensures var o := StepHeadersAlmostDone(p, ch, skip);
            && o.flush == []
            && o.mark == []
            && (o.p.errno == Ok ==> Marked(o.p.state) == [] && o.p.state != ChunkDataAlmostDone)
  {
    CompleteShaped(p, p.upgrade);
    var q := p.(state := HeadersDone, upgrade := (p.flags.upgrade && p.flags.connectionUpgrade) || p.meth == Connect);
    HeadersDoneShaped(if skip then q.(flags := q.flags.(skipBody := true)) else q);
  }

  lemma FieldStartShaped(p: Parser, ch: Byte, skip: bool)
    requires p.errno == Ok
    ensures var o := StepHeaderFieldStart(p, ch, skip);
            && o.flush == []
            && (o.p.errno == Ok ==>
                  o.mark == Marked(o.p.state) && o.p.state != ChunkDataAlmostDone && (o.leave ==> o.mark == []))
  {
    HeadersEndShaped(p.(state := HeadersAlmostDone), ch, skip);
  }

  lemma ValueStartShaped(p: Parser, ch: Byte)
    requires p.errno == Ok
    ensures var o := StepHeaderValueStart(p, ch);
            o.flush == [] && o.tells == [] && !o.leave && o.mark == [Value] && o.p.state == HeaderValue
  {
  }

  lemma GoShaped(p: Parser, s: State)
    ensures Marked(s) != [] ==> Follows(s, Go(p, s))
  {
  }

  lemma ValueShaped(p: Parser, ch: Byte, skip: bool)
    requires p.errno == Ok && p.state == HeaderValue
    ensures Follows(HeaderValue, StepHeaderValue(p, ch))
  {
    if ch != CR && ch != LF {
      GoShaped(ValueByte(p, ch), HeaderValue);
      assert StepHeaderValue(p, ch) == Go(ValueByte(p, ch), HeaderValue);
    }
  }

  lemma FinishedKeeps(p: Parser)
    ensures Finished(p).errno == p.errno
  {
  }

  lemma NextHeaderShaped(p: Parser, ch: Byte, skip: bool)
    requires p.errno == Ok
    ensures var o := StepNextHeader(p, ch, skip);
            && o.flush == []
            && (o.p.errno == Ok ==>
                  o.mark == Marked(o.p.state) && o.p.state != ChunkDataAlmostDone && (o.leave ==> o.mark == []))
  {
    FinishedKeeps(p);
    FieldStartShaped(Finished(p).(state := HeaderFieldStart), ch, skip);
  }

  lemma FoldShaped(p: Parser, ch: Byte, skip: bool)
    requires p.errno == Ok && p.state == HeaderValueLws
    ensures Follows(p.state, StepValueLine(p, ch, skip))
  {
    FoldIs(p, ch, skip);
    NextHeaderShaped(p, ch, skip);
    ValueStartShaped(p, ch);
  }

  lemma EmptyFoldShaped(p: Parser, ch: Byte, skip: bool)
    requires p.errno == Ok && p.state == HeaderValueDiscardLws
    ensures Follows(p.state, StepValueLine(p, ch, skip))
  {
    EmptyFoldIs(p, ch, skip);
    NextHeaderShaped(p, ch, skip);
  }

  lemma DiscardShaped(p: Parser, ch: Byte, skip: bool)
    requires p.errno == Ok && p.state == HeaderValueDiscardWs
    ensures Follows(p.state, StepValueLine(p, ch, skip))
  {
    DiscardIs(p, ch, skip);
    if ch != SP && ch != HT && ch != CR && ch != LF {
      ValueStartShaped(p, ch);
    }
  }

  lemma ValueLineShaped(p: Parser, ch: Byte, skip: bool)
    requires Sound(p) && GroupOf(p.state) == AtHeader && p.state != HeaderField && p.state != HeaderFieldStart
    requires p.state != HeadersAlmostDone
    ensures Follows(p.state, StepValueLine(p, ch, skip))
  {
    match p.state
    case HeaderValue => ValueShaped(p, ch, skip);
    case HeaderValueLws => FoldShaped(p, ch, skip);
    case HeaderValueDiscardLws => EmptyFoldShaped(p, ch, skip);
    case HeaderValueDiscardWs => DiscardShaped(p, ch, skip);
    case _ =>
  }

  lemma HeaderShaped(p: Parser, ch: Byte, skip: bool)
    requires Sound(p) && GroupOf(p.state) == AtHeader
    ensures Follows(p.state, StepHeader(p, ch, skip))
  {
    HeaderByState(p, ch, skip);
    if p.state == HeaderFieldStart {
      FieldStartShaped(p, ch, skip);
    } else if p.state == HeadersAlmostDone {
      HeadersEndShaped(p, ch, skip);
    } else if p.state != HeaderField {
      ValueLineShaped(p, ch, skip);
    }
  }

  lemma NewMessageState(p: Parser)
    ensures Marked(NewMessage(p)) == [] && !InBody(NewMessage(p))
  {
  }

  lemma CompletedShaped(p: Parser, leave: bool)
    requires p.errno == Ok
    ensures Follows(BodyIdentity, Complete(p, leave))
  {
    NewMessageState(p);
  }

  /** The sizes of chunks. */
  lemma SizeShaped(p: Parser, ch: Byte)
    requires Sound(p)
    requires p.state == ChunkSizeStart || p.state == ChunkSize || p.state == ChunkParameters
    ensures Follows(p.state, StepBody(p, ch))
  {
  }

  lemma ChunkShaped(p: Parser, ch: Byte)
    requires Sound(p)
    requires p.state == ChunkSizeAlmostDone || p.state == ChunkData || p.state == ChunkDataAlmostDone
             || p.state == ChunkDataDone
    ensures Follows(p.state, StepBody(p, ch))
  {
  }

  lemma BodyShaped(p: Parser, ch: Byte)
    requires Sound(p) && GroupOf(p.state) == AtBody
    ensures Follows(p.state, StepBody(p, ch))
  {
    if p.state == BodyIdentity {
      CompletedShaped(p.(contentLength := 0, state := MessageDone), p.upgrade);
    } else if p.state == ChunkSizeStart || p.state == ChunkSize || p.state == ChunkParameters {
      SizeShaped(p, ch);
    } else if p.state != BodyIdentityEof {
      ChunkShaped(p, ch);
    }
  }

  lemma StepShaped(p: Parser, ch: Byte, skip: bool)
    requires WellFormed(p)
    ensures Shaped(p.state, Step(p, ch, skip))
  {
    assert HttpModel.Expand(0);
    match GroupOf(p.state)
    case AtEnd =>
    case AtStart => StartShaped(p, ch);
    case AtStatusLine => StatusLineShaped(p, ch);
    case AtMethod => MethodShaped(p, ch);
    case AtUrl => UrlShaped(p, ch);
    case AtRequestLine => RequestLineShaped(p, ch);
    case AtHeader => HeaderShaped(p, ch, skip);
    case AtBody => BodyShaped(p, ch);
  }

  // ----- streams -----

  /** Data put together in two steps. */
  lemma AddTwice(s: Stream, k: DataKind, a: seq<Byte>, b: seq<Byte>)
    ensures Add(Add(s, Data(k, a)), Data(k, b)) == Add(s, Data(k, a + b))
  {
    if s.Heard? && s.e.Data? && s.e.kind == k {
      assert s.e.bytes + a + b == s.e.bytes + (a + b);
    }
  }

  // ----- runs in pieces -----

  /** A run over two pieces is a run over the first and, unless it stopped, one over the second. */
  lemma {:induction false} RunSplits(f: (Stream, Parser, Byte) -> Outcome, p: Parser, s: Stream, x: seq<Byte>,
                                     y: seq<Byte>, i: nat)
    requires i <= |x|
    ensures var r := Run(f, p, s, x, i);
            Run(f, p, s, x + y, i) == if r.stopped then r else Run(f, r.p, r.s, x + y, |x|)
    decreases |x| - i
  {
    if i < |x| {
      var o := f(s, p, x[i]);
      RunSplits(f, o.p, Hear(s, p.state, x[i], o), x, y, i + 1);
    }
  }

  /** Only what is still to come matters. */
  lemma {:induction false} RunShift(f: (Stream, Parser, Byte) -> Outcome, p: Parser, s: Stream, x: seq<Byte>,
                                    y: seq<Byte>, j: nat)
    requires j <= |y|
    ensures var r, q := Run(f, p, s, y, j), Run(f, p, s, x + y, |x| + j);
            q.p == r.p && q.s == r.s && q.stopped == r.stopped && q.taken == |x| + r.taken
    decreases |y| - j
  {
    if j < |y| {
      var o := f(s, p, y[j]);
      assert (x + y)[|x| + j] == y[j];
      RunShift(f, o.p, Hear(s, p.state, y[j], o), x, y, j + 1);
    }
  }

  /** Fragmentation: a buffer may be cut anywhere. */
  lemma RunInPieces(f: (Stream, Parser, Byte) -> Outcome, p: Parser, s: Stream, x: seq<Byte>, y: seq<Byte>)
    ensures var r := Run(f, p, s, x, 0);
            var q := Run(f, r.p, r.s, y, 0);
            Run(f, p, s, x + y, 0) == if r.stopped then r else q.(taken := |x| + q.taken)
  {
    RunSplits(f, p, s, x, y, 0);
    var r := Run(f, p, s, x, 0);
    RunShift(f, r.p, r.s, x, y, 0);
  }
}
