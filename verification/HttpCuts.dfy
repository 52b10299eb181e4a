/**
 Errors and cuts: data that an error interrupts is never handed over, but for what a cut has already
 made the parser hand over. Which cuts these are is a matter of the bytes that follow.
 */
module HttpCuts {
  import opened Numbers
  import opened HttpModel
  import opened HttpRun
  import opened HttpCalls
  import opened HttpParser
  import opened HttpFragments
  import opened HttpLengths

  // ----- data that an error interrupts -----

  /** A field name in which a byte is neither a token nor the colon that ends it. */
  predicate FieldBreaks(y: seq<Byte>) {
    y != [] && if Token(y[0]) != 0 then FieldBreaks(y[1..]) else !Is(y[0], ':')
  }

  /** A content length, n so far, with a byte that is no digit or a digit that is one too many. */
  predicate LengthBreaks(n: nat, y: seq<Byte>)
    decreases |y|
  {
    && y != [] && y[0] != CR && y[0] != LF
    && if y[0] == SP then LengthBreaks(n, y[1..])
       else !IsNum(y[0]) || DECIMAL_LIMIT < n || LengthBreaks(10 * n + DigitOf(y[0]), y[1..])
  }

  /** A URL with a character that its part does not allow, or that ends in its scheme. */
  predicate UrlBreaks(s: State, y: seq<Byte>)
    decreases |y|
  {
    && y != []
    && if y[0] == SP || y[0] == CR || y[0] == LF then InScheme(s)
       else ParseUrlChar(s, y[0]) == Dead || UrlBreaks(ParseUrlChar(s, y[0]), y[1..])
  }

  /** A chunk with n bytes to come that no carriage return follows. */
  predicate ChunkBreaks(n: nat, y: seq<Byte>) {
    |y| > n && y[n] != CR
  }

  /** The data that p is reading goes wrong in y. Status texts and other header values cannot, and
      neither can bodies that are not chunked. */
  predicate Breaks(p: Parser, y: seq<Byte>) {
    if p.state == HeaderField then FieldBreaks(y)
    else if p.state == HeaderValue then p.headerState == HContentLength && LengthBreaks(p.contentLength, y)
    else if p.state == ChunkData || p.state == ChunkDataAlmostDone then ChunkBreaks(p.contentLength, y)
    else Marked(p.state) == [Url] && UrlBreaks(p.state, y)
  }

  /** What the application heard last goes on. */
  predicate GoesOn(state: State, told: Stream) {
    (Marked(state) != [] && EndsWith(told, Marked(state)[0])) || (InBody(state) && EndsWith(told, Body))
  }

  /** A cut before y shows, p being the parser after what came before y. */
  predicate CutShows(p: Parser, told: Stream, y: seq<Byte>) {
    GoesOn(p.state, told) && Breaks(p, y)
  }

  // ----- one byte of it -----

  predicate InData(s: State) {
    Marked(s) != [] || InBody(s)
  }

  /** Data does not end here. */
  predicate Continues(o: Outcome) {
    o.flush == [] && o.tells == []
  }

  /** Data goes wrong with the first byte of y, whose outcome is o, or goes on and goes wrong after it. */
  predicate BreaksBy(p: Parser, y: seq<Byte>, o: Outcome)
    requires y != []
  {
    Breaks(p, y) <==> o.p.errno != Ok || (Continues(o) && Breaks(o.p, y[1..]))
  }

  lemma FieldStepBreaks(p: Parser, y: seq<Byte>, o: Outcome)
    requires p.errno == Ok && p.state == HeaderField && y != [] && o == StepHeaderField(p, y[0])
    ensures BreaksBy(p, y, o)
  {
    FieldByteStays(p, y[0], Token(y[0]));
  }

  lemma OtherValues(p: Parser, ch: Byte)
    requires p.errno == Ok && p.headerState != HContentLength
    ensures ValueByte(p, ch).errno == Ok && ValueByte(p, ch).headerState != HContentLength
  {
  }

  lemma LengthStepBreaks(p: Parser, y: seq<Byte>, q: Parser)
    requires p.errno == Ok && p.headerState == HContentLength && y != [] && y[0] != CR && y[0] != LF
    requires q == ValueByte(p, y[0])
    ensures LengthBreaks(p.contentLength, y) <==> q.errno != Ok || LengthBreaks(q.contentLength, y[1..])
    ensures q.headerState == HContentLength
  {
    DecimalLimit(p.contentLength);
  }

  lemma ValueStepBreaks(p: Parser, y: seq<Byte>, o: Outcome)
    requires p.errno == Ok && p.state == HeaderValue && y != [] && o == StepHeaderValue(p, y[0])
    ensures BreaksBy(p, y, o)
  {
    if y[0] != CR && y[0] != LF {
      if p.headerState == HContentLength {
        LengthStepBreaks(p, y, ValueByte(p, y[0]));
      } else {
        OtherValues(p, y[0]);
      }
    }
  }

  lemma UrlStepBreaks(p: Parser, y: seq<Byte>, o: Outcome)
    requires p.errno == Ok && Marked(p.state) == [Url] && y != [] && o == StepUrl(p, y[0])
    ensures BreaksBy(p, y, o)
  {
    UrlMarked(p.state, y[0]);
  }

  /** One byte less of a chunk. */
  lemma ChunkGoesOn(p: Parser, y: seq<Byte>, q: Parser)
    requires p.state == ChunkData && (q.state == ChunkData || q.state == ChunkDataAlmostDone) && y != []
    requires 0 < p.contentLength == q.contentLength + 1
    ensures Breaks(p, y) <==> Breaks(q, y[1..])
  {
    ChunkBreaksNext(p.contentLength, y);
  }

  lemma ChunkBreaksNext(n: nat, y: seq<Byte>)
    requires n > 0 && y != []
    ensures ChunkBreaks(n, y) <==> ChunkBreaks(n - 1, y[1..])
  {
  }

  lemma BodyStepBreaks(p: Parser, y: seq<Byte>, o: Outcome)
    requires Sound(p) && InBody(p.state) && y != [] && o == StepBody(p, y[0])
    ensures BreaksBy(p, y, o)
  {
    if p.state == ChunkData {
      ChunkDataStep(p, y[0]);
      ChunkGoesOn(p, y, o.p);
    }
  }

  lemma StatusStepBreaks(p: Parser, y: seq<Byte>, o: Outcome)
    requires p.errno == Ok && p.state == ResStatus && y != [] && o == StepStatusLine(p, y[0])
    ensures BreaksBy(p, y, o)
  {
  }

  lemma UrlGroup(s: State)
    ensures Marked(s) == [Url] ==> GroupOf(s) == AtUrl
  {
  }

  /** The kinds of data, and the part of the parser that reads each. */
  lemma DataGroup(s: State)
    requires InData(s)
    ensures s == HeaderField || s == HeaderValue || s == ResStatus || InBody(s) || Marked(s) == [Url]
    ensures s == ResStatus ==> GroupOf(s) == AtStatusLine
    ensures InBody(s) ==> GroupOf(s) == AtBody
  {
  }

  lemma BodyBreaks(p: Parser, y: seq<Byte>, o: Outcome)
    requires WellFormed(p) && InBody(p.state) && y != [] && o == StepBody(p, y[0])
    ensures BreaksBy(p, y, o)
  {
    assert HttpModel.Expand(0);
    BodyStepBreaks(p, y, o);
  }

  lemma StepBreaks(p: Parser, y: seq<Byte>, skip: bool)
    requires WellFormed(p) && InData(p.state) && y != []
    ensures BreaksBy(p, y, Step(p, y[0], skip))
  {
    var o := Step(p, y[0], skip);
    WellFormedOk(p);
    DataGroup(p.state);
    UrlGroup(p.state);
    StepReads(p, y[0], skip);
    StepByState(p, y[0], skip);
    if p.state == HeaderField {
      FieldStepBreaks(p, y, o);
    } else if p.state == HeaderValue {
      ValueStepBreaks(p, y, o);
    } else if InBody(p.state) {
      BodyBreaks(p, y, o);
    } else if p.state == ResStatus {
      StatusStepBreaks(p, y, o);
    } else {
      UrlStepBreaks(p, y, o);
    }
  }

  // ----- the same bytes in two buffers and in one -----

  /** d is the desk of one buffer, and c that of the rest after a cut where pre was handed over. */
  predicate Cut(d: Desk, c: Desk, pre: seq<Byte>) {
    && pre != [] && d.kind != [] && c.told == Add(d.told, Data(d.kind[0], pre)) && d.bytes == pre + c.bytes
    && (c.kind == d.kind || (c.kind == [] && c.bytes == [] && d.kind == [Body]))
  }

  /** j bytes after the cut: all of them are pending, or the cut does not show. */
  predicate Parted(d: Desk, c: Desk, pre: seq<Byte>, j: nat) {
    if d == c then |c.bytes| <= j else Cut(d, c, pre) && |c.bytes| == j
  }

  // Always true. Mentioning it opens Apart at j.
  ghost predicate OpenAt(x: nat, j: nat) {
    true
  }

  ghost predicate Apart(d: Desk, c: Desk, pre: seq<Byte>, j: nat) {
    forall x: nat :: OpenAt(x, j) ==> Parted(d, c, pre, j)
  }

  lemma CutCloses(d: Desk, c: Desk, pre: seq<Byte>)
    requires Cut(d, c, pre)
    ensures Flushed(d) == Flushed(c)
  {
    AddTwice(d.told, d.kind[0], pre, c.bytes);
    if c.kind == [] {
      assert pre + c.bytes == pre;
    }
  }

  /** A byte of a body, or the last one. */
  lemma BodyApart(d: Desk, c: Desk, pre: seq<Byte>, j: nat, before: State, ch: Byte, o: Outcome)
    requires Cut(d, c, pre) && |c.bytes| == j && ReadsBody(before) && d.kind == [Body] && o.p.errno == Ok
    requires c.kind == [] ==> c.bytes == []
    ensures Parted(Taken(d, before, ch, o), Taken(c, before, ch, o), pre, j + 1)
    ensures o.tells != [] ==> Taken(d, before, ch, o) == Taken(c, before, ch, o)
  {
    CutCloses(d, c, pre);
    assert pre + (c.bytes + [ch]) == d.bytes + [ch];
    if o.tells != [] {
      Grows(d, Body, ch);
      Grows(c, Body, ch);
    }
  }

  /** A byte of other data, or the end of the data. */
  lemma DataApart(d: Desk, c: Desk, pre: seq<Byte>, j: nat, before: State, ch: Byte, o: Outcome)
    requires Cut(d, c, pre) && |c.bytes| == j && !ReadsBody(before) && o.p.errno == Ok
    requires o.flush == [] ==> c.kind == d.kind
    ensures Parted(Taken(d, before, ch, o), Taken(c, before, ch, o), pre, j + 1)
    ensures o.flush != [] ==> Taken(d, before, ch, o) == Taken(c, before, ch, o)
  {
    CutCloses(d, c, pre);
    assert pre + (c.bytes + [ch]) == d.bytes + [ch];
  }

  lemma PendsKind(before: State, d: Desk, o: Outcome)
    requires Pends(before, d) && Follows(before, o) && o.p.errno == Ok && d.kind != []
    ensures ReadsBody(before) ==> d.kind == [Body] && (o.leave ==> o.tells != [])
    ensures !ReadsBody(before) ==> (d.kind == [Body] ==> o.flush != []) && (o.leave ==> o.flush != [])
  {
  }

  lemma ByteApart(d: Desk, c: Desk, pre: seq<Byte>, j: nat, before: State, ch: Byte, o: Outcome)
    requires Apart(d, c, pre, j) && Pends(before, d) && Pends(before, c) && Follows(before, o)
    ensures Apart(Taken(d, before, ch, o), Taken(c, before, ch, o), pre, if o.p.errno == Ok then j + 1 else j)
    ensures o.p.errno == Ok && o.leave ==> Taken(d, before, ch, o) == Taken(c, before, ch, o)
  {
    assert OpenAt(0, j);
    if d != c && o.p.errno == Ok {
      PendsKind(before, d, o);
      if ReadsBody(before) {
        BodyApart(d, c, pre, j, before, ch, o);
      } else {
        DataApart(d, c, pre, j, before, ch, o);
      }
    } else if d != c {
      FailedApart(d, c, pre, j, before, ch, o);
    }
  }

  lemma FailedApart(d: Desk, c: Desk, pre: seq<Byte>, j: nat, before: State, ch: Byte, o: Outcome)
    requires Cut(d, c, pre) && |c.bytes| == j && o.p.errno != Ok && o.tells == []
    ensures Parted(Taken(d, before, ch, o), Taken(c, before, ch, o), pre, j)
  {
  }

  lemma ApartFlushed(d: Desk, c: Desk, pre: seq<Byte>, j: nat)
    requires Apart(d, c, pre, j)
    ensures Flushed(d) == Flushed(c)
  {
    assert OpenAt(0, j);
    if d != c {
      CutCloses(d, c, pre);
    }
  }

  /** Two calls end in the same way, the first with n bytes more in its buffer. */
  ghost predicate PairedEnds(r: End, q: End, pre: seq<Byte>, n: nat) {
    && q.p == r.p && q.stopped == r.stopped && r.taken == n + q.taken
    && if r.p.errno == Ok then r.d == q.d else Apart(r.d, q.d, pre, q.taken)
  }

  /** The rest of buffer w, from byte n + j on, and the same bytes in a buffer of their own. */
  ghost predicate Paired(f: Steps, p: Parser, d: Desk, c: Desk, pre: seq<Byte>, w: seq<Byte>, n: nat, y: seq<Byte>,
                           j: nat)
    requires |w| == n + |y| && j <= |y|
  {
    forall x: nat :: Open(x, p, j) ==> PairedEnds(Call(f, p, d, w, n + j), Call(f, p, c, y, j), pre, n)
  }

  lemma PairedAtEnd(f: Steps, p: Parser, d: Desk, c: Desk, pre: seq<Byte>, w: seq<Byte>, n: nat, y: seq<Byte>)
    requires |w| == n + |y| && p.errno == Ok && Flushed(d) == Flushed(c)
    ensures Paired(f, p, d, c, pre, w, n, y, |y|)
  {
  }

  /** What one byte makes of this; d1 and c1 are the desks after it. */
  lemma PairedNext(f: Steps, p: Parser, d: Desk, c: Desk, pre: seq<Byte>, w: seq<Byte>, n: nat, y: seq<Byte>, j: nat,
                  o: Outcome, d1: Desk, c1: Desk)
    requires |w| == n + |y| && j < |y| && w[n + j] == y[j] && Flushed(d) == Flushed(c) && o == f(Flushed(d), p, y[j])
    requires d1 == Taken(d, p.state, y[j], o) && c1 == Taken(c, p.state, y[j], o)
    requires if o.p.errno != Ok then Apart(d1, c1, pre, j)
             else if o.leave then d1 == c1
             else Paired(f, o.p, d1, c1, pre, w, n, y, j + 1)
    ensures Paired(f, p, d, c, pre, w, n, y, j)
  {
    assert Open(0, o.p, j + 1);
  }

  /** Both calls read the same bytes alike. */
  lemma {:induction false} CallsApart(f: Steps, p: Parser, d: Desk, c: Desk, pre: seq<Byte>, w: seq<Byte>, n: nat,
                                      y: seq<Byte>, j: nat)
    requires Orderly(f) && WellFormed(p) && Pends(p.state, d) && Pends(p.state, c) && Apart(d, c, pre, j) && j <= |y|
    requires |w| == n + |y| && forall k :: 0 <= k < |y| ==> w[n + k] == y[k]
    ensures Paired(f, p, d, c, pre, w, n, y, j)
    decreases |y| - j
  {
    ApartFlushed(d, c, pre, j);
    if j == |y| {
      WellFormedOk(p);
      PairedAtEnd(f, p, d, c, pre, w, n, y);
    } else {
      var o, d1, c1 := ByteTaken(f, p, d, c, pre, y[j], j);
      if o.p.errno == Ok && !o.leave {
        CallsApart(f, o.p, d1, c1, pre, w, n, y, j + 1);
      }
      PairedNext(f, p, d, c, pre, w, n, y, j, o, d1, c1);
    }
  }

  /** One byte, with both desks. */
  lemma ByteTaken(f: Steps, p: Parser, d: Desk, c: Desk, pre: seq<Byte>, ch: Byte, j: nat)
    returns (o: Outcome, d1: Desk, c1: Desk)
    requires Orderly(f) && WellFormed(p) && Pends(p.state, d) && Pends(p.state, c) && Apart(d, c, pre, j)
    ensures o == f(Flushed(d), p, ch) && d1 == Taken(d, p.state, ch, o) && c1 == Taken(c, p.state, ch, o)
    ensures Apart(d1, c1, pre, if o.p.errno == Ok then j + 1 else j)
    ensures o.p.errno == Ok ==>
              WellFormed(o.p) && Pends(o.p.state, d1) && Pends(o.p.state, c1) && (o.leave ==> d1 == c1)
  {
    o := f(Flushed(d), p, ch);
    d1, c1 := Taken(d, p.state, ch, o), Taken(c, p.state, ch, o);
    Steady(f, Flushed(d), p, ch);
    ByteApart(d, c, pre, j, p.state, ch, o);
    if o.p.errno == Ok {
      TakenPends(d, p.state, ch, o);
      TakenPends(c, p.state, ch, o);
    }
  }

  /** The desk at byte n, before the end of the buffer clears it. */
  function DeskAt(f: Steps, p: Parser, d: Desk, data: seq<Byte>, i: nat): (r: Desk)
    requires i <= |data|
    decreases |data| - i
  {
    if i == |data| then d
    else
      var o := f(Flushed(d), p, data[i]);
      DeskAt(f, o.p, Taken(d, p.state, data[i], o), data, i + 1)
  }

  lemma {:induction false} TakenGrows(d: Desk, before: State, ch: Byte, o: Outcome)
    requires Pends(before, d) && Follows(before, o) && o.p.errno == Ok
    ensures var e := Taken(d, before, ch, o); |e.bytes| <= |d.bytes| + 1 && (e.kind != [] ==> e.bytes != [])
  {
  }

  lemma {:induction false} DeskGrows(f: Steps, p: Parser, d: Desk, x: seq<Byte>, i: nat)
    requires Orderly(f) && WellFormed(p) && Pends(p.state, d) && i <= |x| && !Call(f, p, d, x, i).stopped
    ensures var q := DeskAt(f, p, d, x, i);
            |q.bytes| <= |d.bytes| + |x| - i && ((i < |x| || d.bytes != []) && q.kind != [] ==> q.bytes != [])
    decreases |x| - i
  {
    if i < |x| {
      var o := f(Flushed(d), p, x[i]);
      Steady(f, Flushed(d), p, x[i]);
      TakenPends(d, p.state, x[i], o);
      TakenGrows(d, p.state, x[i], o);
      DeskGrows(f, o.p, Taken(d, p.state, x[i], o), x, i + 1);
    }
  }

  /** A buffer that goes on after x. */
  lemma {:induction false} CallGoesOn(f: Steps, p: Parser, d: Desk, x: seq<Byte>, y: seq<Byte>, i: nat)
    requires Orderly(f) && WellFormed(p) && Pends(p.state, d) && i <= |x|
    ensures var e, q := Call(f, p, d, x, i), DeskAt(f, p, d, x, i);
            if e.stopped then Call(f, p, d, x + y, i) == e
            else Call(f, p, d, x + y, i) == Call(f, e.p, q, x + y, |x|) && e.d.told == Flushed(q) && Pends(e.p.state, q)
    decreases |x| - i
  {
    if i < |x| {
      assert (x + y)[i] == x[i];
      var o := f(Flushed(d), p, x[i]);
      Steady(f, Flushed(d), p, x[i]);
      if o.p.errno == Ok {
        TakenPends(d, p.state, x[i], o);
        if !o.leave {
          CallGoesOn(f, o.p, Taken(d, p.state, x[i], o), x, y, i + 1);
        }
      }
    }
  }

  /** At a cut the data so far is handed over. */
  lemma OpenedApart(p: Parser, q: Desk)
    requires Pends(p.state, q) && (q.kind != [] ==> q.bytes != [])
    ensures Apart(q, Opened(p, Flushed(q)), q.bytes, 0)
  {
    if q.kind != [] {
      assert q.bytes + [] == q.bytes;
    }
  }

  /** The bytes of data that the application was told of. */
  function Weight(s: Stream): (n: nat) {
    match s case Silence => 0 case Heard(past, e) => Weight(past) + if e.Data? then |e.bytes| else 0
  }

  lemma AddWeight(s: Stream, k: DataKind, b: seq<Byte>)
    ensures Weight(Add(s, Data(k, b))) == Weight(s) + |b|
  {
  }

  lemma LossWeighs(d: Desk, c: Desk, pre: seq<Byte>, j: nat)
    requires Apart(d, c, pre, j)
    ensures if |d.bytes| <= j then c.told == d.told else Weight(c.told) > Weight(d.told)
  {
    assert OpenAt(0, j);
    if d != c {
      AddWeight(d.told, d.kind[0], pre);
    }
  }

  // ----- what an error loses -----

  type Broken = (Parser, seq<Byte>) -> bool

  ghost predicate BreaksAt(f: Steps, broken: Broken, s: Stream, p: Parser, y: seq<Byte>) {
    if y == [] then !broken(p, y)
    else
      WellFormed(p) && InData(p.state) ==>
        var o := f(s, p, y[0]);
        broken(p, y) <==> o.p.errno != Ok || (Continues(o) && broken(o.p, y[1..]))
  }

  /** The data that f is reading goes wrong in the bytes that are broken. */
  ghost predicate BreaksData(f: Steps, broken: Broken) {
    forall s, p, y :: BreaksAt(f, broken, s, p, y)
  }

  /** Some of the pending data that an error loses came before byte n. */
  predicate Loses(e: End, n: nat) {
    e.p.errno != Ok && |e.d.bytes| > e.taken - n
  }

  /** The desk after a byte that is no error. */
  lemma TakenParts(d: Desk, before: State, ch: Byte, o: Outcome, j: nat)
    requires Pends(before, d) && Follows(before, o) && o.p.errno == Ok
    ensures |d.bytes| > j ==> InData(before)
    ensures |Taken(d, before, ch, o).bytes| > j + 1 <==> |d.bytes| > j && Continues(o)
    ensures o.leave && InData(before) ==> !Continues(o)
  {
  }

  /** At byte i data is pending that came before byte n, and the bytes from i on break it. */
  ghost predicate Doomed(broken: Broken, p: Parser, d: Desk, w: seq<Byte>, n: nat, i: nat)
    requires n <= i <= |w|
  {
    forall x: nat :: Open(x, p, i) ==> |d.bytes| > i - n && broken(p, w[i..])
  }

  /** The parser and the desk, for byte i. */
  ghost predicate Reading(p: Parser, d: Desk, i: nat) {
    forall x: nat :: Open(x, p, i) ==> WellFormed(p) && Pends(p.state, d)
  }

  /** What byte i of a buffer makes of the desk. */
  ghost predicate Moves(f: Steps, p: Parser, d: Desk, ch: Byte, i: nat, o: Outcome, e: Desk) {
    forall x: nat :: Open(x, p, i) ==> o == f(Flushed(d), p, ch) && e == Taken(d, p.state, ch, o)
  }

  /** This stays the same until the data ends or breaks. */
  lemma BreakStep(f: Steps, broken: Broken, p: Parser, d: Desk, w: seq<Byte>, n: nat, i: nat)
    returns (o: Outcome, e: Desk)
    requires Orderly(f) && BreaksData(f, broken) && Reading(p, d, i) && n <= i < |w|
    ensures Moves(f, p, d, w[i], i, o, e)
    ensures o.p.errno != Ok ==> (Doomed(broken, p, d, w, n, i) <==> |d.bytes| > i - n)
    ensures o.p.errno == Ok ==>
              && Reading(o.p, e, i + 1)
              && (Doomed(broken, p, d, w, n, i) <==> Doomed(broken, o.p, e, w, n, i + 1))
              && (o.leave ==> !Doomed(broken, p, d, w, n, i))
  {
    o := f(Flushed(d), p, w[i]);
    e := Taken(d, p.state, w[i], o);
    assert Open(0, p, i) && Open(0, o.p, i + 1);
    assert BreaksAt(f, broken, Flushed(d), p, w[i..]);
    assert w[i..][0] == w[i] && w[i..][1..] == w[i + 1..];
    Steady(f, Flushed(d), p, w[i]);
    PendsInData(p.state, d);
    if o.p.errno == Ok {
      TakenPends(d, p.state, w[i], o);
      TakenParts(d, p.state, w[i], o, i - n);
    }
  }

  lemma NoneBroken(f: Steps, broken: Broken, p: Parser, d: Desk, w: seq<Byte>, n: nat)
    requires BreaksData(f, broken) && Reading(p, d, |w|) && n <= |w|
    ensures p.errno == Ok && !Doomed(broken, p, d, w, n, |w|)
  {
    assert Open(0, p, |w|) && BreaksAt(f, broken, Silence, p, w[|w|..]);
    WellFormedOk(p);
  }

  /** Whether the call from byte i on loses data that came before byte n. */
  ghost predicate LossIs(f: Steps, p: Parser, d: Desk, data: seq<Byte>, i: nat, n: nat, lost: bool)
    requires i <= |data|
  {
    forall x: nat :: Open(x, p, i) ==> Loses(Call(f, p, d, data, i), n) == lost
  }

  lemma LossNext(f: Steps, p: Parser, d: Desk, data: seq<Byte>, i: nat, o: Outcome, e: Desk, n: nat, lost: bool)
    requires i < |data| && Moves(f, p, d, data[i], i, o, e)
    requires if o.p.errno != Ok then lost == (|d.bytes| > i - n)
             else if o.leave then !lost
             else LossIs(f, o.p, e, data, i + 1, n, lost)
    ensures LossIs(f, p, d, data, i, n, lost)
  {
    assert Open(0, p, i);
    if o.p.errno == Ok && !o.leave {
      assert Open(0, o.p, i + 1);
    }
  }

  lemma LossAtEnd(f: Steps, p: Parser, d: Desk, data: seq<Byte>, n: nat)
    requires p.errno == Ok
    ensures LossIs(f, p, d, data, |data|, n, false)
  {
  }

  /** Data that is pending at byte i is lost exactly if an error breaks it. */
  lemma {:induction false} LossIsBreak(f: Steps, broken: Broken, p: Parser, d: Desk, w: seq<Byte>, n: nat, i: nat)
    requires Orderly(f) && BreaksData(f, broken) && Reading(p, d, i) && n <= i <= |w|
    ensures LossIs(f, p, d, w, i, n, Doomed(broken, p, d, w, n, i))
    decreases |w| - i
  {
    if i == |w| {
      NoneBroken(f, broken, p, d, w, n);
      LossAtEnd(f, p, d, w, n);
    } else {
      var o, e := BreakStep(f, broken, p, d, w, n, i);
      if o.p.errno == Ok && !o.leave {
        LossIsBreak(f, broken, o.p, e, w, n, i + 1);
      }
      LossNext(f, p, d, w, i, o, e, n, Doomed(broken, p, d, w, n, i));
    }
  }

  lemma PendsInData(state: State, d: Desk)
    requires Pends(state, d)
    ensures |d.bytes| > 0 ==> InData(state)
  {
  }

  // ----- what is pending at a cut -----

  /** The data of a chunk begins with its header. */
  ghost predicate OpensAt(f: Steps, s: Stream, p: Parser, ch: Byte) {
    var o := f(s, p, ch);
    WellFormed(p) && o.p.errno == Ok && o.p.state == ChunkData && p.state != ChunkData ==>
      o.tells == [OnChunkHeader(p.contentLength)]
  }

  ghost predicate OpensChunks(f: Steps) {
    forall s, p, ch :: OpensAt(f, s, p, ch)
  }

  /** Nothing is pending in a chunk before its first byte. */
  predicate Settled(state: State, d: Desk) {
    (state == ChunkData || state == ChunkDataAlmostDone) && d.kind == [] ==> !EndsWith(d.told, Body)
  }

  lemma TakenSettles(d: Desk, before: State, ch: Byte, o: Outcome, n: UInt64)
    requires Pends(before, d) && Follows(before, o) && o.p.errno == Ok
    requires o.p.state == ChunkData && before != ChunkData ==> o.tells == [OnChunkHeader(n)]
    ensures Settled(o.p.state, Taken(d, before, ch, o))
  {
    TellOne(d.told, OnChunkHeader(n));
  }

  lemma {:induction false} CallSettles(f: Steps, p: Parser, d: Desk, x: seq<Byte>, i: nat)
    requires Orderly(f) && OpensChunks(f) && WellFormed(p) && Pends(p.state, d) && i <= |x|
    requires (i < |x| || Settled(p.state, d))
    ensures var e := Call(f, p, d, x, i); !e.stopped ==> Settled(e.p.state, DeskAt(f, p, d, x, i))
    decreases |x| - i
  {
    if i < |x| {
      var o := f(Flushed(d), p, x[i]);
      Steady(f, Flushed(d), p, x[i]);
      assert OpensAt(f, Flushed(d), p, x[i]);
      if o.p.errno == Ok && !o.leave {
        TakenPends(d, p.state, x[i], o);
        TakenSettles(d, p.state, x[i], o, p.contentLength);
        CallSettles(f, o.p, Taken(d, p.state, x[i], o), x, i + 1);
      }
    }
  }

  /** Whether data is pending can be told from what the application heard last. */
  lemma PendingGoesOn(p: Parser, q: Desk, y: seq<Byte>)
    requires Pends(p.state, q) && Settled(p.state, q) && (q.kind != [] ==> q.bytes != [])
    ensures CutShows(p, Flushed(q), y) <==> q.kind != [] && Breaks(p, y)
  {
  }

  // ----- one cut -----

  /** A buffer that goes on with y where q is pending, and y in a buffer of its own. */
  lemma LossIsHeard(f: Steps, p: Parser, q: Desk, x: seq<Byte>, y: seq<Byte>)
    requires Orderly(f) && WellFormed(p) && Pends(p.state, q) && (q.kind != [] ==> q.bytes != [])
    ensures var whole, c := Call(f, p, q, x + y, |x|), Call(f, p, Opened(p, Flushed(q)), y, 0);
            if Loses(whole, |x|) then Weight(c.d.told) > Weight(whole.d.told) else c.d.told == whole.d.told
  {
    FlushedEnds(p.state, q);
    OpenedPends(p, Flushed(q));
    OpenedApart(p, q);
    CallsApart(f, p, q, Opened(p, Flushed(q)), q.bytes, x + y, |x|, y, 0);
    assert Open(0, p, 0);
    var whole, c := Call(f, p, q, x + y, |x|), Call(f, p, Opened(p, Flushed(q)), y, 0);
    if whole.p.errno != Ok {
      LossWeighs(whole.d, c.d, q.bytes, c.taken);
    }
  }

  /** All of y is still to come. */
  lemma DoomedAtCut(broken: Broken, p: Parser, q: Desk, x: seq<Byte>, y: seq<Byte>)
    ensures Doomed(broken, p, q, x + y, |x|, |x|) <==> q.bytes != [] && broken(p, y)
    ensures WellFormed(p) && Pends(p.state, q) ==> Reading(p, q, |x|)
  {
    assert (x + y)[|x|..] == y && Open(0, p, |x|);
  }

  /** Data that is pending at the end of x is lost exactly if an error in y breaks it. */
  lemma PendingLost(f: Steps, broken: Broken, p: Parser, q: Desk, x: seq<Byte>, y: seq<Byte>)
    requires Orderly(f) && BreaksData(f, broken) && WellFormed(p) && Pends(p.state, q)
    ensures LossIs(f, p, q, x + y, |x|, |x|, q.bytes != [] && broken(p, y))
  {
    DoomedAtCut(broken, p, q, x, y);
    LossIsBreak(f, broken, p, q, x + y, |x|, |x|);
  }

  lemma CutLoses(f: Steps, p: Parser, q: Desk, x: seq<Byte>, y: seq<Byte>)
    requires Orderly(f) && BreaksData(f, Breaks) && WellFormed(p) && Pends(p.state, q) && Settled(p.state, q)
    requires q.kind != [] ==> q.bytes != []
    ensures LossIs(f, p, q, x + y, |x|, |x|, CutShows(p, Flushed(q), y))
  {
    PendingGoesOn(p, q, y);
    PendingLost(f, Breaks, p, q, x, y);
  }

  lemma CutWeighs(f: Steps, p: Parser, q: Desk, x: seq<Byte>, y: seq<Byte>)
    requires Orderly(f) && BreaksData(f, Breaks) && WellFormed(p) && Pends(p.state, q) && Settled(p.state, q)
    requires q.kind != [] ==> q.bytes != []
    ensures var whole, c := Call(f, p, q, x + y, |x|), Call(f, p, Opened(p, Flushed(q)), y, 0);
            if CutShows(p, Flushed(q), y) then Weight(c.d.told) > Weight(whole.d.told) else c.d.told == whole.d.told
  {
    LossIsHeard(f, p, q, x, y);
    CutLoses(f, p, q, x, y);
    assert Open(0, p, |x|);
  }

  lemma CutCallWeighs(f: Steps, p: Parser, told: Stream, x: seq<Byte>, y: seq<Byte>)
    requires Orderly(f) && BreaksData(f, Breaks) && OpensChunks(f) && WellFormed(p) && Ends(p.state, told) && x != []
    ensures var e, whole := Call(f, p, Opened(p, told), x, 0), Call(f, p, Opened(p, told), x + y, 0);
            if e.stopped then whole == e
            else
              var c := Call(f, e.p, Opened(e.p, e.d.told), y, 0);
              if CutShows(e.p, e.d.told, y) then Weight(c.d.told) > Weight(whole.d.told) else c.d.told == whole.d.told
  {
    var d := Opened(p, told);
    OpenedPends(p, told);
    CallGoesOn(f, p, d, x, y, 0);
    var e := Call(f, p, d, x, 0);
    if !e.stopped {
      DeskGrows(f, p, d, x, 0);
      CallSettles(f, p, d, x, 0);
      CallFromStart(f, p, told, x);
      CutWeighs(f, e.p, DeskAt(f, p, d, x, 0), x, y);
    }
  }

  lemma CutWeighsCalled(f: Steps, p: Parser, told: Stream, x: seq<Byte>, y: seq<Byte>)
    requires Orderly(f) && BreaksData(f, Breaks) && OpensChunks(f) && WellFormed(p) && Ends(p.state, told) && x != []
    requires y != []
    ensures var e, whole := Called(f, p, told, x), Called(f, p, told, x + y);
            if e.stopped then whole == e
            else
              var c := Called(f, e.p, e.d.told, y);
              if CutShows(e.p, e.d.told, y) then Weight(c.d.told) > Weight(whole.d.told) else c.d.told == whole.d.told
  {
    WellFormedOk(p);
    CalledIs(f, p, told, x);
    CalledIs(f, p, told, x + y);
    CutCallWeighs(f, p, told, x, y);
    CallFromStart(f, p, told, x);
    var e := Called(f, p, told, x);
    if !e.stopped {
      WellFormedOk(e.p);
      CalledIs(f, e.p, e.d.told, y);
    }
  }

  // ----- any number of cuts -----

  /** Some cut shows, of those that the parser comes to. */
  predicate SomeCutShows(f: Steps, p: Parser, told: Stream, pieces: seq<seq<Byte>>)
    decreases |pieces|
  {
    |pieces| > 1 &&
    var e := Called(f, p, told, pieces[0]);
    !e.stopped && (CutShows(e.p, e.d.told, Whole(pieces[1..])) || SomeCutShows(f, e.p, e.d.told, pieces[1..]))
  }

  lemma {:induction false} CutsWeigh(f: Steps, p: Parser, told: Stream, pieces: seq<seq<Byte>>)
    requires Orderly(f) && BreaksData(f, Breaks) && OpensChunks(f) && WellFormed(p) && Ends(p.state, told)
    requires pieces != []
    requires forall i :: 0 <= i < |pieces| ==> pieces[i] != []
    ensures var c, whole := CalledAll(f, p, told, pieces).d.told, Called(f, p, told, Whole(pieces)).d.told;
            if SomeCutShows(f, p, told, pieces) then Weight(c) > Weight(whole) else c == whole
    decreases |pieces|
  {
    var x, rest := pieces[0], pieces[1..];
    CalledAllStep(f, p, told, pieces);
    var e := Called(f, p, told, x);
    if |pieces| == 1 {
      assert pieces == [x] && x + Whole(rest) == x;
      assert CalledAll(f, e.p, e.d.told, rest) == End(e.p, Desk(e.d.told, [], []), 0, e.p.errno != Ok);
    } else {
      assert rest[0] == pieces[1];
      CutWeighsCalled(f, p, told, x, Whole(rest));
      if !e.stopped {
        CutAnywhere(f, p, told, x, Whole(rest));
        CutsWeigh(f, e.p, e.d.told, rest);
      }
    }
  }

  // ----- the parser's machine -----

  lemma NoBreakAtEnd(p: Parser)
    ensures !Breaks(p, [])
  {
  }

  lemma MachineBreaks(f: Steps, answer: Answer)
    requires IsMachine(f, answer)
    ensures BreaksData(f, Breaks)
  {
    forall s, p, y ensures BreaksAt(f, Breaks, s, p, y) {
      NoBreakAtEnd(p);
      if WellFormed(p) && InData(p.state) && y != [] {
        AtByte(f, answer, s, p, y[0]);
        StepBreaks(p, y, answer(s, p));
      }
    }
  }

  lemma StatusLineOpens(p: Parser, ch: Byte)
    requires p.state != ChunkData
    ensures StepStatusLine(p, ch).p.state != ChunkData
  {
  }

  lemma RequestLineOpens(p: Parser, ch: Byte)
    requires p.state != ChunkData
    ensures StepRequestLine(p, ch).p.state != ChunkData
  {
  }

  lemma MethodOpens(p: Parser, ch: Byte)
    requires p.state != ChunkData
    ensures StepMethod(p, ch).p.state != ChunkData
  {
  }

  lemma StartOpens(p: Parser, ch: Byte)
    ensures var s := StepStart(p, ch).p.state; s == p.state || s != ChunkData
  {
  }

  lemma UrlOpens(p: Parser, ch: Byte)
    ensures var s := StepUrl(p, ch).p.state; s == p.state || s != ChunkData
  {
    UrlStates(p.state, ch);
    UrlStates(if p.meth == Connect then ReqServerStart else ReqSpacesBeforeUrl, ch);
  }

  lemma CompleteOpens(p: Parser, leave: bool)
    ensures Complete(p, leave).p.state != ChunkData
  {
  }

  lemma HeadersEndOpens(p: Parser, ch: Byte, skip: bool)
    ensures var s := StepHeadersAlmostDone(p, ch, skip).p.state; s == p.state || s != ChunkData
  {
  }

  lemma FieldStartOpens(p: Parser, ch: Byte, skip: bool)
    ensures var s := StepHeaderFieldStart(p, ch, skip).p.state; s == p.state || s != ChunkData
  {
    HeadersEndOpens(p.(state := HeadersAlmostDone), ch, skip);
  }

  lemma ValueStartOpens(p: Parser, ch: Byte)
    ensures StepHeaderValueStart(p, ch).p.state == HeaderValue
  {
  }

  lemma NextHeaderOpens(p: Parser, ch: Byte, skip: bool)
    ensures StepNextHeader(p, ch, skip).p.state != ChunkData
  {
    FieldStartOpens(Finished(p).(state := HeaderFieldStart), ch, skip);
  }

  lemma ValueLineOpens(p: Parser, ch: Byte, skip: bool, o: Outcome)
    requires p.state in {HeaderValueLws, HeaderValueDiscardLws, HeaderValueDiscardWs,
                         HeaderAlmostDone, HeaderValueDiscardWsAlmostDone}
    requires o == StepValueLine(p, ch, skip)
    ensures o.p.state != ChunkData
  {
    if p.state == HeaderValueLws {
      FoldOpens(p, ch, skip);
    } else if p.state == HeaderValueDiscardLws {
      EmptyFoldOpens(p, ch, skip);
    } else if p.state == HeaderValueDiscardWs {
      DiscardOpens(p, ch, skip);
    } else {
      LineEndStep(p, ch, skip);
    }
  }

  lemma FoldOpens(p: Parser, ch: Byte, skip: bool)
    requires p.state == HeaderValueLws
    ensures StepValueLine(p, ch, skip).p.state != ChunkData
  {
    FoldIs(p, ch, skip);
    ValueStartOpens(p, ch);
    NextHeaderOpens(p, ch, skip);
  }

  lemma EmptyFoldOpens(p: Parser, ch: Byte, skip: bool)
    requires p.state == HeaderValueDiscardLws
    ensures StepValueLine(p, ch, skip).p.state != ChunkData
  {
    EmptyFoldIs(p, ch, skip);
    NextHeaderOpens(p, ch, skip);
  }

  lemma DiscardOpens(p: Parser, ch: Byte, skip: bool)
    requires p.state == HeaderValueDiscardWs
    ensures StepValueLine(p, ch, skip).p.state != ChunkData
  {
    DiscardIs(p, ch, skip);
    ValueStartOpens(p, ch);
  }

  lemma HeaderOpens(p: Parser, ch: Byte, skip: bool)
    requires Sound(p) && GroupOf(p.state) == AtHeader
    ensures StepHeader(p, ch, skip).p.state != ChunkData
  {
    HeaderByState(p, ch, skip);
    if p.state == HeaderFieldStart {
      FieldStartOpens(p, ch, skip);
    } else if p.state == HeadersAlmostDone {
      HeadersEndOpens(p, ch, skip);
    } else if p.state != HeaderField && p.state != HeaderValue {
      ValueLineOpens(p, ch, skip, StepHeader(p, ch, skip));
    }
  }

  lemma BodyOpens(p: Parser, ch: Byte)
    requires GroupOf(p.state) == AtBody
    ensures var o := StepBody(p, ch);
            o.p.errno == Ok && o.p.state == ChunkData && p.state != ChunkData ==>
              o.tells == [OnChunkHeader(p.contentLength)]
  {
    if p.state == BodyIdentity {
      CompleteOpens(p.(contentLength := 0, state := MessageDone), p.upgrade);
    } else if p.state == MessageDone {
      CompleteOpens(p, p.upgrade);
    }
  }

  lemma StepOpens(p: Parser, ch: Byte, skip: bool)
    requires Sound(p)
    ensures var o := Step(p, ch, skip);
            o.p.errno == Ok && o.p.state == ChunkData && p.state != ChunkData ==>
              o.tells == [OnChunkHeader(p.contentLength)]
  {
    StepByState(p, ch, skip);
    var g := GroupOf(p.state);
    if g == AtStart {
      StartOpens(p, ch);
    } else if g == AtStatusLine {
      StatusLineOpens(p, ch);
    } else if g == AtMethod {
      MethodOpens(p, ch);
    } else if g == AtRequestLine {
      RequestLineOpens(p, ch);
    } else if g == AtUrl {
      UrlOpens(p, ch);
    } else if g == AtHeader {
      HeaderOpens(p, ch, skip);
    } else if g == AtBody {
      BodyOpens(p, ch);
    }
  }

  lemma MachineOpens(f: Steps, answer: Answer)
    requires IsMachine(f, answer)
    ensures OpensChunks(f)
  {
    forall s, p, ch ensures OpensAt(f, s, p, ch) {
      if WellFormed(p) {
        assert HttpModel.Expand(0);
        AtByte(f, answer, s, p, ch);
        StepOpens(p, ch, answer(s, p));
      }
    }
  }

  /** However a stream of bytes is cut into buffers, the application hears the same, unless a cut falls
      in data, or at its end, that the bytes after the cut break: then, and only then, it hears more. */
  lemma FragmentationAtError(f: Steps, answer: Answer, p: Parser, told: Stream, pieces: seq<seq<Byte>>)
    requires f == Machine(answer) && WellFormed(p) && Ends(p.state, told) && pieces != []
    requires forall i :: 0 <= i < |pieces| ==> pieces[i] != []
    ensures var c, whole := CalledAll(f, p, told, pieces).d.told, Called(f, p, told, Whole(pieces)).d.told;
            if SomeCutShows(f, p, told, pieces) then Weight(c) > Weight(whole) else c == whole
  {
    MachineIs(answer);
    MachineIsOrderly(f, answer);
    MachineBreaks(f, answer);
    MachineOpens(f, answer);
    CutsWeigh(f, p, told, pieces);
  }

  // ----- an error that a cut shows -----

  /** A request whose URL goes wrong at its third character. */
  const REQUEST: seq<Byte> := [0x47, 0x45, 0x54, 0x20, 0x2F, 0x61]  // GET /a

  function NewParser(typ: ParserType): (p: Parser) {
    Parser(typ, NO_FLAGS, match typ case Request => StartReq case Response => StartRes case Both => StartReqOrRes,
           HGeneral, 0, 0, 0, 0, 0, Delete, Ok, false)
  }

  lemma OneByte(f: Steps, p: Parser, d: Desk, data: seq<Byte>, i: nat, o: Outcome, e: Desk)
    requires i < |data| && o == f(Flushed(d), p, data[i]) && o.p.errno == Ok && !o.leave
    requires e == Taken(d, p.state, data[i], o)
    ensures Call(f, p, d, data, i) == Call(f, o.p, e, data, i + 1)
  {
  }

  /** The parser after GET and, if it has read a path, in it. */
  function Getting(s: State, index: nat): (p: Parser) {
    NewParser(Request).(state := s, meth := Get, index := index, contentLength := ULLONG_MAX)
  }

  lemma LetterG(f: Steps, answer: Answer, s: Stream)
    requires IsMachine(f, answer)
    ensures f(s, NewParser(Request), 0x47) == Outcome(Getting(ReqMethod, 1), [], [OnMessageBegin], [], false)
  {
    AtByte(f, answer, s, NewParser(Request), 0x47);
  }

  lemma Letter(f: Steps, answer: Answer, s: Stream, i: nat)
    requires IsMachine(f, answer) && 1 <= i <= 3
    ensures f(s, Getting(ReqMethod, i), REQUEST[i])
         == Go(Getting(ReqMethod, i + 1), if i < 3 then ReqMethod else ReqSpacesBeforeUrl)
  {
    AtByte(f, answer, s, Getting(ReqMethod, i), REQUEST[i]);
    assert MethodName(Get) == "GET";
    assert OtherMethod(Get, i, REQUEST[i]) == [];
  }

  lemma Slash(f: Steps, answer: Answer, s: Stream)
    requires IsMachine(f, answer)
    ensures f(s, Getting(ReqSpacesBeforeUrl, 4), 0x2F) == Outcome(Getting(ReqPath, 4), [], [], [Url], false)
  {
    AtByte(f, answer, s, Getting(ReqSpacesBeforeUrl, 4), 0x2F);
  }

  lemma PathByte(f: Steps, answer: Answer, s: Stream, ch: Byte)
    requires IsMachine(f, answer) && (ch == 0x61 || ch == 1)
    ensures f(s, Getting(ReqPath, 4), ch)
         == if ch == 1 then Outcome(Getting(Dead, 4).(errno := InvalidUrl), [], [], [], false)
            else Go(Getting(ReqPath, 4), ReqPath)
  {
    AtByte(f, answer, s, Getting(ReqPath, 4), ch);
  }

  /** How f reads the request. */
  ghost predicate Reads(f: Steps, s: Stream) {
    && f(s, NewParser(Request), 0x47) == Outcome(Getting(ReqMethod, 1), [], [OnMessageBegin], [], false)
    && f(s, Getting(ReqMethod, 1), 0x45) == Go(Getting(ReqMethod, 2), ReqMethod)
    && f(s, Getting(ReqMethod, 2), 0x54) == Go(Getting(ReqMethod, 3), ReqMethod)
    && f(s, Getting(ReqMethod, 3), 0x20) == Go(Getting(ReqMethod, 4), ReqSpacesBeforeUrl)
    && f(s, Getting(ReqSpacesBeforeUrl, 4), 0x2F) == Outcome(Getting(ReqPath, 4), [], [], [Url], false)
    && f(s, Getting(ReqPath, 4), 0x61) == Go(Getting(ReqPath, 4), ReqPath)
    && f(s, Getting(ReqPath, 4), 1) == Outcome(Getting(Dead, 4).(errno := InvalidUrl), [], [], [], false)
  }

  ghost predicate ReadsRequest(f: Steps) {
    forall s :: Reads(f, s)
  }

  lemma MachineReads(f: Steps, answer: Answer)
    requires IsMachine(f, answer)
    ensures ReadsRequest(f)
  {
    forall s ensures Reads(f, s) {
      LetterG(f, answer, s);
      Letter(f, answer, s, 1);
      Letter(f, answer, s, 2);
      Letter(f, answer, s, 3);
      Slash(f, answer, s);
      PathByte(f, answer, s, 0x61);
      PathByte(f, answer, s, 1);
    }
  }

  const BEGUN := Desk(Heard(Silence, OnMessageBegin), [], [])
  const IN_PATH := Desk(Heard(Silence, OnMessageBegin), [Url], [0x2F])

  /** What was told, and what is pending, after six bytes. */
  const SO_FAR := Desk(Heard(Silence, OnMessageBegin), [Url], [0x2F, 0x61])

  lemma TakeG(f: Steps, data: seq<Byte>)
    requires ReadsRequest(f) && |data| >= 1 && data[0] == 0x47
    ensures Call(f, NewParser(Request), Desk(Silence, [], []), data, 0)
         == Call(f, Getting(ReqMethod, 1), BEGUN, data, 1)
  {
    assert Reads(f, Silence);
    OneByte(f, NewParser(Request), Desk(Silence, [], []), data, 0,
            Outcome(Getting(ReqMethod, 1), [], [OnMessageBegin], [], false), BEGUN);
  }

  lemma TakeLetter(f: Steps, data: seq<Byte>, i: nat)
    requires ReadsRequest(f) && 1 <= i <= 3 && i < |data| && data[i] == REQUEST[i]
    ensures Call(f, Getting(ReqMethod, i), BEGUN, data, i)
         == Call(f, Getting(if i < 3 then ReqMethod else ReqSpacesBeforeUrl, i + 1), BEGUN, data, i + 1)
  {
    assert Reads(f, Flushed(BEGUN));
    OneByte(f, Getting(ReqMethod, i), BEGUN, data, i,
            Go(Getting(ReqMethod, i + 1), if i < 3 then ReqMethod else ReqSpacesBeforeUrl), BEGUN);
  }

  lemma TakeSlash(f: Steps, data: seq<Byte>)
    requires ReadsRequest(f) && |data| >= 5 && data[4] == 0x2F
    ensures Call(f, Getting(ReqSpacesBeforeUrl, 4), BEGUN, data, 4) == Call(f, Getting(ReqPath, 4), IN_PATH, data, 5)
  {
    assert Reads(f, Flushed(BEGUN));
    OneByte(f, Getting(ReqSpacesBeforeUrl, 4), BEGUN, data, 4, Outcome(Getting(ReqPath, 4), [], [], [Url], false),
            IN_PATH);
  }

  lemma PathGrows()
    ensures Taken(IN_PATH, ReqPath, 0x61, Go(Getting(ReqPath, 4), ReqPath)) == SO_FAR
  {
    assert [0x2F] + [0x61] == [0x2F, 0x61];
  }

  lemma TakePath(f: Steps, data: seq<Byte>)
    requires ReadsRequest(f) && |data| >= 6 && data[5] == 0x61
    ensures Call(f, Getting(ReqPath, 4), IN_PATH, data, 5) == Call(f, Getting(ReqPath, 4), SO_FAR, data, 6)
  {
    PathGrows();
    assert Reads(f, Flushed(IN_PATH));
    OneByte(f, Getting(ReqPath, 4), IN_PATH, data, 5, Go(Getting(ReqPath, 4), ReqPath), SO_FAR);
  }

  lemma TakeMethod(f: Steps, data: seq<Byte>)
    requires ReadsRequest(f) && |data| >= 6 && forall k :: 0 <= k < 6 ==> data[k] == REQUEST[k]
    ensures Call(f, NewParser(Request), Desk(Silence, [], []), data, 0)
         == Call(f, Getting(ReqMethod, 3), BEGUN, data, 3)
  {
    TakeG(f, data);
    TakeLetter(f, data, 1);
    TakeLetter(f, data, 2);
  }

  lemma RequestSoFar(f: Steps, data: seq<Byte>)
    requires ReadsRequest(f) && |data| >= 6 && forall k :: 0 <= k < 6 ==> data[k] == REQUEST[k]
    ensures Call(f, NewParser(Request), Desk(Silence, [], []), data, 0) == Call(f, Getting(ReqPath, 4), SO_FAR, data, 6)
  {
    TakeMethod(f, data);
    TakeLetter(f, data, 3);
    TakeSlash(f, data);
    TakePath(f, data);
  }

  lemma CutCalls(f: Steps)
    requires ReadsRequest(f)
    ensures var first := Call(f, NewParser(Request), Desk(Silence, [], []), REQUEST, 0);
            && !first.stopped && first.p == Getting(ReqPath, 4) && first.d.told == Flushed(SO_FAR)
            && Call(f, NewParser(Request), Desk(Silence, [], []), REQUEST + [1], 0).d.told == SO_FAR.told
            && Call(f, Getting(ReqPath, 4), Opened(Getting(ReqPath, 4), Flushed(SO_FAR)), [1], 0).d.told
            == Flushed(SO_FAR)
  {
    var p, d := Getting(ReqPath, 4), Opened(Getting(ReqPath, 4), Flushed(SO_FAR));
    RequestSoFar(f, REQUEST);
    RequestSoFar(f, REQUEST + [1]);
    assert Reads(f, Flushed(SO_FAR));
    assert Reads(f, Flushed(d));
  }

  lemma CutHeard(f: Steps)
    requires ReadsRequest(f)
    ensures var first := Called(f, NewParser(Request), Silence, REQUEST);
            && Called(f, NewParser(Request), Silence, REQUEST + [1]).d.told == Heard(Silence, OnMessageBegin)
            && Called(f, first.p, first.d.told, [1]).d.told
            == Heard(Heard(Silence, OnMessageBegin), Data(Url, [0x2F, 0x61]))
  {
    CutCalls(f);
    CalledIs(f, NewParser(Request), Silence, REQUEST);
    CalledIs(f, NewParser(Request), Silence, REQUEST + [1]);
    CalledIs(f, Getting(ReqPath, 4), Flushed(SO_FAR), [1]);
  }

  /** A control character in a URL: in one buffer the application hears nothing of the URL, but it
      hears the path if a cut comes before that character. */
  lemma CutIsHeard(f: Steps, answer: Answer)
    requires f == Machine(answer)
    ensures var first := Called(f, NewParser(Request), Silence, REQUEST);
            && Called(f, NewParser(Request), Silence, REQUEST + [1]).d.told == Heard(Silence, OnMessageBegin)
            && Called(f, first.p, first.d.told, [1]).d.told
            == Heard(Heard(Silence, OnMessageBegin), Data(Url, [0x2F, 0x61]))
  {
    MachineReads(f, answer);
    CutHeard(f);
  }
}
