/**
 The parser object: one buffer at a time, with its inner loops over header names, header values and
 bodies. Each call does what the machine that takes one byte at a time does.
 */
module HttpParser {
  import opened Numbers
  import opened HttpModel
  import opened HttpRun
  import opened HttpCalls

  const UNSET := -1

  /** Where data of each kind begins that the application was not told of yet. */
  datatype Marks = Marks(field: int, value: int, url: int, status: int, body: int)

  const NO_MARKS := Marks(UNSET, UNSET, UNSET, UNSET, UNSET)

  function MarkOf(m: Marks, k: DataKind): (i: int) {
    match k case Field => m.field case Value => m.value case Url => m.url case Status => m.status case Body => m.body
  }

  function SetMark(m: Marks, k: DataKind, i: int): (r: Marks) {
    match k
    case Field => m.(field := i)
    case Value => m.(value := i)
    case Url => m.(url := i)
    case Status => m.(status := i)
    case Body => m.(body := i)
  }

  /** The marks that stand for the pending data d, before byte i: at most one is set. */
  predicate MarksFor(m: Marks, d: Desk, data: seq<Byte>, i: nat) {
    && |d.bytes| <= i <= |data|
    && |d.kind| <= 1
    && m == (if d.kind == [] then NO_MARKS else SetMark(NO_MARKS, d.kind[0], i - |d.bytes|))
    && d.bytes == data[i - |d.bytes|..i]
  }

  /** What a call with this buffer amounts to. */
  function Called(f: Steps, p: Parser, told: Stream, data: seq<Byte>): (e: End) {
    if p.errno != Ok then End(p, Desk(told, [], []), 0, true)
    else if |data| > 0 then Call(f, p, Opened(p, told), data, 0)
    else
      match p.state
      case BodyIdentityEof => End(p, Desk(Add(told, OnMessageComplete), [], []), 0, false)
      case Dead => End(p, Desk(told, [], []), 0, false)
      case StartReqOrRes => End(p, Desk(told, [], []), 0, false)
      case StartRes => End(p, Desk(told, [], []), 0, false)
      case StartReq => End(p, Desk(told, [], []), 0, false)
      case _ => End(p.(errno := InvalidEofState), Desk(told, [], []), 1, true)
  }

  // ----- one byte, and blocks of bytes -----

  ghost predicate UnderWay(f: Steps, goal: End, p: Parser, m: Marks, d: Desk, data: seq<Byte>, i: nat) {
    && Orderly(f) && WellFormed(p) && Pends(p.state, d) && MarksFor(m, d, data, i)
    && Call(f, p, d, data, i) == goal
  }

  // Always true. Mentioning it opens Going at byte i of a buffer.
  ghost predicate Open(x: nat, p: Parser, i: nat) {
    true
  }

  /** A call that is under way: d is its desk before byte i, and goal its end. */
  ghost predicate Going(f: Steps, goal: End, p: Parser, m: Marks, d: Desk, data: seq<Byte>, i: nat) {
    forall x: nat :: Open(x, p, i) ==> UnderWay(f, goal, p, m, d, data, i)
  }

  /** A call that has ended. */
  ghost predicate Ended(goal: End, p: Parser, told: Stream, n: nat) {
    && p == goal.p && told == goal.d.told && n == goal.taken
    && (p.errno == Ok ==> WellFormed(p) && Ends(p.state, told))
  }

  lemma Advance(f: Steps, goal: End, p: Parser, m: Marks, d: Desk, data: seq<Byte>, i: nat, o: Outcome)
    requires Going(f, goal, p, m, d, data, i) && i < |data| && o == f(Flushed(d), p, data[i])
    ensures var e := Taken(d, p.state, data[i], o);
            if o.p.errno != Ok then Ended(goal, o.p, e.told, i)
            else if o.leave then Ended(goal, o.p, e.told, i + 1)
            else WellFormed(o.p) && Pends(o.p.state, e) && Call(f, o.p, e, data, i + 1) == goal
    ensures Follows(p.state, o) && Orderly(f) && Pends(p.state, d) && MarksFor(m, d, data, i)
  {
    assert Open(0, p, i);
    Steady(f, Flushed(d), p, data[i]);
    if o.p.errno == Ok {
      TakenPends(d, p.state, data[i], o);
      FlushedEnds(o.p.state, Taken(d, p.state, data[i], o));
    }
  }

  lemma GrowsMarks(m: Marks, d: Desk, data: seq<Byte>, i: nat)
    requires MarksFor(m, d, data, i) && i < |data| && d.kind != []
    ensures MarksFor(m, Desk(d.told, d.kind, d.bytes + [data[i]]), data, i + 1)
  {
    assert data[i - |d.bytes|..i + 1] == data[i - |d.bytes|..i] + [data[i]];
  }

  /** The marks after a byte: cleared where data is handed over, set where data begins. */
  function MarksAfter(m: Marks, o: Outcome, i: nat): (r: Marks) {
    if o.flush != [] then SetMark(m, o.flush[0], UNSET) else if o.mark != [] then SetMark(m, o.mark[0], i) else m
  }

  /** Data that is handed over is all that was pending, and none begins while any is. */
  lemma PendingShape(d: Desk, before: State, o: Outcome)
    requires Pends(before, d) && !ReadsBody(before) && Follows(before, o)
    ensures |o.flush| <= 1 && (o.p.errno == Ok ==> |o.mark| <= 1) && (o.p.errno != Ok ==> o.flush == [])
    ensures o.flush != [] ==> o.tells == [] && (d.kind == [] || d.kind == o.flush)
    ensures o.p.errno == Ok && o.flush == [] && d.kind != [] ==> o.mark == [] && o.tells == []
  {
  }

  lemma MarksCleared(m: Marks, d: Desk, told: Stream, data: seq<Byte>, i: nat, k: DataKind)
    requires MarksFor(m, d, data, i) && i < |data| && (d.kind == [] || d.kind == [k])
    ensures MarksFor(SetMark(m, k, UNSET), Desk(told, [], []), data, i + 1)
  {
  }

  lemma MarksBegin(told: Stream, data: seq<Byte>, i: nat, k: DataKind)
    requires i < |data|
    ensures MarksFor(SetMark(NO_MARKS, k, i), Desk(told, [k], [data[i]]), data, i + 1)
  {
    assert data[i..i + 1] == [data[i]];
  }

  lemma ByteMarks(m: Marks, d: Desk, before: State, data: seq<Byte>, i: nat, o: Outcome)
    requires MarksFor(m, d, data, i) && i < |data| && Pends(before, d) && !ReadsBody(before) && Follows(before, o)
    requires o.p.errno == Ok
    ensures MarksFor(MarksAfter(m, o, i), Taken(d, before, data[i], o), data, i + 1)
  {
    PendingShape(d, before, o);
    if o.flush != [] {
      MarksCleared(m, d, Flushed(d), data, i, o.flush[0]);
    } else if d.kind != [] {
      GrowsMarks(m, d, data, i);
    } else if o.mark != [] {
      MarksBegin(AddAll(d.told, o.tells), data, i, o.mark[0]);
    }
  }

  /** The notifications with the data of the kinds that is pending at byte i, which is one at most. */
  function Handed(s: Stream, m: Marks, kinds: seq<DataKind>, data: seq<Byte>, i: nat): (r: Stream) {
    if kinds != [] && 0 <= MarkOf(m, kinds[0]) <= i <= |data| then Add(s, Data(kinds[0], data[MarkOf(m, kinds[0])..i]))
    else s
  }

  lemma HandedIs(m: Marks, d: Desk, data: seq<Byte>, i: nat, k: DataKind)
    requires MarksFor(m, d, data, i) && (d.kind == [] || d.kind == [k])
    ensures Handed(d.told, m, [k], data, i) == Flushed(d)
    ensures MarkOf(m, k) <= i && (MarkOf(m, k) < 0 ==> m == SetMark(m, k, UNSET))
  {
  }

  /** What is handed over, and told, at a byte. */
  lemma ByteTells(m: Marks, d: Desk, before: State, data: seq<Byte>, i: nat, o: Outcome)
    requires MarksFor(m, d, data, i) && i < |data| && Pends(before, d) && !ReadsBody(before) && Follows(before, o)
    ensures AddAll(Handed(d.told, m, o.flush, data, i), o.tells) == Taken(d, before, data[i], o).told
    ensures o.flush != [] ==>
              MarkOf(m, o.flush[0]) <= i && (MarkOf(m, o.flush[0]) < 0 ==> m == SetMark(m, o.flush[0], UNSET))
  {
    PendingShape(d, before, o);
    if o.flush != [] {
      HandedIs(m, d, data, i, o.flush[0]);
      assert o.flush == [o.flush[0]];
    }
  }

  lemma ByteGoes(f: Steps, goal: End, p: Parser, m: Marks, d: Desk, data: seq<Byte>, i: nat, o: Outcome)
    requires Going(f, goal, p, m, d, data, i) && i < |data| && o == f(Flushed(d), p, data[i]) && !ReadsBody(p.state)
    ensures var e := Taken(d, p.state, data[i], o);
            && AddAll(Handed(d.told, m, o.flush, data, i), o.tells) == e.told
            && if o.p.errno != Ok then Ended(goal, o.p, e.told, i)
               else if o.leave then Ended(goal, o.p, e.told, i + 1)
               else Going(f, goal, o.p, MarksAfter(m, o, i), e, data, i + 1)
    ensures o.flush != [] ==>
              MarkOf(m, o.flush[0]) <= i && (MarkOf(m, o.flush[0]) < 0 ==> m == SetMark(m, o.flush[0], UNSET))
  {
    Advance(f, goal, p, m, d, data, i, o);
    ByteTells(m, d, p.state, data, i, o);
    if o.p.errno == Ok {
      ByteMarks(m, d, p.state, data, i, o);
    }
  }

  // ----- the states with inner loops -----

  ghost predicate FieldAt(f: Steps, s: Stream, p: Parser, ch: Byte) {
    p.state == HeaderField ==> f(s, p, ch) == StepHeaderField(p, ch)
  }

  ghost predicate ReadsFields(f: Steps) {
    forall s, p, ch :: FieldAt(f, s, p, ch)
  }

  ghost predicate ValueAt(f: Steps, s: Stream, p: Parser, ch: Byte) {
    p.state == HeaderValue ==> f(s, p, ch) == StepHeaderValue(p, ch)
  }

  ghost predicate ReadsValues(f: Steps) {
    forall s, p, ch :: ValueAt(f, s, p, ch)
  }

  ghost predicate BodyAt(f: Steps, s: Stream, p: Parser, ch: Byte) {
    ReadsBody(p.state) ==> f(s, p, ch) == StepBody(p, ch)
  }

  ghost predicate ReadsBodies(f: Steps) {
    forall s, p, ch :: BodyAt(f, s, p, ch)
  }

  lemma DataGroups(s: State)
    ensures s == HeaderField || s == HeaderValue ==> GroupOf(s) == AtHeader
    ensures ReadsBody(s) ==> GroupOf(s) == AtBody
  {
  }

  lemma StepReads(p: Parser, ch: Byte, skip: bool)
    ensures p.state == HeaderField ==> Step(p, ch, skip) == StepHeaderField(p, ch)
    ensures p.state == HeaderValue ==> Step(p, ch, skip) == StepHeaderValue(p, ch)
    ensures ReadsBody(p.state) ==> Step(p, ch, skip) == StepBody(p, ch)
  {
    DataGroups(p.state);
    StepByState(p, ch, skip);
    HeaderByState(p, ch, skip);
  }

  lemma MachineReadsData(f: Steps, answer: Answer)
    requires IsMachine(f, answer)
    ensures ReadsFields(f) && ReadsValues(f) && ReadsBodies(f)
  {
    forall s, p, ch ensures FieldAt(f, s, p, ch) && ValueAt(f, s, p, ch) && BodyAt(f, s, p, ch) {
      AtByte(f, answer, s, p, ch);
      StepReads(p, ch, answer(s, p));
    }
  }

  /** Another byte of data. */
  lemma DataGoes(f: Steps, goal: End, p: Parser, q: Parser, m: Marks, d: Desk, data: seq<Byte>, i: nat)
    requires Going(f, goal, p, m, d, data, i) && i < |data|
    requires Marked(p.state) != [] && q.errno == Ok && q.state == p.state
    requires f(Flushed(d), p, data[i]) == Outcome(q, [], [], [], false)
    ensures Going(f, goal, q, m, Desk(d.told, d.kind, d.bytes + [data[i]]), data, i + 1)
  {
    assert Open(0, p, i);
    Advance(f, goal, p, m, d, data, i, f(Flushed(d), p, data[i]));
    GrowsMarks(m, d, data, i);
  }

  /** The data of kind k is to be handed over, and the call to go on with q after byte i. */
  ghost predicate Handing(f: Steps, goal: End, q: Parser, m: Marks, d: Desk, data: seq<Byte>, i: nat, k: DataKind) {
    && 0 <= MarkOf(m, k) <= i < |data| && SetMark(m, k, UNSET) == NO_MARKS
    && Flushed(d) == Handed(d.told, m, [k], data, i)
    && Going(f, goal, q, NO_MARKS, Desk(Flushed(d), [], []), data, i + 1)
  }

  /** Data that ends before byte i, which is no error. */
  lemma DataEnds(f: Steps, goal: End, p: Parser, q: Parser, m: Marks, d: Desk, data: seq<Byte>, i: nat, k: DataKind)
    requires Going(f, goal, p, m, d, data, i) && i < |data|
    requires Marked(p.state) == [k] && q.errno == Ok && f(Flushed(d), p, data[i]) == Outcome(q, [k], [], [], false)
    ensures Handing(f, goal, q, m, d, data, i, k)
  {
    assert Open(0, p, i);
    Advance(f, goal, p, m, d, data, i, f(Flushed(d), p, data[i]));
  }

  /** An error drops what is pending. */
  lemma DataDropped(f: Steps, goal: End, p: Parser, q: Parser, m: Marks, d: Desk, data: seq<Byte>, i: nat)
    requires Going(f, goal, p, m, d, data, i) && i < |data|
    requires Marked(p.state) != [] && q.errno != Ok && f(Flushed(d), p, data[i]) == Outcome(q, [], [], [], false)
    ensures Ended(goal, q, d.told, i)
  {
    assert Open(0, p, i);
    Advance(f, goal, p, m, d, data, i, f(Flushed(d), p, data[i]));
  }

  lemma FieldGoes(f: Steps, goal: End, p: Parser, m: Marks, d: Desk, data: seq<Byte>, i: nat)
    requires ReadsFields(f) && Going(f, goal, p, m, d, data, i) && i < |data| && p.state == HeaderField && p.errno == Ok
    requires Token(data[i]) != 0
    ensures var q := FieldByte(p, data[i], Token(data[i]));
            && q.state == HeaderField
            && q.errno == Ok
            && Going(f, goal, q, m, Desk(d.told, d.kind, d.bytes + [data[i]]), data, i + 1)
  {
    assert FieldAt(f, Flushed(d), p, data[i]);
    FieldByteStays(p, data[i], Token(data[i]));
    DataGoes(f, goal, p, FieldByte(p, data[i], Token(data[i])), m, d, data, i);
  }

  lemma FieldEnds(f: Steps, goal: End, p: Parser, m: Marks, d: Desk, data: seq<Byte>, i: nat)
    requires ReadsFields(f) && Going(f, goal, p, m, d, data, i) && i < |data| && p.state == HeaderField && p.errno == Ok
    requires Token(data[i]) == 0
    ensures if Is(data[i], ':') then Handing(f, goal, p.(state := HeaderValueDiscardWs), m, d, data, i, Field)
            else Ended(goal, p.(errno := InvalidHeaderToken), d.told, i)
  {
    assert FieldAt(f, Flushed(d), p, data[i]);
    if Is(data[i], ':') {
      DataEnds(f, goal, p, p.(state := HeaderValueDiscardWs), m, d, data, i, Field);
    } else {
      DataDropped(f, goal, p, p.(errno := InvalidHeaderToken), m, d, data, i);
    }
  }

  predicate IsLineEnd(ch: Byte) {
    ch == CR || ch == LF
  }

  lemma ValueEnds(f: Steps, goal: End, p: Parser, m: Marks, d: Desk, data: seq<Byte>, i: nat)
    requires ReadsValues(f) && Going(f, goal, p, m, d, data, i) && i < |data| && p.state == HeaderValue && p.errno == Ok
    requires IsLineEnd(data[i])
    ensures Handing(f, goal, p.(state := if data[i] == CR then HeaderAlmostDone else HeaderValueLws), m, d, data, i,
                    Value)
  {
    assert ValueAt(f, Flushed(d), p, data[i]);
    DataEnds(f, goal, p, p.(state := if data[i] == CR then HeaderAlmostDone else HeaderValueLws), m, d, data, i, Value);
  }

  lemma ValueGoes(f: Steps, goal: End, p: Parser, m: Marks, d: Desk, data: seq<Byte>, i: nat)
    requires ReadsValues(f) && Going(f, goal, p, m, d, data, i) && i < |data| && p.state == HeaderValue && p.errno == Ok
    requires !IsLineEnd(data[i])
    ensures var q := ValueByte(p, data[i]);
            q.state == HeaderValue && if q.errno != Ok then Ended(goal, q, d.told, i)
                                      else Going(f, goal, q, m, Desk(d.told, d.kind, d.bytes + [data[i]]), data, i + 1)
  {
    assert ValueAt(f, Flushed(d), p, data[i]);
    ValueByteStays(p, data[i]);
    var q := ValueByte(p, data[i]);
    if q.errno != Ok {
      DataDropped(f, goal, p, q, m, d, data, i);
    } else {
      DataGoes(f, goal, p, q, m, d, data, i);
    }
  }

  /** The bytes of data from i to k behind a. */
  function Joined(a: seq<Byte>, data: seq<Byte>, i: nat, k: nat): (r: seq<Byte>)
    requires i <= k <= |data|
    decreases k - i
  {
    if i == k then a else Joined(a + [data[i]], data, i + 1, k)
  }

  lemma {:induction false} JoinedIs(a: seq<Byte>, data: seq<Byte>, i: nat, k: nat)
    requires i <= k <= |data|
    ensures Joined(a, data, i, k) == a + data[i..k]
    decreases k - i
  {
    if i < k {
      JoinedIs(a + [data[i]], data, i + 1, k);
    }
  }

  lemma {:induction false} JoinedLast(a: seq<Byte>, data: seq<Byte>, i: nat, k: nat)
    requires i < k <= |data|
    ensures Joined(a, data, i, k) == Joined(a, data, i, k - 1) + [data[k - 1]]
    decreases k - i
  {
    if i + 1 < k {
      JoinedLast(a + [data[i]], data, i + 1, k);
    }
  }

  /** A run of value bytes that say nothing about the connection. */
  lemma {:induction false} ValueSkips(f: Steps, goal: End, p: Parser, m: Marks, d: Desk, data: seq<Byte>, i: nat,
                                      k: nat)
    requires ReadsValues(f) && Going(f, goal, p, m, d, data, i) && i <= k <= |data| && p.state == HeaderValue
    requires p.headerState == HGeneral && p.errno == Ok
    requires forall x :: i <= x < k ==> !IsLineEnd(data[x])
    ensures Going(f, goal, p, m, Desk(d.told, d.kind, Joined(d.bytes, data, i, k)), data, k)
    decreases k - i
  {
    if i < k {
      ValueGoes(f, goal, p, m, d, data, i);
      GeneralStays(p, data[i]);
      ValueSkips(f, goal, p, m, Desk(d.told, d.kind, d.bytes + [data[i]]), data, i + 1, k);
    }
  }

  lemma GeneralStays(p: Parser, ch: Byte)
    requires p.headerState == HGeneral
    ensures ValueByte(p, ch) == p
  {
  }

  /** A mark that is set stays where it is. */
  function MarkBody(m: Marks, i: int): (r: Marks) {
    if m.body < 0 then m.(body := i) else m
  }

  lemma BodyMarks(m: Marks, d: Desk, data: seq<Byte>, i: nat)
    requires MarksFor(m, d, data, i) && i < |data| && (d.kind == [Body] || (d.kind == [] && d.bytes == []))
    ensures MarksFor(MarkBody(m, i), Desk(d.told, [Body], d.bytes + [data[i]]), data, i + 1)
  {
    if d.kind != [] {
      GrowsMarks(m, d, data, i);
    }
  }

  function Drained(p: Parser, n: nat): (q: Parser)
    requires p.state == BodyIdentityEof || n <= p.contentLength
  {
    if p.state == BodyIdentityEof then p else p.(contentLength := p.contentLength - n)
  }

  lemma PendsBody(state: State, d: Desk)
    requires Pends(state, d) && ReadsBody(state)
    ensures d.kind == [Body] || (d.kind == [] && d.bytes == [])
  {
  }

  lemma BodyStep(p: Parser, ch: Byte)
    requires ReadsBody(p.state) && (p.state == BodyIdentityEof || 1 < p.contentLength)
    ensures StepBody(p, ch) == Outcome(Drained(p, 1), [], [], [], false)
  {
  }

  lemma ChunkDataStep(p: Parser, ch: Byte)
    requires p.state == ChunkData && 0 < p.contentLength
    ensures StepBody(p, ch)
         == Go(p.(contentLength := p.contentLength - 1),
               if p.contentLength == 1 then ChunkDataAlmostDone else ChunkData)
  {
  }

  /** Another byte of a body. */
  lemma BodyOn(f: Steps, goal: End, p: Parser, q: Parser, m: Marks, d: Desk, data: seq<Byte>, i: nat)
    requires Going(f, goal, p, m, d, data, i) && i < |data| && ReadsBody(p.state)
    requires q.errno == Ok && f(Flushed(d), p, data[i]) == Outcome(q, [], [], [], false)
    ensures Going(f, goal, q, MarkBody(m, i), Desk(d.told, [Body], d.bytes + [data[i]]), data, i + 1)
  {
    Advance(f, goal, p, m, d, data, i, f(Flushed(d), p, data[i]));
    PendsBody(p.state, d);
    BodyMarks(m, d, data, i);
  }

  lemma BodyByte(f: Steps, goal: End, p: Parser, m: Marks, d: Desk, data: seq<Byte>, i: nat)
    requires ReadsBodies(f) && Going(f, goal, p, m, d, data, i) && i < |data| && ReadsBody(p.state)
    requires (p.state == BodyIdentityEof || 1 < p.contentLength)
    ensures Going(f, goal, Drained(p, 1), MarkBody(m, i), Desk(d.told, [Body], d.bytes + [data[i]]), data, i + 1)
  {
    assert BodyAt(f, Flushed(d), p, data[i]);
    BodyStep(p, data[i]);
    Goes(f, goal, p, m, d, data, i);
    BodyOn(f, goal, p, Drained(p, 1), m, d, data, i);
  }

  lemma MarkedBody(f: Steps, goal: End, p: Parser, m: Marks, d: Desk, data: seq<Byte>, i: nat)
    requires Going(f, goal, p, m, d, data, i) && ReadsBody(p.state)
    ensures MarkBody(m, i) == SetMark(NO_MARKS, Body, i - |d.bytes|) && |d.bytes| <= i <= |data|
    ensures data[i - |d.bytes|..i] == d.bytes
  {
    assert Open(0, p, i);
  }

  lemma JoinedFirst(a: seq<Byte>, data: seq<Byte>, i: nat, n: nat)
    requires 0 < n && i + n <= |data|
    ensures Joined(a, data, i, i + n) == Joined(a + [data[i]], data, i + 1, i + n)
    ensures n == 1 ==> Joined(a, data, i, i + n) == a + [data[i]]
  {
  }

  /** A block of body bytes, but not the last of the body. */
  lemma {:induction false} BodyGoes(f: Steps, goal: End, p: Parser, m: Marks, d: Desk, data: seq<Byte>, i: nat, n: nat)
    requires ReadsBodies(f) && Going(f, goal, p, m, d, data, i) && 0 < n && i + n <= |data| && ReadsBody(p.state)
    requires (p.state == BodyIdentityEof || n < p.contentLength)
    ensures Going(f, goal, Drained(p, n), MarkBody(m, i), Desk(d.told, [Body], Joined(d.bytes, data, i, i + n)), data,
                  i + n)
    decreases n
  {
    BodyByte(f, goal, p, m, d, data, i);
    JoinedFirst(d.bytes, data, i, n);
    if n > 1 {
      MarkStays(m, i, i + 1);
      DrainedTwice(p, n);
      BodyGoes(f, goal, Drained(p, 1), MarkBody(m, i), Desk(d.told, [Body], d.bytes + [data[i]]), data, i + 1, n - 1);
    }
  }

  /** A body, or a chunk of one, was read up to byte j; q has the fields, but for the state. */
  ghost predicate BodyRead(f: Steps, goal: End, q: Parser, m: Marks, b: Desk, data: seq<Byte>, j: nat) {
    forall x: nat :: Open(x, q, j) ==> ReadTo(f, goal, q, m, b, data, j)
  }

  ghost predicate ReadTo(f: Steps, goal: End, q: Parser, m: Marks, b: Desk, data: seq<Byte>, j: nat) {
    if q.state == ChunkData then Going(f, goal, q.(state := ChunkDataAlmostDone), m, b, data, j)
    else
      var r := q.(state := NewMessage(q.(state := MessageDone)));
      var told := Add(Flushed(b), OnMessageComplete);
      if r.upgrade then Ended(goal, r, told, j) else Going(f, goal, r, NO_MARKS, Desk(told, [], []), data, j)
  }

  lemma LastStep(p: Parser, ch: Byte)
    requires p.contentLength == 1
    ensures p.state == ChunkData ==> StepBody(p, ch) == Go(p.(contentLength := 0), ChunkDataAlmostDone)
    ensures p.state == BodyIdentity ==>
              StepBody(p, ch) == Complete(p.(contentLength := 0, state := MessageDone), p.upgrade)
  {
  }

  lemma BodyCompleted(f: Steps, goal: End, p: Parser, q: Parser, m: Marks, d: Desk, data: seq<Byte>, i: nat)
    requires Going(f, goal, p, m, d, data, i) && i < |data| && p.state == BodyIdentity && q.errno == Ok
    requires f(Flushed(d), p, data[i]) == Outcome(q, [], [OnMessageComplete], [], q.upgrade)
    ensures var told := Add(Flushed(Desk(d.told, [Body], d.bytes + [data[i]])), OnMessageComplete);
            if q.upgrade then Ended(goal, q, told, i + 1)
            else Going(f, goal, q, NO_MARKS, Desk(told, [], []), data, i + 1)
  {
    Advance(f, goal, p, m, d, data, i, f(Flushed(d), p, data[i]));
    TellOne(Flushed(Desk(d.told, [Body], d.bytes + [data[i]])), OnMessageComplete);
  }

  lemma LastByte(f: Steps, goal: End, p: Parser, m: Marks, d: Desk, data: seq<Byte>, i: nat)
    requires ReadsBodies(f) && Going(f, goal, p, m, d, data, i) && i < |data| && ReadsBody(p.state)
    requires p.state != BodyIdentityEof && p.contentLength == 1
    ensures BodyRead(f, goal, p.(contentLength := 0), MarkBody(m, i), Desk(d.told, [Body], d.bytes + [data[i]]), data,
                     i + 1)
  {
    assert BodyAt(f, Flushed(d), p, data[i]);
    Goes(f, goal, p, m, d, data, i);
    LastStep(p, data[i]);
    if p.state == ChunkData {
      BodyOn(f, goal, p, p.(contentLength := 0, state := ChunkDataAlmostDone), m, d, data, i);
    } else {
      var q := p.(contentLength := 0, state := MessageDone);
      BodyCompleted(f, goal, p, q.(state := NewMessage(q)), m, d, data, i);
    }
  }

  lemma TellOne(s: Stream, e: Event)
    ensures AddAll(s, [e]) == Add(s, e)
  {
  }

  lemma DrainedTwice(p: Parser, n: nat)
    requires 0 < n && (p.state == BodyIdentityEof || n < p.contentLength)
    ensures var q := Drained(p, 1);
            && q.state == p.state
            && (p.state == BodyIdentityEof || n - 1 < q.contentLength)
            && Drained(q, n - 1) == Drained(p, n)
  {
  }

  lemma DrainedRest(p: Parser, n: nat)
    requires 0 < n == p.contentLength && p.state != BodyIdentityEof
    ensures var q := Drained(p, n - 1);
            q.state == p.state && q.contentLength == 1 && q.(contentLength := 0) == p.(contentLength := 0)
  {
  }

  lemma MarkStays(m: Marks, i: nat, j: nat)
    ensures MarkBody(MarkBody(m, i), j) == MarkBody(m, i)
  {
  }

  /** A block that ends the body, or a chunk of it. */
  lemma BlockEnds(f: Steps, goal: End, p: Parser, m: Marks, d: Desk, data: seq<Byte>, i: nat, n: nat)
    requires ReadsBodies(f) && Going(f, goal, p, m, d, data, i) && 0 < n && i + n <= |data| && ReadsBody(p.state)
    requires p.state != BodyIdentityEof && p.contentLength == n
    ensures BodyRead(f, goal, p.(contentLength := 0), MarkBody(m, i),
                     Desk(d.told, [Body], Joined(d.bytes, data, i, i + n)), data, i + n)
  {
    if n == 1 {
      JoinedFirst(d.bytes, data, i, n);
      LastByte(f, goal, p, m, d, data, i);
    } else {
      BodyGoes(f, goal, p, m, d, data, i, n - 1);
      JoinedLast(d.bytes, data, i, i + n);
      DrainedRest(p, n);
      MarkStays(m, i, i + n - 1);
      LastByte(f, goal, Drained(p, n - 1), MarkBody(m, i), Desk(d.told, [Body], Joined(d.bytes, data, i, i + n - 1)),
               data, i + n - 1);
    }
  }

  /** What is handed over at the end of a body. */
  lemma BodyHanded(d: Desk, data: seq<Byte>, i: nat, j: nat)
    requires |d.bytes| <= i <= j <= |data| && data[i - |d.bytes|..i] == d.bytes
    ensures Handed(d.told, SetMark(NO_MARKS, Body, i - |d.bytes|), [Body], data, j)
         == Flushed(Desk(d.told, [Body], Joined(d.bytes, data, i, j)))
  {
    JoinedIs(d.bytes, data, i, j);
    assert data[i - |d.bytes|..j] == d.bytes + data[i..j];
  }

  // ----- the whole buffer -----

  /** Data that was pending at the end of the last buffer goes on at the start of this one. */
  function StartMarks(s: State): (m: Marks) {
    if Marked(s) == [] then NO_MARKS else SetMark(NO_MARKS, Marked(s)[0], 0)
  }

  lemma Starts(f: Steps, p: Parser, told: Stream, data: seq<Byte>)
    requires Orderly(f) && WellFormed(p) && Ends(p.state, told)
    ensures Going(f, Call(f, p, Opened(p, told), data, 0), p, StartMarks(p.state), Opened(p, told), data, 0)
  {
    OpenedPends(p, told);
  }

  lemma Goes(f: Steps, goal: End, p: Parser, m: Marks, d: Desk, data: seq<Byte>, i: nat)
    requires Going(f, goal, p, m, d, data, i)
    ensures i <= |data| && p.errno == Ok
    ensures p.state == BodyIdentity || p.state == ChunkData ==> 0 < p.contentLength
  {
    assert Open(0, p, i);
    assert HttpModel.Expand(0);
  }

  /** What is left over at the end is handed over: at most one mark is set. */
  lemma LeftOver(f: Steps, goal: End, p: Parser, m: Marks, d: Desk, data: seq<Byte>)
    requires Going(f, goal, p, m, d, data, |data|)
    ensures m.field <= |data| && m.value <= |data| && m.url <= |data| && m.body <= |data| && m.status <= |data|
    ensures var s1 := Handed(d.told, m, [Field], data, |data|);
            var s2 := Handed(s1, m, [Value], data, |data|);
            var s3 := Handed(s2, m, [Url], data, |data|);
            var s4 := Handed(s3, m, [Body], data, |data|);
            Ended(goal, p, Handed(s4, m, [Status], data, |data|), |data|)
  {
    assert Open(0, p, |data|);
    FlushedEnds(p.state, d);
  }

  /** The answer is not asked for while data is pending. */
  lemma SkipUnused(p: Parser, ch: Byte, a: bool, b: bool)
    ensures Marked(p.state) != [] || InBody(p.state) ==> Step(p, ch, a) == Step(p, ch, b)
  {
  }

  lemma FieldByteStays(p: Parser, ch: Byte, c: Byte)
    ensures var q := FieldByte(p, ch, c); q.state == p.state && q.errno == p.errno
  {
  }

  lemma ValueByteStays(p: Parser, ch: Byte)
    ensures ValueByte(p, ch).state == p.state
  {
  }

  class HttpParser {
    var fields: Parser
    var heard: Stream  // the application

    ghost predicate Valid()
      reads this
    {
      fields.errno == Ok ==> WellFormed(fields) && Ends(fields.state, heard)
    }

    constructor (typ: ParserType)
      ensures Valid() && heard == Silence
      ensures fields.errno == Ok && fields.typ == typ
      ensures fields.state == (match typ case Request => StartReq case Response => StartRes case Both => StartReqOrRes)
    {
      var state := match typ case Request => StartReq case Response => StartRes case Both => StartReqOrRes;
      fields := Parser(typ, NO_FLAGS, state, HGeneral, 0, 0, 0, 0, 0, Delete, Ok, false);
      heard := Silence;
    }

    // ----- notifications -----

    method Tell(es: seq<Event>)
      modifies `heard
      ensures heard == AddAll(old(heard), es)
    {
      var i := 0;
      while i < |es|
        invariant i <= |es| && AddAll(heard, es[i..]) == AddAll(old(heard), es)
      {
        heard := Add(heard, es[i]);
        i := i + 1;
      }
    }

    /** Hands over the data of kind k that ends before byte i, if any is pending. */
    method HandOver(k: DataKind, marks: Marks, data: seq<Byte>, i: nat) returns (m: Marks)
      requires i <= |data| && MarkOf(marks, k) <= i
      modifies `heard
      ensures heard == Handed(old(heard), marks, [k], data, i)
      ensures m == if MarkOf(marks, k) < 0 then marks else SetMark(marks, k, UNSET)
    {
      m := marks;
      if MarkOf(marks, k) >= 0 {
        heard := Add(heard, Data(k, data[MarkOf(marks, k)..i]));
        m := SetMark(marks, k, UNSET);
      }
    }

    /** What the machine does at byte i. */
    static method Act(ghost f: Steps, answer: Answer, ghost goal: End, p: Parser, told: Stream, ghost m: Marks,
                      ghost d: Desk, data: seq<Byte>, i: nat)
      returns (o: Outcome)
      requires IsMachine(f, answer) && Going(f, goal, p, m, d, data, i) && i < |data| && d.told == told
      ensures o == f(Flushed(d), p, data[i])
    {
      assert Open(0, p, i);
      o := Step(p, data[i], answer(told, p));
      AtByte(f, answer, Flushed(d), p, data[i]);
      SkipUnused(p, data[i], answer(told, p), answer(Flushed(d), p));
    }

    // ----- the states -----

    /** A byte in a state without an inner loop. */
    method TakeByte(ghost f: Steps, answer: Answer, ghost goal: End, data: seq<Byte>, i: nat, marks: Marks,
                    ghost d: Desk)
      returns (j: nat, m: Marks, ghost e: Desk, done: bool)
      requires IsMachine(f, answer) && Going(f, goal, fields, marks, d, data, i) && heard == d.told && i < |data|
      requires !ReadsBody(fields.state)
      modifies this
      ensures if done then Ended(goal, fields, heard, j)
              else j == i + 1 && Going(f, goal, fields, m, e, data, j) && heard == e.told
    {
      var o := Act(f, answer, goal, fields, heard, marks, d, data, i);
      ByteGoes(f, goal, fields, marks, d, data, i, o);
      e := Taken(d, fields.state, data[i], o);
      m := marks;
      if o.flush != [] {
        m := HandOver(o.flush[0], m, data, i);
      } else if o.mark != [] {
        m := SetMark(m, o.mark[0], i);
      }
      Tell(o.tells);
      fields := o.p;
      if o.p.errno != Ok {
        return i, m, e, true;
      }
      if o.leave {
        return i + 1, m, e, true;
      }
      return i + 1, m, e, false;
    }

    /** One more byte of a header name. */
    static method SpellField(ghost f: Steps, ghost goal: End, p: Parser, ghost m: Marks, ghost d: Desk, data: seq<Byte>,
                             i: nat)
      returns (q: Parser)
      requires ReadsFields(f) && Going(f, goal, p, m, d, data, i) && i < |data| && p.state == HeaderField
      requires p.errno == Ok && Token(data[i]) != 0
      ensures q.state == HeaderField && q.errno == Ok
      ensures Going(f, goal, q, m, Desk(d.told, d.kind, d.bytes + [data[i]]), data, i + 1)
    {
      q := FieldByte(p, data[i], Token(data[i]));
      FieldGoes(f, goal, p, m, d, data, i);
    }

    /** A header name. */
    method TakeField(ghost f: Steps, ghost goal: End, data: seq<Byte>, i: nat, marks: Marks, ghost d: Desk)
      returns (j: nat, m: Marks, ghost e: Desk, done: bool)
      requires ReadsFields(f) && Going(f, goal, fields, marks, d, data, i) && heard == d.told && i < |data|
      requires fields.state == HeaderField && fields.errno == Ok
      modifies this
      ensures if done then Ended(goal, fields, heard, j)
              else j > i && Going(f, goal, fields, m, e, data, j) && heard == e.told
    {
      j, m, e := i, marks, d;
      while j < |data| && Token(data[j]) != 0
        invariant i <= j <= |data| && Going(f, goal, fields, m, e, data, j) && heard == e.told
        invariant fields.state == HeaderField && fields.errno == Ok
      {
        var q := SpellField(f, goal, fields, m, e, data, j);
        fields, e, j := q, Desk(e.told, e.kind, e.bytes + [data[j]]), j + 1;
      }
      done := false;
      if j < |data| {
        j, m, e, done := EndField(f, goal, data, j, m, e);
      }
    }

    /** The byte after a header name: a colon, or an error. */
    method EndField(ghost f: Steps, ghost goal: End, data: seq<Byte>, i: nat, marks: Marks, ghost d: Desk)
      returns (j: nat, m: Marks, ghost e: Desk, done: bool)
      requires ReadsFields(f) && Going(f, goal, fields, marks, d, data, i) && heard == d.told && i < |data|
      requires fields.state == HeaderField && fields.errno == Ok && Token(data[i]) == 0
      modifies this
      ensures if done then Ended(goal, fields, heard, j)
              else j > i && Going(f, goal, fields, m, e, data, j) && heard == e.told
    {
      FieldEnds(f, goal, fields, marks, d, data, i);
      if Is(data[i], ':') {
        fields := fields.(state := HeaderValueDiscardWs);
        m := HandOver(Field, marks, data, i);
        return i + 1, m, Desk(heard, [], []), false;
      }
      fields := fields.(errno := InvalidHeaderToken);
      return i, marks, d, true;
    }

    /** The first c in data from i on, or its end. */
    static method FindByte(data: seq<Byte>, i: nat, c: Byte) returns (k: nat)
      requires i <= |data|
      ensures i <= k <= |data| && (k < |data| ==> data[k] == c) && forall x :: i <= x < k ==> data[x] != c
    {
      k := i;
      while k < |data| && data[k] != c
        invariant i <= k <= |data| && forall x :: i <= x < k ==> data[x] != c
      {
        k := k + 1;
      }
    }

    /** The nearer of the next carriage return and the next line feed. */
    static method FindLineEnd(data: seq<Byte>, i: nat) returns (k: nat)
      requires i <= |data|
      ensures i <= k <= |data| && (k < |data| ==> IsLineEnd(data[k])) && forall x :: i <= x < k ==> !IsLineEnd(data[x])
    {
      var cr := FindByte(data, i, CR);
      var lf := FindByte(data, i, LF);
      k := if cr < |data| then if lf < |data| && cr >= lf then lf else cr else lf;
    }

    /** One more byte of a header value. */
    static method SpellValue(ghost f: Steps, ghost goal: End, p: Parser, ghost m: Marks, ghost d: Desk, data: seq<Byte>,
                             i: nat)
      returns (q: Parser)
      requires ReadsValues(f) && Going(f, goal, p, m, d, data, i) && i < |data| && p.state == HeaderValue
      requires p.errno == Ok && !IsLineEnd(data[i])
      ensures q.state == HeaderValue
      ensures if q.errno != Ok then Ended(goal, q, d.told, i)
              else Going(f, goal, q, m, Desk(d.told, d.kind, d.bytes + [data[i]]), data, i + 1)
    {
      q := ValueByte(p, data[i]);
      ValueGoes(f, goal, p, m, d, data, i);
    }

    /** The same, or a jump to the end of the line if the value says nothing about the connection. */
    static method SpellValues(ghost f: Steps, ghost goal: End, p: Parser, ghost m: Marks, ghost d: Desk,
                              data: seq<Byte>,
                              i: nat)
      returns (q: Parser, j: nat, ghost e: Desk)
      requires ReadsValues(f) && Going(f, goal, p, m, d, data, i) && i < |data| && p.state == HeaderValue
      requires p.errno == Ok && !IsLineEnd(data[i])
      ensures q.state == HeaderValue && e.told == d.told
      ensures if q.errno != Ok then Ended(goal, q, d.told, j)
              else i < j <= |data| && Going(f, goal, q, m, e, data, j)
    {
      if p.headerState == HGeneral {
        j := FindLineEnd(data, i);
        ValueSkips(f, goal, p, m, d, data, i, j);
        q, e := p, Desk(d.told, d.kind, Joined(d.bytes, data, i, j));
      } else {
        q := SpellValue(f, goal, p, m, d, data, i);
        j, e := i, d;
        if q.errno == Ok {
          j, e := i + 1, Desk(d.told, d.kind, d.bytes + [data[i]]);
        }
      }
    }

    /** A header value. */
    method TakeValue(ghost f: Steps, ghost goal: End, data: seq<Byte>, i: nat, marks: Marks, ghost d: Desk)
      returns (j: nat, m: Marks, ghost e: Desk, done: bool)
      requires ReadsValues(f) && Going(f, goal, fields, marks, d, data, i) && heard == d.told && i < |data|
      requires fields.state == HeaderValue && fields.errno == Ok
      modifies this
      ensures if done then Ended(goal, fields, heard, j)
              else j > i && Going(f, goal, fields, m, e, data, j) && heard == e.told
    {
      j, m, e := i, marks, d;
      var h := fields.headerState;
      while j < |data| && !IsLineEnd(data[j])
        invariant i <= j <= |data| && Going(f, goal, fields.(headerState := h), m, e, data, j) && heard == e.told
        invariant fields.state == HeaderValue && fields.errno == Ok
      {
        var q;
        q, j, e := SpellValues(f, goal, fields.(headerState := h), m, e, data, j);
        if q.errno != Ok {
          fields := q;
          return j, m, e, true;
        }
        fields, h := q.(headerState := fields.headerState), q.headerState;
      }
      fields := fields.(headerState := h);
      done := false;
      if j < |data| {
        j, m, e := EndValue(f, goal, data, j, m, e);
      }
    }

    /** The end of a header line; a line feed alone ends the line too. */
    method EndValue(ghost f: Steps, ghost goal: End, data: seq<Byte>, i: nat, marks: Marks, ghost d: Desk)
      returns (j: nat, m: Marks, ghost e: Desk)
      requires ReadsValues(f) && Going(f, goal, fields, marks, d, data, i) && heard == d.told && i < |data|
      requires fields.state == HeaderValue && fields.errno == Ok && IsLineEnd(data[i])
      modifies this
      ensures j > i && Going(f, goal, fields, m, e, data, j) && heard == e.told
    {
      ValueEnds(f, goal, fields, marks, d, data, i);
      fields := fields.(state := if data[i] == CR then HeaderAlmostDone else HeaderValueLws);
      m := HandOver(Value, marks, data, i);
      j, e := i + 1, Desk(heard, [], []);
    }

    /** A block of a body, as much as there is. */
    method TakeBody(ghost f: Steps, ghost goal: End, data: seq<Byte>, i: nat, marks: Marks, ghost d: Desk)
      returns (j: nat, m: Marks, ghost e: Desk, done: bool)
      requires ReadsBodies(f) && Going(f, goal, fields, marks, d, data, i) && heard == d.told && i < |data|
      requires ReadsBody(fields.state)
      requires fields.state == BodyIdentityEof || fields.contentLength > 0
      modifies this
      ensures if done then Ended(goal, fields, heard, j)
              else j > i && Going(f, goal, fields, m, e, data, j) && heard == e.told
    {
      MarkedBody(f, goal, fields, marks, d, data, i);
      m := MarkBody(marks, i);
      var n := |data| - i;
      if fields.state != BodyIdentityEof && fields.contentLength < n {
        n := fields.contentLength;
      }
      j := i + n;
      e := Desk(d.told, [Body], Joined(d.bytes, data, i, j));
      if fields.state == BodyIdentityEof || n < fields.contentLength {
        BodyGoes(f, goal, fields, marks, d, data, i, n);
        fields := Drained(fields, n);
        return j, m, e, false;
      }
      BlockEnds(f, goal, fields, marks, d, data, i, n);
      BodyHanded(d, data, i, j);
      fields := fields.(contentLength := 0);
      m, e, done := FinishBody(f, goal, data, j, m, e);
    }

    /** The end of a body, or of a chunk of it, at byte j. */
    method FinishBody(ghost f: Steps, ghost goal: End, data: seq<Byte>, j: nat, marks: Marks, ghost b: Desk)
      returns (m: Marks, ghost e: Desk, done: bool)
      requires BodyRead(f, goal, fields, marks, b, data, j) && heard == b.told
      requires (fields.state == ChunkData || fields.state == BodyIdentity)
      requires j <= |data| && 0 <= marks.body <= j && SetMark(marks, Body, UNSET) == NO_MARKS
      requires Handed(heard, marks, [Body], data, j) == Flushed(b)
      modifies this
      ensures if done then Ended(goal, fields, heard, j) else Going(f, goal, fields, m, e, data, j) && heard == e.told
    {
      assert Open(0, fields, j);
      if fields.state == ChunkData {
        fields := fields.(state := ChunkDataAlmostDone);
        return marks, b, false;
      }
      fields := fields.(state := MessageDone);
      m := HandOver(Body, marks, data, j);
      fields := fields.(state := NewMessage(fields));
      heard := Add(heard, OnMessageComplete);
      return m, Desk(heard, [], []), fields.upgrade;
    }

    /** The end of the connection. */
    method AtEof() returns (n: nat)
      requires fields.errno == Ok
      modifies this
      ensures var s := old(fields.state);
              if s == BodyIdentityEof then
                n == 0 && fields == old(fields) && heard == Add(old(heard), OnMessageComplete)
              else if s in {Dead, StartReqOrRes, StartRes, StartReq} then
                n == 0 && fields == old(fields) && heard == old(heard)
              else n == 1 && fields == old(fields).(errno := InvalidEofState) && heard == old(heard)
    {
      match fields.state
      case BodyIdentityEof =>
        heard := Add(heard, OnMessageComplete);
        n := 0;
      case Dead => n := 0;
      case StartReqOrRes => n := 0;
      case StartRes => n := 0;
      case StartReq => n := 0;
      case _ =>
        fields := fields.(errno := InvalidEofState);
        n := 1;
    }

    /** One buffer, or the end of the connection if it is empty; n bytes are taken. */
    method Execute(data: seq<Byte>, answer: Answer) returns (n: nat)
      requires Valid()
      modifies this
      ensures Valid()
      ensures var e := Called(Machine(answer), old(fields), old(heard), data);
              fields == e.p && heard == e.d.told && n == e.taken
    {
      if fields.errno != Ok {
        return 0;
      }
      if |data| == 0 {
        n := AtEof();
        return;
      }
      n := ExecuteBytes(data, answer);
    }

    method ExecuteBytes(data: seq<Byte>, answer: Answer) returns (n: nat)
      requires WellFormed(fields) && Ends(fields.state, heard)
      modifies this
      ensures Ended(Call(Machine(answer), old(fields), Opened(old(fields), old(heard)), data, 0), fields, heard, n)
    {
      ghost var f, d := Machine(answer), Opened(fields, heard);
      ghost var goal := Call(f, fields, d, data, 0);
      MachineIs(answer);
      MachineIsOrderly(f, answer);
      MachineReadsData(f, answer);
      Starts(f, fields, heard, data);
      var marks := StartMarks(fields.state);
      var done := false;
      n := 0;
      while n < |data|
        invariant Going(f, goal, fields, marks, d, data, n) && heard == d.told
        decreases |data| - n
      {
        Goes(f, goal, fields, marks, d, data, n);
        if fields.state == HeaderField {
          n, marks, d, done := TakeField(f, goal, data, n, marks, d);
        } else if fields.state == HeaderValue {
          n, marks, d, done := TakeValue(f, goal, data, n, marks, d);
        } else if ReadsBody(fields.state) {
          n, marks, d, done := TakeBody(f, goal, data, n, marks, d);
        } else {
          n, marks, d, done := TakeByte(f, answer, goal, data, n, marks, d);
        }
        if done {
          return;
        }
      }
      Goes(f, goal, fields, marks, d, data, n);
      FinishBuffer(f, goal, data, marks, d);
    }

    /** What is pending at the end of a buffer is handed over. */
    method FinishBuffer(ghost f: Steps, ghost goal: End, data: seq<Byte>, marks: Marks, ghost d: Desk)
      requires Going(f, goal, fields, marks, d, data, |data|) && heard == d.told
      modifies `heard
      ensures Ended(goal, fields, heard, |data|)
    {
      var n := |data|;
      Goes(f, goal, fields, marks, d, data, n);
      LeftOver(f, goal, fields, marks, d, data);
      var m := HandOver(Field, marks, data, n);
      m := HandOver(Value, m, data, n);
      m := HandOver(Url, m, data, n);
      m := HandOver(Body, m, data, n);
      m := HandOver(Status, m, data, n);
    }
  }
}
