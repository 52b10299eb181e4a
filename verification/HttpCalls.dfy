/**
 The notifications a parser makes while it reads one buffer: data is handed over in one piece, when a
 byte ends it or at the end of the buffer, and data that an error interrupts is never handed over.
 */
module HttpCalls {
  import opened Numbers
  import opened HttpModel
  import opened HttpRun

  type Steps = (Stream, Parser, Byte) -> Outcome

  /** What the application was told, and the data of this buffer that it was not told of yet. */
  datatype Desk = Desk(told: Stream, kind: seq<DataKind>, bytes: seq<Byte>)

  function Flushed(d: Desk): (s: Stream) {
    if d.kind == [] then d.told else Add(d.told, Data(d.kind[0], d.bytes))
  }

  /** The desk after a byte that was read in state before. */
  function Taken(d: Desk, before: State, ch: Byte, o: Outcome): (r: Desk) {
    if o.p.errno != Ok then Desk(AddAll(d.told, o.tells), d.kind, d.bytes)
    else if ReadsBody(before) then
      var b := Desk(d.told, [Body], d.bytes + [ch]);
      if o.tells == [] then b else Desk(AddAll(Flushed(b), o.tells), [], [])
    else if o.flush != [] then Desk(Flushed(d), [], [])
    else if d.kind != [] then Desk(d.told, d.kind, d.bytes + [ch])
    else Desk(AddAll(d.told, o.tells), o.mark, if o.mark == [] then [] else [ch])
  }

  datatype End = End(p: Parser, d: Desk, taken: nat, stopped: bool)

  /** One call of the parser, from byte i of its buffer on. */
  function Call(f: Steps, p: Parser, d: Desk, data: seq<Byte>, i: nat): (e: End)
    requires i <= |data|
    ensures !e.stopped ==> e.taken == |data|
    decreases |data| - i
  {
    if i == |data| then End(p, Desk(Flushed(d), [], []), i, false)
    else
      var o := f(Flushed(d), p, data[i]);
      var d' := Taken(d, p.state, data[i], o);
      if o.p.errno != Ok then End(o.p, d', i, true)
      else if o.leave then End(o.p, d', i + 1, true)
      else Call(f, o.p, d', data, i + 1)
  }

  // ----- the parser's machine, without its transitions -----

  /** f is the machine for answer. */
  ghost predicate IsMachine(f: Steps, answer: Answer) {
    forall x: nat :: HttpModel.Expand(x) ==> f == Machine(answer)
  }

  lemma MachineIs(answer: Answer)
    ensures IsMachine(Machine(answer), answer)
  {
  }

  lemma AtByte(f: Steps, answer: Answer, s: Stream, p: Parser, ch: Byte)
    requires IsMachine(f, answer)
    ensures f(s, p, ch) == Step(p, ch, answer(s, p))
  {
    assert HttpModel.Expand(0);
  }

  /** Bytes are handed over as data where they should be, and the fields stay well-formed. */
  ghost predicate OrderlyAt(f: Steps, s: Stream, p: Parser, ch: Byte) {
    WellFormed(p) ==> Follows(p.state, f(s, p, ch)) && (f(s, p, ch).p.errno == Ok ==> WellFormed(f(s, p, ch).p))
  }

  ghost predicate Orderly(f: Steps) {
    forall s, p, ch :: OrderlyAt(f, s, p, ch)
  }

  lemma MachineIsOrderly(f: Steps, answer: Answer)
    requires IsMachine(f, answer)
    ensures Orderly(f)
  {
    forall s, p, ch ensures OrderlyAt(f, s, p, ch) {
      if WellFormed(p) {
        AtByte(f, answer, s, p, ch);
        StepOrderly(p, ch, answer(s, p));
      }
    }
  }

  lemma StepOrderly(p: Parser, ch: Byte, skip: bool)
    requires WellFormed(p)
    ensures var o := Step(p, ch, skip); Follows(p.state, o) && (o.p.errno == Ok ==> WellFormed(o.p))
  {
    StepShaped(p, ch, skip);
    assert HttpModel.Expand(0);
    if Step(p, ch, skip).p.errno == Ok {
      StepKeeps(p, ch, skip);
    }
  }

  lemma Steady(f: Steps, s: Stream, p: Parser, ch: Byte)
    requires Orderly(f) && WellFormed(p)
    ensures Follows(p.state, f(s, p, ch))
    ensures f(s, p, ch).p.errno == Ok ==> WellFormed(f(s, p, ch).p)
  {
    assert OrderlyAt(f, s, p, ch);
  }

  // ----- what is pending -----

  predicate EndsWith(s: Stream, k: DataKind) {
    s.Heard? && s.e.Data? && s.e.kind == k
  }

  /** The desk fits state: data is pending just where its bytes are read. */
  predicate Pends(state: State, d: Desk) {
    && (if Marked(state) != [] then d.kind == Marked(state) else d.kind == [] || (d.kind == [Body] && InBody(state)))
    && (d.kind == [] ==> d.bytes == [])
    && (d.kind != [] && d.bytes == [] ==> EndsWith(d.told, d.kind[0]))
  }

  /** The desk at the start of a buffer. */
  function Opened(p: Parser, told: Stream): (d: Desk) {
    Desk(told, Marked(p.state), [])
  }

  predicate Ends(state: State, s: Stream) {
    Marked(state) != [] ==> EndsWith(s, Marked(state)[0])
  }

  lemma OpenedPends(p: Parser, told: Stream)
    requires Ends(p.state, told)
    ensures Pends(p.state, Opened(p, told)) && Flushed(Opened(p, told)) == told
  {
    if Marked(p.state) != [] {
      assert told.e.bytes + [] == told.e.bytes;
    }
  }

  lemma FlushedEnds(state: State, d: Desk)
    requires Pends(state, d)
    ensures Ends(state, Flushed(d))
  {
  }

  lemma {:induction false} TakenPends(d: Desk, before: State, ch: Byte, o: Outcome)
    requires Pends(before, d) && Follows(before, o) && o.p.errno == Ok
    ensures Pends(o.p.state, Taken(d, before, ch, o))
    ensures o.leave ==> Taken(d, before, ch, o).kind == []
  {
  }

  /** Another byte of pending data, or a first one. */
  lemma Grows(d: Desk, k: DataKind, ch: Byte)
    requires d.kind == [k] || (d.kind == [] && d.bytes == [])
    ensures Flushed(Desk(d.told, [k], d.bytes + [ch])) == Add(Flushed(d), Data(k, [ch]))
  {
    if d.kind == [] {
      assert d.bytes + [ch] == [ch];
    } else {
      AddTwice(d.told, k, d.bytes, [ch]);
    }
  }

  lemma {:induction false} BodyHears(d: Desk, before: State, ch: Byte, o: Outcome)
    requires Pends(before, d) && Follows(before, o) && ReadsBody(before)
    ensures Flushed(Taken(d, before, ch, o)) == Hear(Flushed(d), before, ch, o)
  {
    Grows(d, Body, ch);
  }

  lemma {:induction false} TakenHears(d: Desk, before: State, ch: Byte, o: Outcome)
    requires Pends(before, d) && Follows(before, o)
    ensures Flushed(Taken(d, before, ch, o)) == Hear(Flushed(d), before, ch, o)
  {
    if ReadsBody(before) {
      BodyHears(d, before, ch, o);
    } else if o.p.errno == Ok && o.flush == [] && d.kind != [] {
      Grows(d, d.kind[0], ch);
    }
  }

  /** Unless an error interrupts data, an application is told what the bytes amount to. */
  lemma {:induction false} CallIsRun(f: Steps, p: Parser, d: Desk, data: seq<Byte>, i: nat)
    requires Orderly(f) && WellFormed(p) && Pends(p.state, d) && i <= |data|
    ensures var c, r := Call(f, p, d, data, i), Run(f, p, Flushed(d), data, i);
            && c.p == r.p
            && c.taken == r.taken
            && c.stopped == r.stopped
            && Flushed(c.d) == r.s
            && (c.p.errno == Ok ==> c.d.kind == [])
    decreases |data| - i
  {
    if i < |data| {
      var o := f(Flushed(d), p, data[i]);
      Steady(f, Flushed(d), p, data[i]);
      TakenHears(d, p.state, data[i], o);
      if o.p.errno == Ok {
        TakenPends(d, p.state, data[i], o);
        if !o.leave {
          CallIsRun(f, o.p, Taken(d, p.state, data[i], o), data, i + 1);
        }
      }
    }
  }
}
