/**
 How a stream of bytes is cut into buffers does not matter: the parser ends with the same fields and
 the application hears the same, data put together, unless there is an error.
 */
module HttpFragments {
  import opened Numbers
  import opened HttpModel
  import opened HttpRun
  import opened HttpCalls
  import opened HttpParser

  // ----- any number of pieces -----

  function Whole(pieces: seq<seq<Byte>>): (data: seq<Byte>) {
    if pieces == [] then [] else pieces[0] + Whole(pieces[1..])
  }

  /** One call for each piece, until one stops. */
  function CalledAll(f: Steps, p: Parser, told: Stream, pieces: seq<seq<Byte>>): (e: End)
    decreases |pieces|
  {
    if pieces == [] then End(p, Desk(told, [], []), 0, p.errno != Ok)
    else
      var e := Called(f, p, told, pieces[0]);
      if e.stopped then e
      else
        var r := CalledAll(f, e.p, e.d.told, pieces[1..]);
        r.(taken := |pieces[0]| + r.taken)
  }

  lemma {:induction false} CallKeeps(f: Steps, p: Parser, d: Desk, data: seq<Byte>, i: nat)
    requires Orderly(f) && WellFormed(p) && Pends(p.state, d) && i <= |data|
    ensures var c := Call(f, p, d, data, i);
            !c.stopped ==> c.p.errno == Ok && WellFormed(c.p) && Ends(c.p.state, c.d.told)
    decreases |data| - i
  {
    if i == |data| {
      FlushedEnds(p.state, d);
      assert HttpModel.Expand(0);
    } else {
      var o := f(Flushed(d), p, data[i]);
      Steady(f, Flushed(d), p, data[i]);
      if o.p.errno == Ok {
        TakenPends(d, p.state, data[i], o);
        if !o.leave {
          CallKeeps(f, o.p, Taken(d, p.state, data[i], o), data, i + 1);
        }
      }
    }
  }

  /** A call from its start, for any machine. */
  lemma CallFromStart(f: Steps, p: Parser, told: Stream, data: seq<Byte>)
    requires Orderly(f) && WellFormed(p) && Ends(p.state, told)
    ensures var c, r := Call(f, p, Opened(p, told), data, 0), Run(f, p, told, data, 0);
            c.p == r.p && c.taken == r.taken && c.stopped == r.stopped && (c.p.errno == Ok ==> c.d.told == r.s)
            && (!c.stopped ==> c.p.errno == Ok && WellFormed(c.p) && Ends(c.p.state, c.d.told))
  {
    OpenedPends(p, told);
    CallIsRun(f, p, Opened(p, told), data, 0);
    CallKeeps(f, p, Opened(p, told), data, 0);
  }

  /** a and b end alike, but for what they were to hand over when there was an error. */
  predicate Alike(a: End, b: End) {
    a.p == b.p && a.taken == b.taken && a.stopped == b.stopped && (a.p.errno == Ok ==> a.d.told == b.d.told)
  }

  lemma CutCall(f: Steps, p: Parser, told: Stream, x: seq<Byte>, y: seq<Byte>)
    requires Orderly(f) && WellFormed(p) && Ends(p.state, told)
    ensures var e := Call(f, p, Opened(p, told), x, 0);
            var c := Call(f, e.p, Opened(e.p, e.d.told), y, 0);
            Alike(if e.stopped then e else c.(taken := |x| + c.taken), Call(f, p, Opened(p, told), x + y, 0))
  {
    CallFromStart(f, p, told, x);
    CallFromStart(f, p, told, x + y);
    RunInPieces(f, p, told, x, y);
    var e := Call(f, p, Opened(p, told), x, 0);
    if !e.stopped {
      CallFromStart(f, e.p, e.d.told, y);
    }
  }

  /** A call that is made. */
  lemma CalledIs(f: Steps, p: Parser, told: Stream, data: seq<Byte>)
    requires p.errno == Ok && data != []
    ensures Called(f, p, told, data) == Call(f, p, Opened(p, told), data, 0)
  {
  }

  /** One cut. */
  lemma CutAnywhere(f: Steps, p: Parser, told: Stream, x: seq<Byte>, y: seq<Byte>)
    requires Orderly(f) && WellFormed(p) && Ends(p.state, told) && x != [] && y != []
    ensures var e := Called(f, p, told, x);
            var c := Called(f, e.p, e.d.told, y);
            Alike(if e.stopped then e else c.(taken := |x| + c.taken), Called(f, p, told, x + y))
            && (!e.stopped ==> WellFormed(e.p) && Ends(e.p.state, e.d.told))
  {
    WellFormedOk(p);
    CalledIs(f, p, told, x);
    CalledIs(f, p, told, x + y);
    CallFromStart(f, p, told, x);
    CutCall(f, p, told, x, y);
    var e := Called(f, p, told, x);
    if !e.stopped {
      CalledIs(f, e.p, e.d.told, y);
    }
  }

  lemma WellFormedOk(p: Parser)
    requires WellFormed(p)
    ensures p.errno == Ok
  {
    assert HttpModel.Expand(0);
  }

  lemma CalledAllStep(f: Steps, p: Parser, told: Stream, pieces: seq<seq<Byte>>)
    requires pieces != []
    ensures var e := Called(f, p, told, pieces[0]);
            var r := CalledAll(f, e.p, e.d.told, pieces[1..]);
            CalledAll(f, p, told, pieces) == if e.stopped then e else r.(taken := |pieces[0]| + r.taken)
  {
  }

  lemma CalledOnce(f: Steps, p: Parser, told: Stream, x: seq<Byte>)
    requires Orderly(f) && WellFormed(p) && Ends(p.state, told) && x != []
    ensures Alike(CalledAll(f, p, told, [x]), Called(f, p, told, x))
  {
    CalledAllStep(f, p, told, [x]);
    WellFormedOk(p);
    CalledIs(f, p, told, x);
    CallFromStart(f, p, told, x);
    var e := Called(f, p, told, x);
    assert CalledAll(f, e.p, e.d.told, []) == End(e.p, Desk(e.d.told, [], []), 0, e.p.errno != Ok);
  }

  /** The cuts do not matter to any machine that hands over data as it should. */
  lemma {:induction false} OrderlyFragments(f: Steps, p: Parser, told: Stream, pieces: seq<seq<Byte>>)
    requires Orderly(f) && WellFormed(p) && Ends(p.state, told) && pieces != []
    requires forall i :: 0 <= i < |pieces| ==> pieces[i] != []
    ensures Alike(CalledAll(f, p, told, pieces), Called(f, p, told, Whole(pieces)))
    decreases |pieces|
  {
    var x, y := pieces[0], Whole(pieces[1..]);
    if |pieces| == 1 {
      assert pieces == [x] && x + y == x;
      CalledOnce(f, p, told, x);
    } else {
      assert pieces[1..][0] == pieces[1];
      CutAnywhere(f, p, told, x, y);
      CalledAllStep(f, p, told, pieces);
      var e := Called(f, p, told, x);
      if !e.stopped {
        OrderlyFragments(f, e.p, e.d.told, pieces[1..]);
      }
    }
  }

  /** However a stream of bytes is cut into buffers, the fields end the same, as many bytes are taken,
      and the application hears the same, unless there is an error. */
  lemma FragmentationInvariance(f: Steps, answer: Answer, p: Parser, told: Stream, pieces: seq<seq<Byte>>)
    requires f == Machine(answer) && WellFormed(p) && Ends(p.state, told) && pieces != []
    requires forall i :: 0 <= i < |pieces| ==> pieces[i] != []
    ensures Alike(CalledAll(f, p, told, pieces), Called(f, p, told, Whole(pieces)))
  {
    MachineIsOrderly(f, answer);
    OrderlyFragments(f, p, told, pieces);
  }
}
