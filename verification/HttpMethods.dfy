/** Method names: which words begin a request, and which method each of them leaves. */
module HttpMethods {
  import opened Numbers
  import opened HttpModel
  import opened HttpRun
  import opened HttpCalls
  import opened HttpParser

  /** The first k bytes of w are those of the name of m. */
  predicate SpellsTo(w: seq<Byte>, k: nat, m: Method) {
    k <= |w| && k <= |MethodName(m)| && forall i :: 0 <= i < k ==> Is(w[i], MethodName(m)[i])
  }

  predicate IsMethod(w: seq<Byte>, m: Method) {
    |w| == |MethodName(m)| && SpellsTo(w, |w|, m)
  }

  // ----- switching from one method to another -----

  /** Names are made of capitals and dashes. */
  predicate Plain(name: string) {
    |name| >= 3 && forall i :: 0 <= i < |name| ==> 'A' <= name[i] <= 'Z' || name[i] == '-'
  }

  lemma NamesPlain(m: Method)
    ensures Plain(MethodName(m))
  {
  }

  /** The method that the parser switches from when it finds out that m is meant, and where it does. */
  function Before(m: Method): (r: (Method, nat)) {
    match m
    case Checkout => (Connect, 1) case Copy => (Connect, 2)
    case Move => (MkCol, 1) case Merge => (MkCol, 1) case MSearch => (MkCol, 1)
    case MkActivity => (MkCol, 2) case MkCalendar => (MkCol, 3)
    case Search => (Subscribe, 1)
    case PropFind => (Post, 1) case Put => (Post, 1) case Patch => (Post, 1)
    case Purge => (Put, 2) case PropPatch => (PropFind, 4)
    case Unsubscribe => (Unlock, 2)
    case _ => (m, 0)
  }

  /** The method that the parser takes it for after k bytes of the name of m. */
  function Guess(m: Method, k: nat): (g: Method)
    decreases Before(m).1
  {
    var (from, at) := Before(m);
    if at == 0 || k > at then m
    else
      assert Before(from).1 < at;
      Guess(from, k)
  }

  predicate SameTo(a: string, b: string, k: nat) {
    k <= |a| && k <= |b| && a[..k] == b[..k]
  }

  lemma SwitchedNames(m: Method)
    ensures var (from, at) := Before(m);
            at > 0 ==>
              && SameTo(MethodName(m), MethodName(from), at) && at < |MethodName(m)|
              && Guess(from, at) == from
              && MethodChar(from, at) != MethodName(m)[at] as int
              && OtherMethod(from, at, MethodName(m)[at] as int) == [m]
  {
  }

  /** The next letter of the name of m: the guess stays, or is switched as it should be. */
  lemma {:induction false} NextGuess(m: Method, k: nat)
    requires 1 <= k < |MethodName(m)|
    ensures var g, ch := Guess(m, k), MethodName(m)[k] as int;
            if Guess(m, k + 1) == g then MethodChar(g, k) == ch
            else MethodChar(g, k) != ch && OtherMethod(g, k, ch) == [Guess(m, k + 1)]
    decreases Before(m).1
  {
    var (from, at) := Before(m);
    SwitchedNames(m);
    if at > 0 && k < at {
      assert MethodName(m)[..at][k] == MethodName(from)[..at][k];
      NextGuess(from, k);
    }
  }

  lemma FirstGuess(m: Method)
    ensures FirstMethod(MethodName(m)[0] as int) == [Guess(m, 1)]
  {
  }

  /** The other method begins in the same way, and goes on with ch. */
  lemma OtherAgrees(m: Method, i: nat, ch: Byte)
    requires OtherMethod(m, i, ch) != []
    ensures var other := OtherMethod(m, i, ch)[0];
            && SameTo(MethodName(m), MethodName(other), i) && i < |MethodName(other)| && Is(ch, MethodName(other)[i])
  {
  }

  lemma FirstAgrees(ch: Byte)
    requires FirstMethod(ch) != []
    ensures Is(ch, MethodName(FirstMethod(ch)[0])[0])
  {
  }

  // ----- runs -----

  /** The parser after k bytes of a word that it takes for m. */
  predicate InMethod(q: Parser, w: seq<Byte>, k: nat) {
    q.state == ReqMethod && q.errno == Ok && q.index == k && SpellsTo(w, k, q.meth)
  }

  lemma SpellsSame(w: seq<Byte>, k: nat, m: Method, other: Method)
    requires SpellsTo(w, k, m) && SameTo(MethodName(m), MethodName(other), k)
    ensures SpellsTo(w, k, other)
  {
    forall i | 0 <= i < k ensures Is(w[i], MethodName(other)[i]) {
      assert MethodName(m)[..k][i] == MethodName(other)[..k][i];
    }
  }

  /** One byte of a word. */
  lemma WordByte(q: Parser, w: seq<Byte>, k: nat)
    requires InMethod(q, w, k) && k < |w| && w[k] != SP
    ensures var o := StepMethod(q, w[k]);
            !o.leave && (o.p.errno == Ok ==> InMethod(o.p, w, k + 1) && o.p == q.(meth := o.p.meth, index := k + 1))
  {
    var other := OtherMethod(q.meth, k, w[k]);
    if other != [] {
      OtherAgrees(q.meth, k, w[k]);
      SpellsSame(w, k, q.meth, other[0]);
    }
  }

  /** The space after it. */
  lemma WordEnd(q: Parser, w: seq<Byte>)
    requires InMethod(q, w, |w|)
    ensures var o := StepMethod(q, SP);
            && (o.p.errno == Ok <==> IsMethod(w, q.meth))
            && (o.p.errno == Ok ==> o.p == q.(state := ReqSpacesBeforeUrl, index := |w| + 1) && !o.leave)
  {
    NamesPlain(q.meth);
    if OtherMethod(q.meth, |w|, SP) != [] {
      OtherAgrees(q.meth, |w|, SP);
      NamesPlain(OtherMethod(q.meth, |w|, SP)[0]);
    }
  }

  lemma MethodByte(f: Steps, answer: Answer, s: Stream, q: Parser, ch: Byte)
    requires IsMachine(f, answer) && q.state == ReqMethod
    ensures f(s, q, ch) == StepMethod(q, ch)
  {
    AtByte(f, answer, s, q, ch);
    StepByState(q, ch, answer(s, q));
  }

  predicate IsWord(w: seq<Byte>) {
    w != [] && forall i :: 0 <= i < |w| ==> w[i] != SP
  }

  /** What a run ends in, if it began at p: no error just if w is the name of a method, and then that one. */
  predicate Ends(r: Parser, p: Parser, w: seq<Byte>) {
    && (r.errno == Ok <==> exists m :: IsMethod(w, m))
    && (r.errno == Ok ==>
          && (forall m :: IsMethod(w, m) <==> m == r.meth)
          && r == p.(state := ReqSpacesBeforeUrl, meth := r.meth, index := |w| + 1))
  }

  lemma GuessEnds(m: Method)
    ensures Guess(m, |MethodName(m)|) == m
  {
    SwitchedNames(m);
  }

  /** Any word. */
  lemma {:induction false} WordRun(f: Steps, answer: Answer, s: Stream, q: Parser, w: seq<Byte>, k: nat)
    requires IsMachine(f, answer) && IsWord(w) && 1 <= k <= |w| && InMethod(q, w, k)
    ensures var r := Run(f, q, s, w + [SP], k).p;
            r.errno == Ok ==>
              IsMethod(w, r.meth) && r == q.(state := ReqSpacesBeforeUrl, meth := r.meth, index := |w| + 1)
    decreases |w| - k
  {
    var d := w + [SP];
    MethodByte(f, answer, s, q, d[k]);
    var o := f(s, q, d[k]);
    if k < |w| {
      WordByte(q, w, k);
      if o.p.errno == Ok {
        WordRun(f, answer, Hear(s, q.state, d[k], o), o.p, w, k + 1);
      }
    } else {
      WordEnd(q, w);
      assert o.p.errno == Ok ==> Run(f, o.p, Hear(s, q.state, d[k], o), d, k + 1).p == o.p;
    }
  }

  /** If m is meant, its next letter is no error and leaves the next guess; nor is the space after it. */
  lemma GuessByte(f: Steps, answer: Answer, s: Stream, q: Parser, w: seq<Byte>, k: nat, m: Method)
    requires IsMachine(f, answer) && IsWord(w) && 1 <= k <= |w| && InMethod(q, w, k)
    requires IsMethod(w, m) && q.meth == Guess(m, k)
    ensures var o := f(s, q, if k < |w| then w[k] else SP);
            && o.p.errno == Ok && !o.leave
            && (if k < |w| then InMethod(o.p, w, k + 1) && o.p.meth == Guess(m, k + 1) else o.p.meth == m)
  {
    MethodByte(f, answer, s, q, if k < |w| then w[k] else SP);
    if k < |w| {
      WordByte(q, w, k);
      NextGuess(m, k);
      NamesPlain(m);
    } else {
      GuessEnds(m);
      WordEnd(q, w);
    }
  }

  /** The name of a method. */
  lemma {:induction false} NameRun(f: Steps, answer: Answer, s: Stream, q: Parser, w: seq<Byte>, k: nat, m: Method)
    requires IsMachine(f, answer) && IsWord(w) && 1 <= k <= |w| && InMethod(q, w, k)
    requires IsMethod(w, m) && q.meth == Guess(m, k)
    ensures var r := Run(f, q, s, w + [SP], k).p; r.errno == Ok && r.meth == m
    decreases |w| - k
  {
    var d := w + [SP];
    assert d[k] == if k < |w| then w[k] else SP;
    GuessByte(f, answer, s, q, w, k, m);
    var o := f(s, q, d[k]);
    if k < |w| {
      NameRun(f, answer, Hear(s, q.state, d[k], o), o.p, w, k + 1, m);
    } else {
      assert Run(f, o.p, Hear(s, q.state, d[k], o), d, k + 1).p == o.p;
    }
  }

  lemma StartByte(f: Steps, answer: Answer, s: Stream, p: Parser, ch: Byte)
    requires IsMachine(f, answer) && p.state == StartReq
    ensures f(s, p, ch) == StepStartReq(p, ch)
  {
    AtByte(f, answer, s, p, ch);
    StepByState(p, ch, answer(s, p));
  }

  /** A word and a space at the start of a request: no error just if it is the name of a method, and then
      that method is remembered. */
  lemma MethodRead(f: Steps, answer: Answer, p: Parser, s: Stream, w: seq<Byte>)
    requires IsMachine(f, answer) && p.state == StartReq && p.errno == Ok && IsWord(w) && w[0] != CR && w[0] != LF
    ensures Ends(Run(f, p, s, w + [SP], 0).p, Fresh(p), w)
  {
    var d := w + [SP];
    StartByte(f, answer, s, p, d[0]);
    var o := f(s, p, d[0]);
    if FirstMethod(w[0]) != [] {
      FirstAgrees(w[0]);
      NamesPlain(o.p.meth);
      var t := Hear(s, p.state, d[0], o);
      WordRun(f, answer, t, o.p, w, 1);
      var r := Run(f, o.p, t, d, 1).p;
      forall m | IsMethod(w, m) ensures r.errno == Ok && r.meth == m {
        FirstGuess(m);
        NameRun(f, answer, t, o.p, w, 1, m);
      }
    } else {
      forall m | IsMethod(w, m) ensures false {
        FirstGuess(m);
      }
    }
  }
}
