/** Which URLs the parser takes in a request line. */
module HttpUrls {
  import opened Numbers
  import opened HttpModel
  import opened HttpRun
  import opened HttpCalls
  import opened HttpParser

  // ----- the grammar -----

  /** A visible ASCII character. */
  predicate Visible(d: seq<Byte>) {
    forall i :: 0 <= i < |d| ==> 33 <= d[i] <= 126
  }

  predicate IsAuthorityChar(b: Byte) {
    IsUserinfoChar(b) || Is(b, '[') || Is(b, ']') || Is(b, '@')
  }

  /** Part of an authority, at most one at sign in a row, and after it nothing, or a slash or question mark
      and then anything visible; at says that an at sign came just before. */
  predicate FromAuthority(d: seq<Byte>, at: bool) {
    d != [] ==>
      if Is(d[0], '/') || Is(d[0], '?') then Visible(d[1..])
      else IsAuthorityChar(d[0]) && !(at && Is(d[0], '@')) && FromAuthority(d[1..], Is(d[0], '@'))
  }

  /** What comes after a scheme, or after CONNECT; it is not empty. */
  predicate FromHost(d: seq<Byte>) {
    d != [] && FromAuthority(d, false)
  }

  /** Letters, "://" and a host. */
  predicate FromScheme(d: seq<Byte>) {
    d != [] &&
    if IsAlpha(d[0]) then FromScheme(d[1..])
    else |d| >= 3 && Is(d[0], ':') && Is(d[1], '/') && Is(d[2], '/') && FromHost(d[3..])
  }

  /** A path or an asterisk with whatever visible comes after, or an absolute URL. */
  predicate IsUrl(d: seq<Byte>) {
    d != [] && if Is(d[0], '/') || Is(d[0], '*') then Visible(d[1..]) else IsAlpha(d[0]) && FromScheme(d[1..])
  }

  // ----- the states -----

  /** What may still come in state s, up to the end of the URL. */
  predicate MayCome(s: State, d: seq<Byte>) {
    match s
    case ReqSchema => FromScheme(d)
    case ReqSchemaSlash => |d| >= 2 && Is(d[0], '/') && Is(d[1], '/') && FromHost(d[2..])
    case ReqSchemaSlashSlash => |d| >= 1 && Is(d[0], '/') && FromHost(d[1..])
    case ReqServerStart => FromHost(d)
    case ReqServer => FromAuthority(d, false)
    case ReqServerWithAt => FromAuthority(d, true)
    case _ => Visible(d)
  }

  predicate InUrl(s: State) {
    s == ReqSchema || s == ReqSchemaSlash || s == ReqSchemaSlashSlash || s == ReqServerStart || s == ReqServer
    || s == ReqServerWithAt || s == ReqPath || s == ReqQueryStringStart || s == ReqQueryString
    || s == ReqFragmentStart || s == ReqFragment
  }

  lemma VisibleNext(d: seq<Byte>)
    requires d != []
    ensures Visible(d) <==> 33 <= d[0] <= 126 && Visible(d[1..])
  {
    assert Visible(d[1..]) && 33 <= d[0] <= 126 ==> Visible(d) by {
      if Visible(d[1..]) && 33 <= d[0] <= 126 {
        forall i | 0 <= i < |d| ensures 33 <= d[i] <= 126 {
          assert i > 0 ==> d[i] == d[1..][i - 1];
        }
      }
    }
  }

  lemma PathCharTaken(s: State, d: seq<Byte>)
    requires d != [] && d[0] != SP && d[0] != CR && d[0] != LF
    requires || s == ReqPath
             || s == ReqQueryStringStart
             || s == ReqQueryString
             || s == ReqFragmentStart
             || s == ReqFragment
    ensures var r := ParseUrlChar(s, d[0]);
            MayCome(s, d) <==> r != Dead && InUrl(r) && MayCome(r, d[1..])
  {
    VisibleNext(d);
  }

  lemma HostCharTaken(s: State, d: seq<Byte>)
    requires d != [] && d[0] != SP && d[0] != CR && d[0] != LF
    requires s == ReqSchema || s == ReqSchemaSlash || s == ReqSchemaSlashSlash || s == ReqServerStart || s == ReqServer
             || s == ReqServerWithAt
    ensures var r := ParseUrlChar(s, d[0]);
            MayCome(s, d) <==> r != Dead && InUrl(r) && MayCome(r, d[1..])
  {
  }

  /** One character of a URL. */
  lemma UrlCharTaken(s: State, d: seq<Byte>)
    requires InUrl(s) && d != [] && d[0] != SP && d[0] != CR && d[0] != LF
    ensures var r := ParseUrlChar(s, d[0]);
            MayCome(s, d) <==> r != Dead && InUrl(r) && MayCome(r, d[1..])
  {
    if s == ReqPath || s == ReqQueryStringStart || s == ReqQueryString || s == ReqFragmentStart || s == ReqFragment {
      PathCharTaken(s, d);
    } else {
      HostCharTaken(s, d);
    }
  }

  lemma UrlBegins(connect: bool, d: seq<Byte>)
    requires d != [] && d[0] != SP && d[0] != CR && d[0] != LF
    ensures var r := ParseUrlChar(if connect then ReqServerStart else ReqSpacesBeforeUrl, d[0]);
            (if connect then FromHost(d) else IsUrl(d)) <==> r != Dead && InUrl(r) && MayCome(r, d[1..])
  {
  }

  /** The URL may end here. */
  lemma UrlEnds(s: State)
    requires InUrl(s)
    ensures MayCome(s, []) <==> !InScheme(s)
  {
  }

  // ----- runs -----

  predicate Unbroken(d: seq<Byte>) {
    d != [] && forall i :: 0 <= i < |d| ==> d[i] != SP && d[i] != CR && d[i] != LF
  }

  lemma UrlByte(f: Steps, answer: Answer, s: Stream, q: Parser, ch: Byte)
    requires IsMachine(f, answer) && GroupOf(q.state) == AtUrl
    ensures f(s, q, ch) == StepUrl(q, ch)
  {
    AtByte(f, answer, s, q, ch);
    StepByState(q, ch, answer(s, q));
  }

  lemma InUrlGroup(s: State)
    requires InUrl(s)
    ensures GroupOf(s) == AtUrl && s != ReqSpacesBeforeUrl
  {
  }

  /** One byte of a URL, or the space after it. */
  lemma UrlStep(q: Parser, u: seq<Byte>, k: nat)
    requires q.errno == Ok && InUrl(q.state) && k <= |u|
    requires forall i :: 0 <= i < |u| ==> u[i] != SP && u[i] != CR && u[i] != LF
    ensures var o := StepUrl(q, if k < |u| then u[k] else SP);
            && !o.leave && (o.p.errno == Ok ==> o.p == q.(state := o.p.state))
            && (k < |u| ==>
                  if o.p.errno == Ok then
                    InUrl(o.p.state) && (MayCome(q.state, u[k..]) <==> MayCome(o.p.state, u[k + 1..]))
                  else !MayCome(q.state, u[k..]))
            && (k == |u| ==>
                  (o.p.errno == Ok <==> MayCome(q.state, [])) && (o.p.errno == Ok ==> o.p.state == ReqHttpStart))
  {
    InUrlGroup(q.state);
    if k < |u| {
      var rest := u[k..];
      assert rest[0] == u[k] && rest[1..] == u[k + 1..];
      UrlCharTaken(q.state, rest);
      UrlStays(q.state, u[k]);
    } else {
      UrlEnds(q.state);
    }
  }

  lemma UrlStays(s: State, ch: Byte)
    requires InUrl(s)
    ensures var r := ParseUrlChar(s, ch); r == Dead || InUrl(r)
  {
  }

  lemma {:induction false} UrlRun(f: Steps, answer: Answer, s: Stream, q: Parser, u: seq<Byte>, k: nat)
    requires IsMachine(f, answer) && Unbroken(u) && k <= |u| && q.errno == Ok && InUrl(q.state)
    ensures var r := Run(f, q, s, u + [SP], k).p;
            && (r.errno == Ok <==> MayCome(q.state, u[k..]))
            && (r.errno == Ok ==> r == q.(state := ReqHttpStart))
    decreases |u| - k
  {
    var d := u + [SP];
    assert d[k] == if k < |u| then u[k] else SP;
    InUrlGroup(q.state);
    UrlByte(f, answer, s, q, d[k]);
    UrlStep(q, u, k);
    var o := f(s, q, d[k]);
    var t := Hear(s, q.state, d[k], o);
    if k < |u| {
      if o.p.errno == Ok {
        UrlRun(f, answer, t, o.p, u, k + 1);
      }
    } else {
      assert u[k..] == [];
      assert o.p.errno == Ok ==> Run(f, o.p, t, d, k + 1).p == o.p;
    }
  }

  /** A URL and the space after it: no error just if the grammar says so. */
  lemma UrlRead(f: Steps, answer: Answer, p: Parser, s: Stream, u: seq<Byte>)
    requires IsMachine(f, answer) && p.state == ReqSpacesBeforeUrl && p.errno == Ok && Unbroken(u)
    ensures var r := Run(f, p, s, u + [SP], 0).p;
            && (r.errno == Ok <==> if p.meth == Connect then FromHost(u) else IsUrl(u))
            && (r.errno == Ok ==> r == p.(state := ReqHttpStart))
  {
    var d := u + [SP];
    UrlByte(f, answer, s, p, d[0]);
    UrlBegins(p.meth == Connect, u);
    UrlStarts(p.meth == Connect, u[0]);
    var o := f(s, p, d[0]);
    if o.p.errno == Ok {
      UrlRun(f, answer, Hear(s, p.state, d[0], o), o.p, u, 1);
    }
  }

  lemma UrlStarts(connect: bool, ch: Byte)
    ensures var r := ParseUrlChar(if connect then ReqServerStart else ReqSpacesBeforeUrl, ch); r == Dead || InUrl(r)
  {
  }
}
