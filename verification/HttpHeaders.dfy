/**
 What header lines mean, byte by byte: which names and values the parser recognizes, and what it
 remembers of them once the next line begins.
 */
module HttpHeaders {
  import opened Numbers
  import opened HttpModel
  import opened HttpRun
  import opened HttpCalls
  import opened HttpParser
  import opened HttpLengths

  // ----- runs that get on -----

  // Always true. Mentioning it opens Leads.
  ghost predicate Open(x: nat, p: Parser) {
    true
  }

  /** Whatever was heard, the bytes d lead from p to q without an error or an early return. */
  ghost predicate Leads(f: Steps, p: Parser, d: seq<Byte>, q: Parser) {
    forall x: nat, s :: Open(x, p) ==> LeadsAt(f, p, s, d, q)
  }

  ghost predicate LeadsAt(f: Steps, p: Parser, s: Stream, d: seq<Byte>, q: Parser) {
    var r := Run(f, p, s, d, 0); r.p == q && !r.stopped
  }

  lemma LeadsNowhere(f: Steps, p: Parser)
    ensures Leads(f, p, [], p)
  {
  }

  lemma LeadsOn(f: Steps, p: Parser, x: seq<Byte>, q: Parser, y: seq<Byte>, r: Parser)
    requires Leads(f, p, x, q) && Leads(f, q, y, r)
    ensures Leads(f, p, x + y, r)
  {
    assert Open(0, p) && Open(0, q);
    forall s ensures LeadsAt(f, p, s, x + y, r) {
      assert LeadsAt(f, p, s, x, q);
      assert LeadsAt(f, q, Run(f, p, s, x, 0).s, y, r);
      RunInPieces(f, p, s, x, y);
    }
  }

  /** One byte. */
  ghost predicate Moves(f: Steps, p: Parser, ch: Byte, q: Parser) {
    q.errno == Ok && forall s :: MovesAt(f, p, s, ch, q)
  }

  ghost predicate MovesAt(f: Steps, p: Parser, s: Stream, ch: Byte, q: Parser) {
    f(s, p, ch).p == q && !f(s, p, ch).leave
  }

  lemma LeadsByte(f: Steps, p: Parser, ch: Byte, q: Parser)
    requires Moves(f, p, ch, q)
    ensures Leads(f, p, [ch], q)
  {
    forall s ensures LeadsAt(f, p, s, [ch], q) {
      assert MovesAt(f, p, s, ch, q);
      var o := f(s, p, ch);
      assert Run(f, o.p, Hear(s, p.state, ch, o), [ch], 1) == Result(o.p, Hear(s, p.state, ch, o), 1, false);
    }
  }

  /** A byte that does the same whatever the application answers. */
  lemma MovesBy(f: Steps, answer: Answer, p: Parser, ch: Byte, q: Parser)
    requires IsMachine(f, answer) && q.errno == Ok
    requires forall skip :: Step(p, ch, skip).p == q && !Step(p, ch, skip).leave
    ensures Moves(f, p, ch, q)
  {
    forall s ensures MovesAt(f, p, s, ch, q) {
      AtByte(f, answer, s, p, ch);
    }
  }

  // ----- letters -----

  /** b is the letter c, a capital or not, or the character c. */
  predicate IsLetter(b: Byte, c: char) {
    Is(b, c) || ('a' <= c <= 'z' && b == c as int - 32)
  }

  /** The first k bytes of d are the beginning of word, whatever the case of its letters. */
  predicate Begins(d: seq<Byte>, k: nat, word: string) {
    k <= |d| && k <= |word| && forall i :: 0 <= i < k ==> IsLetter(d[i], word[i])
  }

  /** d is word, whatever the case of its letters. */
  predicate Spells(d: seq<Byte>, word: string) {
    |d| == |word| && Begins(d, |d|, word)
  }

  /** d is word and then nothing but spaces. */
  predicate SpellsPadded(d: seq<Byte>, word: string) {
    Begins(d, |word|, word) && forall i :: |word| <= i < |d| ==> d[i] == SP
  }

  lemma BeginsNext(d: seq<Byte>, k: nat, word: string)
    requires k < |d|
    ensures Begins(d, k + 1, word) <==> Begins(d, k, word) && k < |word| && IsLetter(d[k], word[k])
  {
  }

  predicate IsWordChar(c: char) {
    'a' <= c <= 'z' || c == '-'
  }

  lemma TokenIsLetter(b: Byte, c: char)
    requires IsWordChar(c)
    ensures Is(Token(b), c) <==> IsLetter(b, c)
  {
  }

  lemma LowerIsLetter(b: Byte, c: char)
    requires IsWordChar(c) && b != CR
    ensures Is(Lower(b), c) <==> IsLetter(b, c)
  {
  }

  // ----- names -----

  /** What the parser has recognized after the first k bytes of a name. */
  function NameState(name: seq<Byte>, k: nat): (h: HeaderState)
    requires k <= |name|
  {
    if k == 0 then HGeneral
    else if Begins(name, k, "connection") then
      if k == 1 then HC else if k == 2 then HCO else if k == 3 then HCON
      else if k == 10 then HConnection else HMatchingConnection
    else if Begins(name, k, "content-length") then if k == 14 then HContentLength else HMatchingContentLength
    else if Begins(name, k, "proxy-connection") then if k == 16 then HConnection else HMatchingProxyConnection
    else if Begins(name, k, "transfer-encoding") then if k == 17 then HTransferEncoding else HMatchingTransferEncoding
    else if Begins(name, k, "upgrade") then if k == 7 then HUpgrade else HMatchingUpgrade
    else HGeneral
  }

  predicate Partial(h: HeaderState) {
    h == HC || h == HCO || h == HCON || h == HMatchingConnection || h == HMatchingContentLength
    || h == HMatchingProxyConnection || h == HMatchingTransferEncoding || h == HMatchingUpgrade
  }

  predicate IsName(name: seq<Byte>) {
    name != [] && forall i :: 0 <= i < |name| ==> Token(name[i]) != 0
  }

  /** The parser after the first k bytes of a name. */
  ghost predicate InName(p: Parser, q: Parser, name: seq<Byte>, k: nat)
    requires 1 <= k <= |name|
  {
    forall x: nat :: Open(x, q) ==>
      && q == p.(state := HeaderField, headerState := NameState(name, k), index := q.index)
      && (Partial(q.headerState) ==> q.index == k - 1)
  }

  lemma FirstLetter(name: seq<Byte>)
    requires IsName(name)
    ensures NameState(name, 1) == HeaderStateOf(Token(name[0]))
  {
    TokenIsLetter(name[0], 'c');
    TokenIsLetter(name[0], 'p');
    TokenIsLetter(name[0], 't');
    TokenIsLetter(name[0], 'u');
  }

  /** The next letter of one word. */
  lemma WordNext(name: seq<Byte>, k: nat, word: string)
    requires k < |name| && forall i :: 0 <= i < |word| ==> IsWordChar(word[i])
    ensures Begins(name, k + 1, word) <==> Begins(name, k, word) && k < |word| && Is(Token(name[k]), word[k])
  {
    BeginsNext(name, k, word);
    if k < |word| {
      TokenIsLetter(name[k], word[k]);
    }
  }

  lemma WordsDiffer(name: seq<Byte>, k: nat, u: string, v: string, i: nat)
    requires i < k && i < |u| && i < |v| && u[i] != v[i] && IsWordChar(u[i]) && IsWordChar(v[i])
    ensures !Begins(name, k, u) || !Begins(name, k, v)
  {
    assert Begins(name, k, u) ==> IsLetter(name[i], u[i]);
    assert Begins(name, k, v) ==> IsLetter(name[i], v[i]);
  }

  /** Words that begin with another letter are not meant. */
  lemma OthersDiffer(name: seq<Byte>, k: nat, word: string)
    requires 1 <= k <= |name| && word != [] && IsWordChar(word[0]) && Begins(name, k, word)
    ensures word[0] != 'c' ==> !Begins(name, k, "connection") && !Begins(name, k, "content-length")
    ensures word[0] != 'p' ==> !Begins(name, k, "proxy-connection")
    ensures word[0] != 't' ==> !Begins(name, k, "transfer-encoding")
    ensures word[0] != 'u' ==> !Begins(name, k, "upgrade")
  {
    if word[0] != 'c' {
      WordsDiffer(name, k, word, "connection", 0);
      WordsDiffer(name, k, word, "content-length", 0);
    }
    if word[0] != 'p' {
      WordsDiffer(name, k, word, "proxy-connection", 0);
    }
    if word[0] != 't' {
      WordsDiffer(name, k, word, "transfer-encoding", 0);
    }
    if word[0] != 'u' {
      WordsDiffer(name, k, word, "upgrade", 0);
    }
  }

  /** What one more byte makes of h. */
  predicate NameGoes(p: Parser, name: seq<Byte>, k: nat)
    requires 1 <= k < |name|
  {
    var q := FieldByte(p, name[k], Token(name[k]));
    && q.headerState == NameState(name, k + 1) && q == p.(headerState := q.headerState, index := q.index)
    && (Partial(q.headerState) ==> q.index == k)
  }

  predicate NameHere(p: Parser, name: seq<Byte>, k: nat) {
    && IsName(name) && 1 <= k < |name| && p.headerState == NameState(name, k)
    && (Partial(p.headerState) ==> p.index == k - 1)
  }

  /** Nothing is recognized, or no more. */
  lemma GeneralGoes(p: Parser, name: seq<Byte>, k: nat)
    requires NameHere(p, name, k) && p.headerState == HGeneral
    ensures NameGoes(p, name, k)
  {
    BeginsNext(name, k, "connection");
    BeginsNext(name, k, "content-length");
    BeginsNext(name, k, "proxy-connection");
    BeginsNext(name, k, "transfer-encoding");
    BeginsNext(name, k, "upgrade");
  }

  /** A word that begins with a letter of its own. */
  lemma WordGoes(name: seq<Byte>, k: nat, word: string)
    requires IsName(name) && 1 <= k < |name| && Begins(name, k, word)
    requires word == "proxy-connection" || word == "transfer-encoding" || word == "upgrade"
    ensures !Begins(name, k + 1, word) ==> NameState(name, k + 1) == HGeneral
    ensures Begins(name, k + 1, word) <==> k < |word| && Is(Token(name[k]), word[k])
  {
    WordNext(name, k, word);
    OthersDiffer(name, k, word);
    BeginsNext(name, k, "connection");
    BeginsNext(name, k, "content-length");
    BeginsNext(name, k, "proxy-connection");
    BeginsNext(name, k, "transfer-encoding");
    BeginsNext(name, k, "upgrade");
  }

  /** Where the parser is in a word, or behind it. */
  predicate InWord(q: Parser, k: nat, word: string, going: HeaderState, matched: HeaderState) {
    k <= |word| && if k == |word| then q.headerState == matched else q.headerState == going && q.index == k - 1
  }

  /** The next byte goes on with the word, or it is not meant. */
  lemma MatchingGoes(p: Parser, k: nat, word: string, c: Byte, going: HeaderState, matched: HeaderState)
    requires 1 <= k < |word| && p.index == k - 1
    ensures var q := Matching(p, word, c, going, matched, HGeneral);
            && q == p.(headerState := q.headerState, index := k)
            && if Is(c, word[k]) then InWord(q, k + 1, word, going, matched) else q.headerState == HGeneral
  {
  }

  lemma ProxyState(name: seq<Byte>, k: nat)
    requires 1 <= k <= |name| && Begins(name, k, "proxy-connection")
    ensures NameState(name, k) == if k == 16 then HConnection else HMatchingProxyConnection
  {
    OthersDiffer(name, k, "proxy-connection");
  }

  lemma TransferState(name: seq<Byte>, k: nat)
    requires 1 <= k <= |name| && Begins(name, k, "transfer-encoding")
    ensures NameState(name, k) == if k == 17 then HTransferEncoding else HMatchingTransferEncoding
  {
    OthersDiffer(name, k, "transfer-encoding");
  }

  lemma UpgradeState(name: seq<Byte>, k: nat)
    requires 1 <= k <= |name| && Begins(name, k, "upgrade")
    ensures NameState(name, k) == if k == 7 then HUpgrade else HMatchingUpgrade
  {
    OthersDiffer(name, k, "upgrade");
  }

  lemma ConnectionState(name: seq<Byte>, k: nat)
    requires 1 <= k <= |name| && Begins(name, k, "connection")
    ensures NameState(name, k)
         == if k == 1 then HC else if k == 2 then HCO else if k == 3 then HCON
            else if k == 10 then HConnection else HMatchingConnection
  {
  }

  lemma LengthState(name: seq<Byte>, k: nat)
    requires 4 <= k <= |name| && Begins(name, k, "content-length")
    ensures NameState(name, k) == if k == 14 then HContentLength else HMatchingContentLength
  {
    SameBeginning(name, k);
  }

  /** The next byte of a name in which h is recognized: it goes on with the word, or it is not meant. */
  lemma WordByte(p: Parser, name: seq<Byte>, k: nat, word: string, going: HeaderState, matched: HeaderState,
                 next: HeaderState)
    requires 1 <= k < |name| && k <= |word| && Token(name[k]) != 0 && next == NameState(name, k + 1)
    requires if k == |word| then p.headerState == matched else p.headerState == going && p.index == k - 1
    requires matched in {HConnection, HContentLength, HTransferEncoding, HUpgrade}
    requires FieldByte(p.(headerState := going), name[k], Token(name[k]))
          == Matching(p.(headerState := going), word, Token(name[k]), going, matched, HGeneral)
    requires if k < |word| && Is(Token(name[k]), word[k]) then next == (if k + 1 == |word| then matched else going)
             else next == HGeneral
    requires Partial(going) && !Partial(matched)
    ensures NameGoes(p, name, k)
  {
    assert name[k] != SP;
    if k < |word| {
      MatchingGoes(p, k, word, Token(name[k]), going, matched);
    }
  }

  lemma ProxyGoes(p: Parser, name: seq<Byte>, k: nat)
    requires NameHere(p, name, k) && Begins(name, k, "proxy-connection")
    ensures NameGoes(p, name, k)
  {
    ProxyState(name, k);
    WordGoes(name, k, "proxy-connection");
    if Begins(name, k + 1, "proxy-connection") {
      ProxyState(name, k + 1);
    }
    WordByte(p, name, k, "proxy-connection", HMatchingProxyConnection, HConnection, NameState(name, k + 1));
  }

  lemma TransferGoes(p: Parser, name: seq<Byte>, k: nat)
    requires NameHere(p, name, k) && Begins(name, k, "transfer-encoding")
    ensures NameGoes(p, name, k)
  {
    TransferState(name, k);
    WordGoes(name, k, "transfer-encoding");
    if Begins(name, k + 1, "transfer-encoding") {
      TransferState(name, k + 1);
    }
    WordByte(p, name, k, "transfer-encoding", HMatchingTransferEncoding, HTransferEncoding, NameState(name, k + 1));
  }

  lemma UpgradeField(p: Parser, ch: Byte, c: Byte)
    requires p.headerState == HMatchingUpgrade
    ensures FieldByte(p, ch, c) == Matching(p, "upgrade", c, HMatchingUpgrade, HUpgrade, HGeneral)
  {
  }

  lemma UpgradeGoes(p: Parser, name: seq<Byte>, k: nat)
    requires NameHere(p, name, k) && Begins(name, k, "upgrade")
    ensures NameGoes(p, name, k)
  {
    UpgradeState(name, k);
    WordGoes(name, k, "upgrade");
    if Begins(name, k + 1, "upgrade") {
      UpgradeState(name, k + 1);
    }
    UpgradeField(p.(headerState := HMatchingUpgrade), name[k], Token(name[k]));
    WordByte(p, name, k, "upgrade", HMatchingUpgrade, HUpgrade, NameState(name, k + 1));
  }

  /** The two words that begin with "con". */
  lemma ConGoes(name: seq<Byte>, k: nat, word: string)
    requires IsName(name) && 1 <= k < |name| && Begins(name, k, word)
    requires word == "connection" || word == "content-length"
    ensures Begins(name, k + 1, word) <==> k < |word| && Is(Token(name[k]), word[k])
    ensures !Begins(name, k + 1, "connection") && !Begins(name, k + 1, "content-length") ==>
              NameState(name, k + 1) == HGeneral
  {
    WordNext(name, k, word);
    OthersDiffer(name, k, word);
    BeginsNext(name, k, "proxy-connection");
    BeginsNext(name, k, "transfer-encoding");
    BeginsNext(name, k, "upgrade");
  }

  /** Up to "con" they are the same. */
  lemma SameBeginning(name: seq<Byte>, k: nat)
    requires k <= |name|
    ensures k <= 3 ==> (Begins(name, k, "connection") <==> Begins(name, k, "content-length"))
    ensures k >= 4 ==> !Begins(name, k, "connection") || !Begins(name, k, "content-length")
  {
    var u, v := "connection", "content-length";
    assert u[0] == v[0] && u[1] == v[1] && u[2] == v[2] && u[3] == 'n' && v[3] == 't';
    if k >= 4 {
      WordsDiffer(name, k, u, v, 3);
    }
  }

  lemma ConnectionGoes(p: Parser, name: seq<Byte>, k: nat)
    requires NameHere(p, name, k) && Begins(name, k, "connection") && k >= 4
    ensures NameGoes(p, name, k)
  {
    ConnectionState(name, k);
    ConGoes(name, k, "connection");
    SameBeginning(name, k);
    BeginsNext(name, k, "content-length");
    if Begins(name, k + 1, "connection") {
      ConnectionState(name, k + 1);
    }
    WordByte(p, name, k, "connection", HMatchingConnection, HConnection, NameState(name, k + 1));
  }

  /** "c", "co" or "con". */
  lemma ConByte(p: Parser, name: seq<Byte>, k: nat)
    requires NameHere(p, name, k) && Begins(name, k, "connection") && k <= 3
    ensures NameGoes(p, name, k)
  {
    ConnectionState(name, k);
    ConGoes(name, k, "connection");
    SameBeginning(name, k);
    SameBeginning(name, k + 1);
    ConGoes(name, k, "content-length");
    if Begins(name, k + 1, "connection") {
      ConnectionState(name, k + 1);
    } else if Begins(name, k + 1, "content-length") {
      LengthState(name, k + 1);
    }
  }

  lemma LengthGoes(p: Parser, name: seq<Byte>, k: nat)
    requires NameHere(p, name, k) && Begins(name, k, "content-length") && k >= 4
    ensures NameGoes(p, name, k)
  {
    LengthState(name, k);
    ConGoes(name, k, "content-length");
    SameBeginning(name, k);
    BeginsNext(name, k, "connection");
    if Begins(name, k + 1, "content-length") {
      LengthState(name, k + 1);
    }
    WordByte(p, name, k, "content-length", HMatchingContentLength, HContentLength, NameState(name, k + 1));
  }

  lemma NameByte(p: Parser, name: seq<Byte>, k: nat)
    requires NameHere(p, name, k)
    ensures NameGoes(p, name, k)
  {
    SameBeginning(name, k);
    if Begins(name, k, "connection") && k <= 3 {
      ConByte(p, name, k);
    } else if Begins(name, k, "connection") {
      ConnectionGoes(p, name, k);
    } else if Begins(name, k, "content-length") {
      LengthGoes(p, name, k);
    } else if Begins(name, k, "proxy-connection") {
      ProxyGoes(p, name, k);
    } else if Begins(name, k, "transfer-encoding") {
      TransferGoes(p, name, k);
    } else if Begins(name, k, "upgrade") {
      UpgradeGoes(p, name, k);
    } else {
      GeneralGoes(p, name, k);
    }
  }

  // ----- the line up to the value -----

  lemma FieldStartStep(p: Parser, ch: Byte, skip: bool)
    requires p.state == HeaderFieldStart && Token(ch) != 0
    ensures var q := p.(state := HeaderField, headerState := HeaderStateOf(Token(ch)), index := 0);
            Step(p, ch, skip) == Outcome(q, [], [], [Field], false)
  {
    StepByState(p, ch, skip);
    HeaderByState(p, ch, skip);
  }

  lemma DiscardStep(p: Parser, ch: Byte, skip: bool)
    requires p.state == HeaderValueDiscardWs && ch != CR && ch != LF
    ensures Step(p, ch, skip)
         == if ch == SP || ch == HT then Go(p, HeaderValueDiscardWs) else StepHeaderValueStart(p, ch)
  {
    StepByState(p, ch, skip);
    HeaderByState(p, ch, skip);
    DiscardIs(p, ch, skip);
  }

  lemma FirstByteMoves(f: Steps, answer: Answer, p: Parser, name: seq<Byte>) returns (q: Parser)
    requires IsMachine(f, answer) && p.state == HeaderFieldStart && p.errno == Ok && IsName(name)
    ensures Moves(f, p, name[0], q) && InName(p, q, name, 1)
  {
    q := p.(state := HeaderField, headerState := HeaderStateOf(Token(name[0])), index := 0);
    FirstLetter(name);
    assert Open(0, q);
    forall skip ensures Step(p, name[0], skip).p == q && !Step(p, name[0], skip).leave {
      FieldStartStep(p, name[0], skip);
    }
    MovesBy(f, answer, p, name[0], q);
  }

  lemma NameByteMoves(f: Steps, answer: Answer, p: Parser, q: Parser, name: seq<Byte>, k: nat) returns (r: Parser)
    requires IsMachine(f, answer) && p.errno == Ok && IsName(name) && 1 <= k < |name| && InName(p, q, name, k)
    ensures Moves(f, q, name[k], r) && InName(p, r, name, k + 1)
  {
    r := FieldByte(q, name[k], Token(name[k]));
    assert Open(0, q) && Open(0, r);
    NameByte(q, name, k);
    forall skip ensures Step(q, name[k], skip).p == r && !Step(q, name[k], skip).leave {
      StepReads(q, name[k], skip);
    }
    MovesBy(f, answer, q, name[k], r);
  }

  lemma LeadsMore(f: Steps, p: Parser, d: seq<Byte>, k: nat, q: Parser, r: Parser)
    requires k < |d| && Leads(f, p, d[..k], q) && Moves(f, q, d[k], r)
    ensures Leads(f, p, d[..k + 1], r)
  {
    LeadsByte(f, q, d[k], r);
    LeadsOn(f, p, d[..k], q, [d[k]], r);
    assert d[..k] + [d[k]] == d[..k + 1];
  }

  lemma LeadsFirst(f: Steps, p: Parser, d: seq<Byte>, q: Parser)
    requires d != [] && Moves(f, p, d[0], q)
    ensures Leads(f, p, d[..1], q)
  {
    LeadsNowhere(f, p);
    assert d[..0] == [];
    LeadsMore(f, p, d, 0, p, q);
  }

  lemma {:induction false} NameLeads(f: Steps, answer: Answer, p: Parser, name: seq<Byte>, k: nat) returns (q: Parser)
    requires IsMachine(f, answer) && p.state == HeaderFieldStart && p.errno == Ok && IsName(name) && 1 <= k <= |name|
    ensures Leads(f, p, name[..k], q) && InName(p, q, name, k)
    decreases k
  {
    if k == 1 {
      q := FirstByteMoves(f, answer, p, name);
      LeadsFirst(f, p, name, q);
    } else {
      var before := NameLeads(f, answer, p, name, k - 1);
      q := NameByteMoves(f, answer, p, before, name, k - 1);
      LeadsMore(f, p, name, k - 1, before, q);
    }
  }

  const COLON: Byte := 58

  lemma ColonMoves(f: Steps, answer: Answer, p: Parser)
    requires IsMachine(f, answer) && p.state == HeaderField && p.errno == Ok
    ensures Moves(f, p, COLON, p.(state := HeaderValueDiscardWs))
  {
    forall skip ensures Step(p, COLON, skip) == Flush(p, HeaderValueDiscardWs, Field) {
      StepReads(p, COLON, skip);
    }
    MovesBy(f, answer, p, COLON, p.(state := HeaderValueDiscardWs));
  }

  predicate IsBlank(d: seq<Byte>) {
    forall i :: 0 <= i < |d| ==> d[i] == SP || d[i] == HT
  }

  lemma BlankMoves(f: Steps, answer: Answer, p: Parser, ch: Byte)
    requires IsMachine(f, answer) && p.state == HeaderValueDiscardWs && p.errno == Ok && (ch == SP || ch == HT)
    ensures Moves(f, p, ch, p)
  {
    forall skip ensures Step(p, ch, skip) == Go(p, HeaderValueDiscardWs) {
      DiscardStep(p, ch, skip);
    }
    MovesBy(f, answer, p, ch, p);
  }

  lemma {:induction false} BlankLeads(f: Steps, answer: Answer, p: Parser, ws: seq<Byte>, k: nat)
    requires IsMachine(f, answer) && p.state == HeaderValueDiscardWs && p.errno == Ok && IsBlank(ws) && k <= |ws|
    ensures Leads(f, p, ws[..k], p)
    decreases k
  {
    if k == 0 {
      LeadsNowhere(f, p);
      assert ws[..0] == [];
    } else {
      BlankLeads(f, answer, p, ws, k - 1);
      BlankMoves(f, answer, p, ws[k - 1]);
      LeadsMore(f, p, ws, k - 1, p, p);
    }
  }

  /** A name, the colon and blanks. */
  lemma NameRead(f: Steps, answer: Answer, p: Parser, name: seq<Byte>, ws: seq<Byte>) returns (q: Parser)
    requires IsMachine(f, answer) && p.state == HeaderFieldStart && p.errno == Ok && IsName(name) && IsBlank(ws)
    ensures Leads(f, p, name + [COLON] + ws, q)
    ensures q == p.(state := HeaderValueDiscardWs, headerState := NameState(name, |name|), index := q.index)
  {
    var named := NameLeads(f, answer, p, name, |name|);
    assert Open(0, named);
    q := named.(state := HeaderValueDiscardWs);
    assert name[..|name|] == name && ws[..|ws|] == ws;
    ColonMoves(f, answer, named);
    LeadsByte(f, named, COLON, q);
    LeadsOn(f, p, name, named, [COLON], q);
    BlankLeads(f, answer, q, ws, |ws|);
    LeadsOn(f, p, name + [COLON], q, ws, q);
  }

  /** What is recognized of a whole name. */
  lemma NameIsKnown(name: seq<Byte>)
    requires IsName(name)
    ensures var h := NameState(name, |name|);
            && (h == HConnection <==> Spells(name, "connection") || Spells(name, "proxy-connection"))
            && (h == HContentLength <==> Spells(name, "content-length"))
            && (h == HTransferEncoding <==> Spells(name, "transfer-encoding"))
            && (h == HUpgrade <==> Spells(name, "upgrade"))
  {
    var k := |name|;
    SameBeginning(name, k);
    if Begins(name, k, "connection") {
      OthersDiffer(name, k, "connection");
    } else if Begins(name, k, "content-length") {
      OthersDiffer(name, k, "content-length");
    } else if Begins(name, k, "proxy-connection") {
      OthersDiffer(name, k, "proxy-connection");
    } else if Begins(name, k, "transfer-encoding") {
      OthersDiffer(name, k, "transfer-encoding");
    }
  }

  // ----- values -----

  predicate IsValue(v: seq<Byte>) {
    v != [] && v[0] != SP && v[0] != HT && forall i :: 0 <= i < |v| ==> v[i] != CR && v[i] != LF
  }

  /** The first k bytes of v are word and then nothing but spaces. */
  predicate PaddedTo(v: seq<Byte>, k: nat, word: string) {
    |word| <= k <= |v| && Begins(v, |word|, word) && forall i :: |word| <= i < k ==> v[i] == SP
  }

  function WordState(v: seq<Byte>, k: nat, word: string, going: HeaderState, matched: HeaderState,
                     not: HeaderState): (h: HeaderState)
  {
    if k < |word| && Begins(v, k, word) then going else if PaddedTo(v, k, word) then matched else not
  }

  /** What the parser has recognized after the first k bytes of the value of a header, h being what it has
      of its name. */
  function ValueState(h: HeaderState, v: seq<Byte>, k: nat): (r: HeaderState)
    requires 1 <= k <= |v|
  {
    if h == HTransferEncoding then
      WordState(v, k, "chunked", HMatchingTransferEncodingChunked, HTransferEncodingChunked, HGeneral)
    else if h == HConnection then
      if IsLetter(v[0], 'k') then
        WordState(v, k, "keep-alive", HMatchingConnectionKeepAlive, HConnectionKeepAlive, HMatchingConnectionToken)
      else if IsLetter(v[0], 'c') then
        WordState(v, k, "close", HMatchingConnectionClose, HConnectionClose, HMatchingConnectionToken)
      else if IsLetter(v[0], 'u') then
        WordState(v, k, "upgrade", HMatchingConnectionUpgrade, HConnectionUpgrade, HMatchingConnectionToken)
      else HMatchingConnectionToken
    else HGeneral
  }

  predicate Seeking(h: HeaderState) {
    h == HMatchingTransferEncodingChunked || h == HMatchingConnectionKeepAlive || h == HMatchingConnectionClose
    || h == HMatchingConnectionUpgrade
  }

  /** What a name leaves, but for a content length. */
  predicate OfName(h: HeaderState) {
    h == HGeneral || Partial(h) || h == HConnection || h == HTransferEncoding || h == HUpgrade
  }

  /** The parser after the first k bytes of a value. */
  ghost predicate InText(p: Parser, q: Parser, h: HeaderState, v: seq<Byte>, k: nat)
    requires 1 <= k <= |v|
  {
    forall x: nat :: Open(x, q) ==>
      && q == p.(state := HeaderValue, headerState := ValueState(h, v, k), index := q.index,
                 flags := if h == HUpgrade then p.flags.(upgrade := true) else p.flags)
      && (Seeking(q.headerState) ==> q.index == k - 1)
  }

  /** One token: commas would begin another one. */
  predicate OneToken(v: seq<Byte>) {
    forall i :: 0 <= i < |v| ==> !Is(v[i], ',')
  }

  lemma FirstOfWord(v: seq<Byte>, word: string, going: HeaderState, matched: HeaderState, not: HeaderState)
    requires v != [] && |word| > 1
    ensures WordState(v, 1, word, going, matched, not) == if IsLetter(v[0], word[0]) then going else not
  {
    BeginsNext(v, 0, word);
  }

  lemma FirstOfValue(p: Parser, v: seq<Byte>)
    requires IsValue(v) && OfName(p.headerState)
    ensures var o := StepHeaderValueStart(p, v[0]);
            && InText(p, o.p, p.headerState, v, 1) && o.p.errno == p.errno && !o.leave
  {
    LowerIsLetter(v[0], 'c');
    LowerIsLetter(v[0], 'k');
    LowerIsLetter(v[0], 'u');
    FirstOfWord(v, "chunked", HMatchingTransferEncodingChunked, HTransferEncodingChunked, HGeneral);
    FirstOfWord(v, "keep-alive", HMatchingConnectionKeepAlive, HConnectionKeepAlive, HMatchingConnectionToken);
    FirstOfWord(v, "close", HMatchingConnectionClose, HConnectionClose, HMatchingConnectionToken);
    FirstOfWord(v, "upgrade", HMatchingConnectionUpgrade, HConnectionUpgrade, HMatchingConnectionToken);
  }

  /** One more byte of a word. */
  lemma NextInWord(v: seq<Byte>, k: nat, word: string)
    requires 1 <= k < |v| && v[k] != CR && forall i :: 0 <= i < |word| ==> IsWordChar(word[i])
    requires k < |word| && Begins(v, k, word)
    ensures Begins(v, k + 1, word) <==> Is(Lower(v[k]), word[k])
    ensures PaddedTo(v, k + 1, word) <==> k + 1 == |word| && Is(Lower(v[k]), word[k])
  {
    BeginsNext(v, k, word);
    LowerIsLetter(v[k], word[k]);
  }

  /** One more byte after a word. */
  lemma NextAfterWord(v: seq<Byte>, k: nat, word: string)
    requires 1 <= k < |v| && PaddedTo(v, k, word)
    ensures PaddedTo(v, k + 1, word) <==> v[k] == SP
  {
  }

  /** One more byte of something else. */
  lemma NextElsewhere(v: seq<Byte>, k: nat, word: string)
    requires 1 <= k < |v| && !(k < |word| && Begins(v, k, word)) && !PaddedTo(v, k, word)
    ensures !(k + 1 < |word| && Begins(v, k + 1, word)) && !PaddedTo(v, k + 1, word)
  {
    if k + 1 <= |word| {
      BeginsNext(v, k, word);
    }
  }

  /** Where the parser is in the word, after it, or elsewhere. */
  predicate Tracks(q: Parser, v: seq<Byte>, k: nat, word: string, going: HeaderState, matched: HeaderState,
                   not: HeaderState)
  {
    q.headerState == WordState(v, k, word, going, matched, not) && (q.headerState == going ==> q.index == k - 1)
  }

  lemma WordTracked(q: Parser, v: seq<Byte>, k: nat, word: string, going: HeaderState, matched: HeaderState,
                    not: HeaderState, r: Parser)
    requires 1 <= k < |v| && v[k] != CR && (forall i :: 0 <= i < |word| ==> IsWordChar(word[i]))
    requires going != matched && matched != not && going != not && Tracks(q, v, k, word, going, matched, not)
    requires q.headerState == going ==> r == Matching(q, word, Lower(v[k]), going, matched, not)
    requires q.headerState == matched ==> r == if v[k] == SP then q else q.(headerState := not)
    requires q.headerState == not ==> r == q
    ensures Tracks(r, v, k + 1, word, going, matched, not) && r == q.(headerState := r.headerState, index := r.index)
  {
    if k < |word| && Begins(v, k, word) {
      InWordTracked(q, v, k, word, going, matched, not);
    } else if PaddedTo(v, k, word) {
      NextAfterWord(v, k, word);
    } else {
      NextElsewhere(v, k, word);
    }
  }

  lemma MatchingIs(q: Parser, k: nat, word: string, c: Byte, going: HeaderState, matched: HeaderState,
                   not: HeaderState)
    requires k < |word| && q.index + 1 == k
    ensures Matching(q, word, c, going, matched, not)
         == q.(index := k, headerState := if !Is(c, word[k]) then not else if k + 1 == |word| then matched else going)
  {
  }

  lemma InWordTracked(q: Parser, v: seq<Byte>, k: nat, word: string, going: HeaderState, matched: HeaderState,
                      not: HeaderState)
    requires 1 <= k < |v| && v[k] != CR && (forall i :: 0 <= i < |word| ==> IsWordChar(word[i]))
    requires going != matched && matched != not && going != not && q.index == k - 1
    requires k < |word| && Begins(v, k, word)
    ensures var r := Matching(q, word, Lower(v[k]), going, matched, not);
            Tracks(r, v, k + 1, word, going, matched, not) && r == q.(headerState := r.headerState, index := k)
  {
    NextInWord(v, k, word);
    MatchingIs(q, k, word, Lower(v[k]), going, matched, not);
  }

  /** One more byte of a value. */
  predicate TextGoes(q: Parser, h: HeaderState, v: seq<Byte>, k: nat)
    requires 1 <= k < |v|
  {
    var r := ValueByte(q, v[k]);
    && r == q.(headerState := ValueState(h, v, k + 1), index := r.index)
    && (Seeking(r.headerState) ==> r.index == k)
  }

  predicate TextHere(q: Parser, h: HeaderState, v: seq<Byte>, k: nat) {
    && IsValue(v) && 1 <= k < |v| && q.headerState == ValueState(h, v, k)
    && (Seeking(q.headerState) ==> q.index == k - 1)
  }

  lemma ChunkedGoes(q: Parser, v: seq<Byte>, k: nat)
    requires TextHere(q, HTransferEncoding, v, k)
    ensures TextGoes(q, HTransferEncoding, v, k)
  {
    WordTracked(q, v, k, "chunked", HMatchingTransferEncodingChunked, HTransferEncodingChunked, HGeneral,
                ValueByte(q, v[k]));
  }

  lemma KeepAliveGoes(q: Parser, v: seq<Byte>, k: nat)
    requires TextHere(q, HConnection, v, k) && IsLetter(v[0], 'k') && OneToken(v)
    ensures TextGoes(q, HConnection, v, k)
  {
    WordTracked(q, v, k, "keep-alive", HMatchingConnectionKeepAlive, HConnectionKeepAlive, HMatchingConnectionToken,
                ValueByte(q, v[k]));
  }

  lemma CloseGoes(q: Parser, v: seq<Byte>, k: nat)
    requires TextHere(q, HConnection, v, k) && IsLetter(v[0], 'c') && OneToken(v)
    ensures TextGoes(q, HConnection, v, k)
  {
    assert !IsLetter(v[0], 'k');
    WordTracked(q, v, k, "close", HMatchingConnectionClose, HConnectionClose, HMatchingConnectionToken,
                ValueByte(q, v[k]));
  }

  lemma ConnectionUpgradeGoes(q: Parser, v: seq<Byte>, k: nat)
    requires TextHere(q, HConnection, v, k) && IsLetter(v[0], 'u') && OneToken(v)
    ensures TextGoes(q, HConnection, v, k)
  {
    assert !IsLetter(v[0], 'k') && !IsLetter(v[0], 'c');
    WordTracked(q, v, k, "upgrade", HMatchingConnectionUpgrade, HConnectionUpgrade, HMatchingConnectionToken,
                ValueByte(q, v[k]));
  }

  lemma TextByte(q: Parser, h: HeaderState, v: seq<Byte>, k: nat)
    requires TextHere(q, h, v, k) && (h == HConnection ==> OneToken(v))
    ensures TextGoes(q, h, v, k)
  {
    if h == HTransferEncoding {
      ChunkedGoes(q, v, k);
    } else if h == HConnection && IsLetter(v[0], 'k') {
      KeepAliveGoes(q, v, k);
    } else if h == HConnection && IsLetter(v[0], 'c') {
      CloseGoes(q, v, k);
    } else if h == HConnection && IsLetter(v[0], 'u') {
      ConnectionUpgradeGoes(q, v, k);
    }
  }

  /** The parser is here, with a header's name recognized. */
  predicate AtValue(p: Parser) {
    p.state == HeaderValueDiscardWs && p.errno == Ok && OfName(p.headerState)
  }

  lemma FirstTextMoves(f: Steps, answer: Answer, p: Parser, v: seq<Byte>) returns (q: Parser)
    requires IsMachine(f, answer) && AtValue(p) && IsValue(v)
    ensures Moves(f, p, v[0], q) && InText(p, q, p.headerState, v, 1)
  {
    q := StepHeaderValueStart(p, v[0]).p;
    FirstOfValue(p, v);
    assert Open(0, q);
    forall skip ensures Step(p, v[0], skip) == StepHeaderValueStart(p, v[0]) {
      DiscardStep(p, v[0], skip);
    }
    MovesBy(f, answer, p, v[0], q);
  }

  lemma TextMoves(f: Steps, answer: Answer, p: Parser, q: Parser, v: seq<Byte>, k: nat) returns (r: Parser)
    requires IsMachine(f, answer) && AtValue(p) && IsValue(v) && (p.headerState == HConnection ==> OneToken(v))
    requires 1 <= k < |v| && InText(p, q, p.headerState, v, k)
    ensures Moves(f, q, v[k], r) && InText(p, r, p.headerState, v, k + 1)
  {
    r := ValueByte(q, v[k]);
    assert Open(0, q) && Open(0, r);
    TextByte(q, p.headerState, v, k);
    forall skip ensures Step(q, v[k], skip) == Go(r, HeaderValue) {
      StepReads(q, v[k], skip);
    }
    MovesBy(f, answer, q, v[k], r);
  }

  lemma {:induction false} TextLeads(f: Steps, answer: Answer, p: Parser, v: seq<Byte>, k: nat) returns (q: Parser)
    requires IsMachine(f, answer) && AtValue(p) && IsValue(v) && (p.headerState == HConnection ==> OneToken(v))
    requires 1 <= k <= |v|
    ensures Leads(f, p, v[..k], q) && InText(p, q, p.headerState, v, k)
    decreases k
  {
    if k == 1 {
      q := FirstTextMoves(f, answer, p, v);
      LeadsFirst(f, p, v, q);
    } else {
      var before := TextLeads(f, answer, p, v, k - 1);
      q := TextMoves(f, answer, p, before, v, k - 1);
      LeadsMore(f, p, v, k - 1, before, q);
    }
  }

  // ----- the end of a line -----

  lemma CrMoves(f: Steps, answer: Answer, p: Parser)
    requires IsMachine(f, answer) && p.state == HeaderValue && p.errno == Ok
    ensures Moves(f, p, CR, p.(state := HeaderAlmostDone))
  {
    forall skip ensures Step(p, CR, skip) == Flush(p, HeaderAlmostDone, Value) {
      StepReads(p, CR, skip);
    }
    MovesBy(f, answer, p, CR, p.(state := HeaderAlmostDone));
  }

  lemma LfMoves(f: Steps, answer: Answer, p: Parser)
    requires IsMachine(f, answer) && p.state == HeaderAlmostDone && p.errno == Ok
    ensures Moves(f, p, LF, p.(state := HeaderValueLws))
  {
    forall skip ensures Step(p, LF, skip) == Go(p, HeaderValueLws) {
      StepByState(p, LF, skip);
      HeaderByState(p, LF, skip);
      LineEndStep(p, LF, skip);
    }
    MovesBy(f, answer, p, LF, p.(state := HeaderValueLws));
  }

  /** The end of a line that has a value. */
  lemma LineEndLeads(f: Steps, answer: Answer, p: Parser)
    requires IsMachine(f, answer) && p.state == HeaderValue && p.errno == Ok
    ensures Leads(f, p, [CR] + [LF], p.(state := HeaderValueLws))
  {
    var q := p.(state := HeaderAlmostDone);
    CrMoves(f, answer, p);
    LeadsByte(f, p, CR, q);
    LfMoves(f, answer, q);
    LeadsByte(f, q, LF, p.(state := HeaderValueLws));
    LeadsOn(f, p, [CR], q, [LF], p.(state := HeaderValueLws));
  }

  /** What the parser remembers of headers. */
  predicate Remembers(r: Parser, flags: Flags, length: UInt64) {
    r.flags.(skipBody := flags.skipBody) == flags && r.contentLength == length
  }

  lemma DoneRemembers(p: Parser)
    ensures var r := StepHeadersDone(p).p; r.flags == p.flags && r.contentLength == p.contentLength
  {
  }

  lemma EndRemembers(p: Parser, ch: Byte, skip: bool)
    ensures Remembers(StepHeadersAlmostDone(p, ch, skip).p, p.flags, p.contentLength)
  {
    if ch == LF && !p.flags.trailing {
      HeadRemembers(p, skip);
    }
  }

  lemma HeadRemembers(p: Parser, skip: bool)
    requires !p.flags.trailing
    ensures Remembers(StepHeadersAlmostDone(p, LF, skip).p, p.flags, p.contentLength)
  {
    var q := p.(state := HeadersDone, upgrade := (p.flags.upgrade && p.flags.connectionUpgrade) || p.meth == Connect);
    DoneRemembers(q);
    DoneRemembers(q.(flags := q.flags.(skipBody := true)));
  }

  lemma NextLineRemembers(p: Parser, ch: Byte, skip: bool)
    ensures Remembers(StepHeaderFieldStart(p, ch, skip).p, p.flags, p.contentLength)
  {
    EndRemembers(p.(state := HeadersAlmostDone), ch, skip);
  }

  /** The flag that a recognized value sets once the next line begins. */
  function FlagsAfter(flags: Flags, h: HeaderState): (r: Flags) {
    flags.(
      chunked := flags.chunked || h == HTransferEncodingChunked,
      keepAlive := flags.keepAlive || h == HConnectionKeepAlive,
      close := flags.close || h == HConnectionClose,
      connectionUpgrade := flags.connectionUpgrade || h == HConnectionUpgrade)
  }

  lemma FinishedIs(p: Parser)
    ensures Finished(p) == p.(flags := FlagsAfter(p.flags, p.headerState))
  {
  }

  /** The first byte of the next line. */
  lemma NextLineByte(p: Parser, ch: Byte, skip: bool)
    requires p.state == HeaderValueLws && ch != SP && ch != HT
    ensures Remembers(Step(p, ch, skip).p, FlagsAfter(p.flags, p.headerState), p.contentLength)
  {
    StepByState(p, ch, skip);
    HeaderByState(p, ch, skip);
    FoldIs(p, ch, skip);
    FinishedIs(p);
    NextLineRemembers(Finished(p).(state := HeaderFieldStart), ch, skip);
  }

  /** A line that led to q, and the first byte of the next one. */
  lemma LineThenByte(f: Steps, answer: Answer, p: Parser, s: Stream, line: seq<Byte>, q: Parser, ch: Byte)
    requires IsMachine(f, answer) && Leads(f, p, line, q) && q.state == HeaderValueLws && ch != SP && ch != HT
    ensures Remembers(Run(f, p, s, line + [ch], 0).p, FlagsAfter(q.flags, q.headerState), q.contentLength)
  {
    assert Open(0, p);
    assert LeadsAt(f, p, s, line, q);
    var r := Run(f, p, s, line, 0);
    RunInPieces(f, p, s, line, [ch]);
    AtByte(f, answer, r.s, q, ch);
    NextLineByte(q, ch, answer(r.s, q));
    OneByteRun(f, q, r.s, ch);
  }

  lemma OneByteRun(f: Steps, p: Parser, s: Stream, ch: Byte)
    ensures Run(f, p, s, [ch], 0).p == f(s, p, ch).p
  {
    var o := f(s, p, ch);
    assert Run(f, o.p, Hear(s, p.state, ch, o), [ch], 1).p == o.p;
  }

  // ----- content lengths -----

  /** The parser after the first k bytes of a content length. */
  ghost predicate InLength(p: Parser, q: Parser, v: seq<Byte>, k: nat)
    requires k <= |v|
  {
    forall x: nat :: Open(x, q) ==>
      && q == p.(state := HeaderValue, index := 0, contentLength := q.contentLength)
      && SoFar(v, k, q.contentLength)
  }

  /** The parser is before a content length. */
  predicate AtLength(p: Parser, v: seq<Byte>) {
    && p.state == HeaderValueDiscardWs && p.headerState == HContentLength && p.errno == Ok
    && IsValue(v) && IsLength(v) && NotTooLong(v)
  }

  lemma LengthByteMoves(f: Steps, answer: Answer, p: Parser, q: Parser, v: seq<Byte>, k: nat) returns (r: Parser)
    requires IsMachine(f, answer) && AtLength(p, v) && k < |v| && InLength(p, q, v, k)
    ensures Moves(f, q, v[k], r) && InLength(p, r, v, k + 1)
  {
    r := LengthOutcome(q, v[k]).p;
    assert Open(0, q) && Open(0, r);
    SoFarNext(v, k, q.contentLength);
    if v[k] != SP && DECIMAL_LIMIT < q.contentLength {
      SoFarFails(v, k, q.contentLength);
    }
    forall skip ensures Step(q, v[k], skip) == LengthOutcome(q, v[k]) {
      LengthHere(q, v[k], skip);
    }
    MovesBy(f, answer, q, v[k], r);
  }

  lemma FirstLengthMoves(f: Steps, answer: Answer, p: Parser, v: seq<Byte>) returns (q: Parser)
    requires IsMachine(f, answer) && AtLength(p, v)
    ensures Moves(f, p, v[0], q) && InLength(p, q, v, 1)
  {
    q := FirstOutcome(p, v[0]).p;
    assert Open(0, q);
    FirstDigit(v);
    forall skip ensures Step(p, v[0], skip) == FirstOutcome(p, v[0]) {
      LengthHere(p, v[0], skip);
    }
    MovesBy(f, answer, p, v[0], q);
  }

  lemma {:induction false} LengthLeads(f: Steps, answer: Answer, p: Parser, v: seq<Byte>, k: nat) returns (q: Parser)
    requires IsMachine(f, answer) && AtLength(p, v) && 1 <= k <= |v|
    ensures Leads(f, p, v[..k], q) && InLength(p, q, v, k)
    decreases k
  {
    if k == 1 {
      q := FirstLengthMoves(f, answer, p, v);
      LeadsFirst(f, p, v, q);
    } else {
      var before := LengthLeads(f, answer, p, v, k - 1);
      q := LengthByteMoves(f, answer, p, before, v, k - 1);
      LeadsMore(f, p, v, k - 1, before, q);
    }
  }

  lemma {:induction false} GoingIsOk(f: Steps, p: Parser, s: Stream, d: seq<Byte>, i: nat)
    requires i <= |d| && p.errno == Ok && !Run(f, p, s, d, i).stopped
    ensures Run(f, p, s, d, i).p.errno == Ok
    decreases |d| - i
  {
    if i < |d| {
      var o := f(s, p, d[i]);
      GoingIsOk(f, o.p, Hear(s, p.state, d[i], o), d, i + 1);
    }
  }

  /** An error in the middle of a line ends it. */
  lemma ErrorStays(f: Steps, p: Parser, s: Stream, x: seq<Byte>, q: Parser, y: seq<Byte>, z: seq<Byte>)
    requires Leads(f, p, x, q) && q.errno == Ok && forall t :: Run(f, q, t, y, 0).p.errno == InvalidContentLength
    ensures Run(f, p, s, x + y + z, 0).p.errno == InvalidContentLength
  {
    assert Open(0, p);
    assert LeadsAt(f, p, s, x, q);
    var t := Run(f, p, s, x, 0).s;
    RunInPieces(f, p, s, x, y);
    if !Run(f, q, t, y, 0).stopped {
      GoingIsOk(f, q, t, y, 0);
    }
    RunInPieces(f, p, s, x + y, z);
  }

  // ----- whole lines -----

  predicate IsConnection(name: seq<Byte>) {
    Spells(name, "connection") || Spells(name, "proxy-connection")
  }

  /** The flags after a header. */
  function Said(flags: Flags, name: seq<Byte>, v: seq<Byte>): (r: Flags) {
    flags.(
      chunked := flags.chunked || (Spells(name, "transfer-encoding") && SpellsPadded(v, "chunked")),
      keepAlive := flags.keepAlive || (IsConnection(name) && SpellsPadded(v, "keep-alive")),
      close := flags.close || (IsConnection(name) && SpellsPadded(v, "close")),
      connectionUpgrade := flags.connectionUpgrade || (IsConnection(name) && SpellsPadded(v, "upgrade")),
      upgrade := flags.upgrade || Spells(name, "upgrade"))
  }

  /** Recognizing a value is recognizing a word. */
  lemma ValueIsKnown(h: HeaderState, v: seq<Byte>)
    requires IsValue(v) && OfName(h)
    ensures var r := ValueState(h, v, |v|);
            && (r == HTransferEncodingChunked <==> h == HTransferEncoding && SpellsPadded(v, "chunked"))
            && (r == HConnectionKeepAlive <==> h == HConnection && SpellsPadded(v, "keep-alive"))
            && (r == HConnectionClose <==> h == HConnection && SpellsPadded(v, "close"))
            && (r == HConnectionUpgrade <==> h == HConnection && SpellsPadded(v, "upgrade"))
  {
    PaddedWhole(v, "chunked");
    PaddedWhole(v, "keep-alive");
    PaddedWhole(v, "close");
    PaddedWhole(v, "upgrade");
  }

  lemma PaddedWhole(v: seq<Byte>, word: string)
    requires word != [] && IsWordChar(word[0]) && v != []
    ensures PaddedTo(v, |v|, word) <==> SpellsPadded(v, word)
    ensures SpellsPadded(v, word) ==> IsLetter(v[0], word[0]) && !(|v| < |word|)
  {
  }

  lemma SaidIs(flags: Flags, name: seq<Byte>, v: seq<Byte>, h: HeaderState)
    requires IsName(name) && IsValue(v) && h == NameState(name, |name|) && OfName(h)
    ensures Said(flags, name, v)
         == FlagsAfter(if h == HUpgrade then flags.(upgrade := true) else flags, ValueState(h, v, |v|))
  {
    NameIsKnown(name);
    ValueIsKnown(h, v);
  }

  function Line(name: seq<Byte>, ws: seq<Byte>, v: seq<Byte>): (d: seq<Byte>) {
    name + [COLON] + ws + v + ([CR] + [LF])
  }

  /** A header other than a content length. */
  lemma OtherHeader(f: Steps, answer: Answer, p: Parser, s: Stream, name: seq<Byte>, ws: seq<Byte>, v: seq<Byte>,
                    ch: Byte)
    requires IsMachine(f, answer) && p.state == HeaderFieldStart && p.errno == Ok && ch != SP && ch != HT
    requires IsName(name) && IsBlank(ws) && IsValue(v) && (IsConnection(name) ==> OneToken(v))
    requires !Spells(name, "content-length")
    ensures Remembers(Run(f, p, s, Line(name, ws, v) + [ch], 0).p, Said(p.flags, name, v), p.contentLength)
  {
    NameIsKnown(name);
    var q := NameRead(f, answer, p, name, ws);
    var r := TextLeads(f, answer, q, v, |v|);
    assert v[..|v|] == v && Open(0, r);
    LeadsOn(f, p, name + [COLON] + ws, q, v, r);
    LineEndLeads(f, answer, r);
    LeadsOn(f, p, name + [COLON] + ws + v, r, [CR] + [LF], r.(state := HeaderValueLws));
    LineThenByte(f, answer, p, s, Line(name, ws, v), r.(state := HeaderValueLws), ch);
    SaidIs(p.flags, name, v, q.headerState);
  }

  /** A content length. */
  lemma LengthHeader(f: Steps, answer: Answer, p: Parser, s: Stream, name: seq<Byte>, ws: seq<Byte>, v: seq<Byte>,
                     ch: Byte)
    requires IsMachine(f, answer) && p.state == HeaderFieldStart && p.errno == Ok && ch != SP && ch != HT
    requires IsName(name) && IsBlank(ws) && IsValue(v) && Spells(name, "content-length") && IsLength(v) && NotTooLong(v)
    ensures Decimal(Digits(v)) < ULLONG_MAX
    ensures Remembers(Run(f, p, s, Line(name, ws, v) + [ch], 0).p, p.flags, Decimal(Digits(v)))
  {
    DecimalFits(v);
    NameIsKnown(name);
    var q := NameRead(f, answer, p, name, ws);
    var r := LengthLeads(f, answer, q, v, |v|);
    assert v[..|v|] == v && Open(0, r);
    LeadsOn(f, p, name + [COLON] + ws, q, v, r);
    LineEndLeads(f, answer, r);
    LeadsOn(f, p, name + [COLON] + ws + v, r, [CR] + [LF], r.(state := HeaderValueLws));
    LineThenByte(f, answer, p, s, Line(name, ws, v), r.(state := HeaderValueLws), ch);
  }

  lemma BadLengthHeader(f: Steps, answer: Answer, p: Parser, s: Stream, name: seq<Byte>, ws: seq<Byte>, v: seq<Byte>,
                        ch: Byte)
    requires IsMachine(f, answer) && p.state == HeaderFieldStart && p.errno == Ok
    requires IsName(name) && IsBlank(ws) && IsValue(v) && Spells(name, "content-length")
    requires !(IsLength(v) && NotTooLong(v))
    ensures Run(f, p, s, Line(name, ws, v) + [ch], 0).p.errno == InvalidContentLength
  {
    NameIsKnown(name);
    var q := NameRead(f, answer, p, name, ws);
    forall t ensures Run(f, q, t, v, 0).p.errno == InvalidContentLength {
      ContentLengthIsItsDigits(f, answer, q, t, v);
    }
    ErrorStays(f, p, s, name + [COLON] + ws, q, v, [CR] + [LF] + [ch]);
    assert Line(name, ws, v) + [ch] == name + [COLON] + ws + v + ([CR] + [LF] + [ch]);
  }

  /** What a header line means, whatever the application answers: chunked, a length, and what becomes of the
      connection are taken from these names and values, in any case, and from nothing else. */
  lemma HeaderMeaning(f: Steps, answer: Answer, p: Parser, s: Stream, name: seq<Byte>, ws: seq<Byte>, v: seq<Byte>,
                      ch: Byte)
    requires IsMachine(f, answer) && p.state == HeaderFieldStart && p.errno == Ok && ch != SP && ch != HT
    requires IsName(name) && IsBlank(ws) && IsValue(v) && (IsConnection(name) ==> OneToken(v))
    ensures var r := Run(f, p, s, Line(name, ws, v) + [ch], 0).p;
            if !Spells(name, "content-length") then Remembers(r, Said(p.flags, name, v), p.contentLength)
            else if IsLength(v) && NotTooLong(v) then
              Decimal(Digits(v)) < ULLONG_MAX && Remembers(r, p.flags, Decimal(Digits(v)))
            else r.errno == InvalidContentLength
  {
    if !Spells(name, "content-length") {
      OtherHeader(f, answer, p, s, name, ws, v, ch);
    } else if IsLength(v) && NotTooLong(v) {
      LengthHeader(f, answer, p, s, name, ws, v, ch);
    } else {
      BadLengthHeader(f, answer, p, s, name, ws, v, ch);
    }
  }
}
