/**
 The lengths in a message are the numbers their digits stand for: one that does not fit is an error,
 and none is ever the value that stands for no length.
 */
module HttpLengths {
  import opened Numbers
  import opened HttpModel
  import opened HttpRun
  import opened HttpCalls

  const DECIMAL_LIMIT := 1844674407370955160  // (ULLONG_MAX - 10) / 10
  const HEX_LIMIT := 1152921504606846974      // (ULLONG_MAX - 16) / 16

  function DigitOf(ch: Byte): (d: nat)
    requires IsNum(ch)
  {
    ch - 0x30
  }

  function Decimal(ds: seq<Byte>): (n: nat)
    requires forall k :: 0 <= k < |ds| ==> IsNum(ds[k])
  {
    if ds == [] then 0 else 10 * Decimal(ds[..|ds| - 1]) + DigitOf(ds[|ds| - 1])
  }

  function Hex(ds: seq<Byte>): (n: nat)
    requires forall k :: 0 <= k < |ds| ==> Unhex(ds[k]) != -1
  {
    if ds == [] then 0 else 16 * Hex(ds[..|ds| - 1]) + Unhex(ds[|ds| - 1])
  }

  lemma DecimalLast(ds: seq<Byte>, i: nat)
    requires (forall k :: 0 <= k < |ds| ==> IsNum(ds[k])) && i < |ds|
    ensures Decimal(ds[..i + 1]) == 10 * Decimal(ds[..i]) + DigitOf(ds[i])
  {
    assert ds[..i + 1][..i] == ds[..i];
  }

  lemma HexLast(ds: seq<Byte>, i: nat)
    requires (forall k :: 0 <= k < |ds| ==> Unhex(ds[k]) != -1) && i < |ds|
    ensures Hex(ds[..i + 1]) == 16 * Hex(ds[..i]) + Unhex(ds[i])
  {
    assert ds[..i + 1][..i] == ds[..i];
  }

  lemma {:induction false} DecimalGrows(ds: seq<Byte>, i: nat)
    requires (forall k :: 0 <= k < |ds| ==> IsNum(ds[k])) && i <= |ds|
    ensures Decimal(ds[..i]) <= Decimal(ds)
    decreases |ds| - i
  {
    if i == |ds| {
      assert ds[..i] == ds;
    } else {
      DecimalLast(ds, i);
      DecimalGrows(ds, i + 1);
    }
  }

  lemma {:induction false} HexGrows(ds: seq<Byte>, i: nat)
    requires (forall k :: 0 <= k < |ds| ==> Unhex(ds[k]) != -1) && i <= |ds|
    ensures Hex(ds[..i]) <= Hex(ds)
    decreases |ds| - i
  {
    if i == |ds| {
      assert ds[..i] == ds;
    } else {
      HexLast(ds, i);
      HexGrows(ds, i + 1);
    }
  }

  lemma DecimalLimit(n: UInt64)
    ensures MaxBeforeDigit(n, 10) <==> DECIMAL_LIMIT < n
  {
  }

  lemma HexLimit(n: UInt64)
    ensures MaxBeforeDigit(n, 16) <==> HEX_LIMIT < n
  {
  }

  // ----- content lengths -----

  /** The bytes of a header value but for its spaces. */
  function Digits(v: seq<Byte>): (ds: seq<Byte>)
    ensures |ds| <= |v|
    ensures (forall k :: 0 <= k < |v| ==> IsNum(v[k]) || v[k] == SP) ==> forall k :: 0 <= k < |ds| ==> IsNum(ds[k])
  {
    if v == [] then []
    else
      var ds, ch := Digits(v[..|v| - 1]), v[|v| - 1];
      if ch == SP then ds else ds + [ch]
  }

  lemma DigitsNext(v: seq<Byte>, i: nat)
    requires i < |v|
    ensures Digits(v[..i + 1]) == Digits(v[..i]) + if v[i] == SP then [] else [v[i]]
  {
    assert v[..i + 1][..i] == v[..i];
  }

  lemma {:induction false} DigitsPrefix(v: seq<Byte>, i: nat)
    requires i <= |v|
    ensures Digits(v[..i]) <= Digits(v)
    decreases |v| - i
  {
    if i == |v| {
      assert v[..i] == v;
    } else {
      DigitsNext(v, i);
      DigitsPrefix(v, i + 1);
    }
  }

  predicate IsLength(v: seq<Byte>) {
    forall k :: 0 <= k < |v| ==> IsNum(v[k]) || v[k] == SP
  }

  /** The number before the last digit still takes one more. */
  predicate NotTooLong(v: seq<Byte>)
    requires IsLength(v)
  {
    Digits(v) == [] || Decimal(Digits(v)[..|Digits(v)| - 1]) <= DECIMAL_LIMIT
  }

  /** One more byte of a content length. */
  function LengthOutcome(p: Parser, ch: Byte): (o: Outcome) {
    if ch == SP then Outcome(p, [], [], [], false)
    else if !IsNum(ch) || DECIMAL_LIMIT < p.contentLength then
      Outcome(p.(errno := InvalidContentLength), [], [], [], false)
    else Outcome(p.(contentLength := 10 * p.contentLength + (ch - 0x30)), [], [], [], false)
  }

  /** Its first byte. */
  function FirstOutcome(p: Parser, ch: Byte): (o: Outcome) {
    var q := p.(state := HeaderValue, index := 0);
    Outcome(if IsNum(ch) then q.(contentLength := ch - 0x30) else q.(errno := InvalidContentLength), [], [], [Value],
            false)
  }

  ghost predicate LengthAt(f: Steps, s: Stream, p: Parser, ch: Byte) {
    p.state == HeaderValue && p.headerState == HContentLength && p.errno == Ok && ch != CR && ch != LF ==>
      f(s, p, ch) == LengthOutcome(p, ch)
  }

  ghost predicate FirstAt(f: Steps, s: Stream, p: Parser, ch: Byte) {
    p.state == HeaderValueDiscardWs && p.headerState == HContentLength && p.errno == Ok && !(ch in {SP, HT, CR, LF}) ==>
      f(s, p, ch) == FirstOutcome(p, ch)
  }

  ghost predicate ReadsLengths(f: Steps) {
    forall s, p, ch :: LengthAt(f, s, p, ch) && FirstAt(f, s, p, ch)
  }

  lemma LengthStep(p: Parser, ch: Byte)
    requires p.headerState == HContentLength && p.state == HeaderValue && p.errno == Ok && ch != CR && ch != LF
    ensures StepHeaderValue(p, ch) == LengthOutcome(p, ch)
  {
    DecimalLimit(p.contentLength);
  }

  lemma FirstStep(p: Parser, ch: Byte)
    requires p.headerState == HContentLength && p.errno == Ok
    ensures StepHeaderValueStart(p, ch) == FirstOutcome(p, ch)
  {
  }

  lemma MachineReadsLengths(f: Steps, answer: Answer)
    requires IsMachine(f, answer)
    ensures ReadsLengths(f)
  {
    forall s, p, ch ensures LengthAt(f, s, p, ch) && FirstAt(f, s, p, ch) {
      AtByte(f, answer, s, p, ch);
      if p.headerState == HContentLength && p.errno == Ok && ch != CR && ch != LF {
        LengthHere(p, ch, answer(s, p));
      }
    }
  }

  lemma LengthHere(p: Parser, ch: Byte, skip: bool)
    requires p.headerState == HContentLength && p.errno == Ok && ch != CR && ch != LF
    ensures p.state == HeaderValue ==> Step(p, ch, skip) == LengthOutcome(p, ch)
    ensures p.state == HeaderValueDiscardWs && ch != SP && ch != HT ==> Step(p, ch, skip) == FirstOutcome(p, ch)
  {
    StepByState(p, ch, skip);
    HeaderByState(p, ch, skip);
    if p.state == HeaderValue {
      LengthStep(p, ch);
    } else if p.state == HeaderValueDiscardWs {
      DiscardIs(p, ch, skip);
      FirstStep(p, ch);
    }
  }

  /** The fields once the bytes of v from i on are read, or one is refused. */
  function ReadLength(p: Parser, v: seq<Byte>, i: nat): (q: Parser)
    requires i <= |v|
    decreases |v| - i
  {
    if i == |v| then p
    else
      var q := LengthOutcome(p, v[i]).p;
      if q.errno != Ok then q else ReadLength(q, v, i + 1)
  }

  lemma TooLong(v: seq<Byte>, i: nat)
    requires IsLength(v) && i < |v| && v[i] != SP && DECIMAL_LIMIT < Decimal(Digits(v[..i]))
    ensures !NotTooLong(v)
  {
    DigitsNext(v, i);
    DigitsPrefix(v, i + 1);
    var ds, n := Digits(v), |Digits(v[..i])|;
    assert ds[..|ds| - 1][..n] == Digits(v[..i]);
    DecimalGrows(ds[..|ds| - 1], n);
  }

  lemma LengthPrefix(v: seq<Byte>, i: nat)
    requires i < |v| && IsLength(v[..i]) && (IsNum(v[i]) || v[i] == SP)
    ensures IsLength(v[..i + 1])
  {
    assert v[..i + 1] == v[..i] + [v[i]];
  }

  lemma DigitTaken(v: seq<Byte>, i: nat)
    requires i < |v| && IsLength(v[..i]) && IsNum(v[i])
    ensures IsLength(v[..i + 1])
    ensures Digits(v[..i + 1]) == Digits(v[..i]) + [v[i]]
    ensures Decimal(Digits(v[..i + 1])) == 10 * Decimal(Digits(v[..i])) + DigitOf(v[i])
  {
    LengthPrefix(v, i);
    DigitsNext(v, i);
    assert Digits(v[..i + 1])[..|Digits(v[..i])|] == Digits(v[..i]);
  }

  /** v[..i] is a length that is not too long, and n is its number. */
  predicate SoFar(v: seq<Byte>, i: nat, n: nat)
    requires i <= |v|
  {
    IsLength(v[..i]) && NotTooLong(v[..i]) && n == Decimal(Digits(v[..i]))
  }

  lemma SoFarNext(v: seq<Byte>, i: nat, n: nat)
    requires i < |v| && SoFar(v, i, n)
    ensures v[i] == SP ==> SoFar(v, i + 1, n)
    ensures IsNum(v[i]) && n <= DECIMAL_LIMIT ==> SoFar(v, i + 1, 10 * n + DigitOf(v[i]))
  {
    if v[i] == SP {
      LengthPrefix(v, i);
      DigitsNext(v, i);
      assert Digits(v[..i + 1]) == Digits(v[..i]);
    } else if IsNum(v[i]) {
      DigitTaken(v, i);
      assert Digits(v[..i + 1])[..|Digits(v[..i + 1])| - 1] == Digits(v[..i]);
    }
  }

  lemma SoFarFails(v: seq<Byte>, i: nat, n: nat)
    requires i < |v| && SoFar(v, i, n) && v[i] != SP && (!IsNum(v[i]) || DECIMAL_LIMIT < n)
    ensures !(IsLength(v) && NotTooLong(v))
  {
    if IsLength(v) {
      TooLong(v, i);
    }
  }

  lemma {:induction false} ReadLengthIs(p: Parser, v: seq<Byte>, i: nat)
    requires i <= |v| && SoFar(v, i, p.contentLength) && p.errno == Ok
    ensures var q := ReadLength(p, v, i);
            if IsLength(v) && NotTooLong(v) then q.errno == Ok && q.contentLength == Decimal(Digits(v))
            else q.errno == InvalidContentLength
    decreases |v| - i
  {
    if i == |v| {
      assert v[..i] == v;
    } else {
      var q := LengthOutcome(p, v[i]).p;
      SoFarNext(v, i, p.contentLength);
      if q.errno == Ok {
        ReadLengthIs(q, v, i + 1);
      } else {
        SoFarFails(v, i, p.contentLength);
      }
    }
  }

  lemma {:induction false} LengthBytes(f: Steps, p: Parser, v: seq<Byte>, i: nat)
    requires ReadsLengths(f) && p.state == HeaderValue && p.headerState == HContentLength && p.errno == Ok && i <= |v|
    requires forall k :: 0 <= k < |v| ==> v[k] != CR && v[k] != LF
    ensures AlwaysRunsTo(f, p, v, i, ReadLength(p, v, i))
    decreases |v| - i
  {
    if i < |v| && LengthOutcome(p, v[i]).p.errno == Ok {
      LengthBytes(f, LengthOutcome(p, v[i]).p, v, i + 1);
    }
    forall s ensures RunsTo(f, p, s, v, i, ReadLength(p, v, i)) {
      if i == |v| {
        RunHere(f, p, s, v);
      } else {
        assert LengthAt(f, s, p, v[i]);
        RunOn(f, p, s, v, i, LengthOutcome(p, v[i]), ReadLength(p, v, i));
      }
    }
  }

  lemma FirstDigit(v: seq<Byte>)
    requires v != [] && IsNum(v[0])
    ensures IsLength(v[..1]) && NotTooLong(v[..1]) && Decimal(Digits(v[..1])) == v[0] - 0x30
  {
    assert v[..0] == [] && Digits([]) == [];
    DigitTaken(v, 0);
    assert Digits(v[..1])[..0] == [];
  }

  /** The fields once a value is read. */
  function ReadValue(p: Parser, v: seq<Byte>): (q: Parser)
    requires v != []
  {
    var q := FirstOutcome(p, v[0]).p;
    if IsNum(v[0]) then ReadLength(q, v, 1) else q
  }

  lemma LengthValue(f: Steps, p: Parser, s: Stream, v: seq<Byte>)
    requires ReadsLengths(f) && p.state == HeaderValueDiscardWs && p.headerState == HContentLength && p.errno == Ok
    requires v != [] && v[0] != SP && v[0] != HT && forall k :: 0 <= k < |v| ==> v[k] != CR && v[k] != LF
    ensures RunsTo(f, p, s, v, 0, ReadValue(p, v))
  {
    assert FirstAt(f, s, p, v[0]);
    var o := FirstOutcome(p, v[0]);
    if IsNum(v[0]) {
      LengthBytes(f, o.p, v, 1);
    }
    RunOn(f, p, s, v, 0, o, ReadValue(p, v));
  }

  lemma DecimalFits(v: seq<Byte>)
    requires IsLength(v) && NotTooLong(v)
    ensures Decimal(Digits(v)) < ULLONG_MAX
  {
    var ds := Digits(v);
    if ds != [] {
      DecimalLast(ds, |ds| - 1);
      assert ds[..|ds|] == ds;
    }
  }

  lemma ReadValueIs(p: Parser, v: seq<Byte>)
    requires p.errno == Ok && v != [] && v[0] != SP
    ensures var q := ReadValue(p, v);
            if IsLength(v) && NotTooLong(v) then q.errno == Ok && q.contentLength == Decimal(Digits(v))
            else q.errno == InvalidContentLength
  {
    if IsNum(v[0]) {
      FirstDigit(v);
      ReadLengthIs(FirstOutcome(p, v[0]).p, v, 1);
    }
  }

  /** A Content-Length value is the number of its digits, spaces left out; it is refused if another byte
      is among them, and if one more digit would not have fit before its last one. */
  lemma ContentLengthIsItsDigits(f: Steps, answer: Answer, p: Parser, s: Stream, v: seq<Byte>)
    requires IsMachine(f, answer) && p.state == HeaderValueDiscardWs && p.headerState == HContentLength && p.errno == Ok
    requires v != [] && v[0] != SP && v[0] != HT && forall k :: 0 <= k < |v| ==> v[k] != CR && v[k] != LF
    ensures var q := Run(f, p, s, v, 0).p;
            if IsLength(v) && NotTooLong(v) then q.errno == Ok && q.contentLength == Decimal(Digits(v)) < ULLONG_MAX
            else q.errno == InvalidContentLength
  {
    MachineReadsLengths(f, answer);
    LengthValue(f, p, s, v);
    RunsToIs(f, p, s, v, 0, ReadValue(p, v));
    ReadValueIs(p, v);
    if IsLength(v) && NotTooLong(v) {
      DecimalFits(v);
    }
  }

  // ----- chunk sizes -----

  /** One more digit of a chunk size. */
  function SizeOutcome(p: Parser, ch: Byte): (o: Outcome)
    requires Unhex(ch) != -1
  {
    if HEX_LIMIT < p.contentLength then Outcome(p.(errno := InvalidContentLength), [], [], [], false)
    else Outcome(p.(contentLength := 16 * p.contentLength + Unhex(ch)), [], [], [], false)
  }

  ghost predicate SizeAt(f: Steps, s: Stream, p: Parser, ch: Byte) {
    p.errno == Ok && Unhex(ch) != -1 ==>
      && (p.state == ChunkSize ==> f(s, p, ch) == SizeOutcome(p, ch))
      && (p.state == ChunkSizeStart ==> f(s, p, ch) == Go(p.(contentLength := Unhex(ch)), ChunkSize))
  }

  ghost predicate ReadsSizes(f: Steps) {
    forall s, p, ch :: SizeAt(f, s, p, ch)
  }

  lemma MachineReadsSizes(f: Steps, answer: Answer)
    requires IsMachine(f, answer)
    ensures ReadsSizes(f)
  {
    forall s, p, ch ensures SizeAt(f, s, p, ch) {
      AtByte(f, answer, s, p, ch);
      if p.errno == Ok && Unhex(ch) != -1 {
        SizeHere(p, ch, answer(s, p));
      }
    }
  }

  lemma SizeHere(p: Parser, ch: Byte, skip: bool)
    requires p.errno == Ok && Unhex(ch) != -1
    ensures p.state == ChunkSize ==> Step(p, ch, skip) == SizeOutcome(p, ch)
    ensures p.state == ChunkSizeStart ==> Step(p, ch, skip) == Go(p.(contentLength := Unhex(ch)), ChunkSize)
  {
    StepByState(p, ch, skip);
    SizeStep(p, ch);
  }

  lemma SizeStep(p: Parser, ch: Byte)
    requires p.errno == Ok && Unhex(ch) != -1
    ensures p.state == ChunkSize ==> StepBody(p, ch) == SizeOutcome(p, ch)
    ensures p.state == ChunkSizeStart ==> StepBody(p, ch) == Go(p.(contentLength := Unhex(ch)), ChunkSize)
  {
    HexLimit(p.contentLength);
  }

  function ReadSize(p: Parser, ds: seq<Byte>, i: nat): (q: Parser)
    requires i <= |ds| && forall k :: 0 <= k < |ds| ==> Unhex(ds[k]) != -1
    decreases |ds| - i
  {
    if i == |ds| then p
    else
      var q := SizeOutcome(p, ds[i]).p;
      if q.errno != Ok then q else ReadSize(q, ds, i + 1)
  }

  lemma {:induction false} ReadSizeIs(p: Parser, ds: seq<Byte>, i: nat)
    requires 1 <= i <= |ds| && (forall k :: 0 <= k < |ds| ==> Unhex(ds[k]) != -1) && p.errno == Ok
    requires p.contentLength == Hex(ds[..i]) && Hex(ds[..i - 1]) <= HEX_LIMIT
    ensures var q := ReadSize(p, ds, i);
            if Hex(ds[..|ds| - 1]) <= HEX_LIMIT then q.errno == Ok && q.contentLength == Hex(ds)
            else q.errno == InvalidContentLength
    decreases |ds| - i
  {
    if i == |ds| {
      assert ds[..i] == ds;
    } else if HEX_LIMIT < p.contentLength {
      assert ds[..|ds| - 1][..i] == ds[..i];
      HexGrows(ds[..|ds| - 1], i);
    } else {
      HexLast(ds, i);
      ReadSizeIs(SizeOutcome(p, ds[i]).p, ds, i + 1);
    }
  }

  lemma {:induction false} SizeDigits(f: Steps, p: Parser, ds: seq<Byte>, i: nat)
    requires ReadsSizes(f) && p.state == ChunkSize && p.errno == Ok
    requires i <= |ds| && forall k :: 0 <= k < |ds| ==> Unhex(ds[k]) != -1
    ensures AlwaysRunsTo(f, p, ds, i, ReadSize(p, ds, i))
    decreases |ds| - i
  {
    if i < |ds| && SizeOutcome(p, ds[i]).p.errno == Ok {
      SizeDigits(f, SizeOutcome(p, ds[i]).p, ds, i + 1);
    }
    forall s ensures RunsTo(f, p, s, ds, i, ReadSize(p, ds, i)) {
      if i == |ds| {
        RunHere(f, p, s, ds);
      } else {
        assert SizeAt(f, s, p, ds[i]);
        RunOn(f, p, s, ds, i, SizeOutcome(p, ds[i]), ReadSize(p, ds, i));
      }
    }
  }

  lemma SizeValue(f: Steps, p: Parser, s: Stream, ds: seq<Byte>)
    requires ReadsSizes(f) && p.state == ChunkSizeStart && p.errno == Ok
    requires ds != [] && forall k :: 0 <= k < |ds| ==> Unhex(ds[k]) != -1
    ensures RunsTo(f, p, s, ds, 0, ReadSize(p.(contentLength := Unhex(ds[0]), state := ChunkSize), ds, 1))
  {
    assert SizeAt(f, s, p, ds[0]);
    var q := p.(contentLength := Unhex(ds[0]), state := ChunkSize);
    var o := Outcome(q, [], [], [], false);
    assert f(s, p, ds[0]) == o;
    SizeDigits(f, q, ds, 1);
    RunOn(f, p, s, ds, 0, o, ReadSize(q, ds, 1));
  }

  /** The size of a chunk. */
  lemma ChunkSizeIsItsDigits(f: Steps, answer: Answer, p: Parser, s: Stream, ds: seq<Byte>)
    requires IsMachine(f, answer) && p.state == ChunkSizeStart && p.errno == Ok
    requires ds != [] && forall k :: 0 <= k < |ds| ==> Unhex(ds[k]) != -1
    ensures var r := Run(f, p, s, ds, 0);
            && (r.p.errno == Ok <==> Hex(ds[..|ds| - 1]) <= HEX_LIMIT)
            && (r.p.errno == Ok ==> r.p.contentLength == Hex(ds) && r.p.contentLength != ULLONG_MAX)
            && (r.p.errno != Ok ==> r.p.errno == InvalidContentLength)
  {
    MachineReadsSizes(f, answer);
    SizeValue(f, p, s, ds);
    var q := p.(contentLength := Unhex(ds[0]), state := ChunkSize);
    HexLast(ds, 0);
    assert ds[..0] == [];
    ReadSizeIs(q, ds, 1);
    RunsToIs(f, p, s, ds, 0, ReadSize(q, ds, 1));
    HexLast(ds, |ds| - 1);
    assert ds[..|ds|] == ds;
  }

  // ----- numbers that fit but are refused -----

  /** ns are the numbers that the digits so far stand for. */
  lemma {:induction false} DecimalIs(ds: seq<Byte>, ns: seq<nat>, i: nat)
    requires i <= |ds| && |ns| == |ds| + 1 && ns[0] == 0
    requires forall k :: 0 <= k < |ds| ==> IsNum(ds[k]) && ns[k + 1] == 10 * ns[k] + DigitOf(ds[k])
    ensures Decimal(ds[..i]) == ns[i]
    decreases i
  {
    if i > 0 {
      DecimalLast(ds, i - 1);
      DecimalIs(ds, ns, i - 1);
    }
  }

  lemma {:induction false} HexIs(ds: seq<Byte>, ns: seq<nat>, i: nat)
    requires i <= |ds| && |ns| == |ds| + 1 && ns[0] == 0
    requires forall k :: 0 <= k < |ds| ==> Unhex(ds[k]) != -1 && ns[k + 1] == 16 * ns[k] + Unhex(ds[k])
    ensures Hex(ds[..i]) == ns[i]
    decreases i
  {
    if i > 0 {
      HexLast(ds, i - 1);
      HexIs(ds, ns, i - 1);
    }
  }

  // 18446744073709551610
  const BIG_LENGTH: seq<Byte> :=
    [0x31, 0x38, 0x34, 0x34, 0x36, 0x37, 0x34, 0x34, 0x30, 0x37, 0x33, 0x37, 0x30, 0x39, 0x35, 0x35, 0x31, 0x36, 0x31,
     0x30]

  const BIG_LENGTH_SO_FAR: seq<nat> :=
    [0, 1, 18, 184, 1844, 18446, 184467, 1844674, 18446744, 184467440, 1844674407, 18446744073, 184467440737,
     1844674407370,
     18446744073709, 184467440737095, 1844674407370955, 18446744073709551, 184467440737095516, 1844674407370955161,
     18446744073709551610]

  // FFFFFFFFFFFFFFF0
  const BIG_SIZE: seq<Byte> := seq(15, _ => 0x46) + [0x30]

  const BIG_SIZE_SO_FAR: seq<nat> :=
    [0, 0xF, 0xFF, 0xFFF, 0xFFFF, 0xF_FFFF, 0xFF_FFFF, 0xFFF_FFFF, 0xFFFF_FFFF, 0xF_FFFF_FFFF, 0xFF_FFFF_FFFF,
     0xFFF_FFFF_FFFF,
     0xFFFF_FFFF_FFFF, 0xF_FFFF_FFFF_FFFF, 0xFF_FFFF_FFFF_FFFF, 0xFFF_FFFF_FFFF_FFFF, 0xFFFF_FFFF_FFFF_FFF0]

  lemma {:induction false} NoSpaces(v: seq<Byte>)
    requires SP !in v
    ensures Digits(v) == v
  {
    if v != [] {
      NoSpaces(v[..|v| - 1]);
    }
  }

  lemma BigLengthSteps(k: nat)
    requires k < 20
    ensures IsNum(BIG_LENGTH[k]) && BIG_LENGTH_SO_FAR[k + 1] == 10 * BIG_LENGTH_SO_FAR[k] + DigitOf(BIG_LENGTH[k])
  {
  }

  lemma BigLengthNumber()
    ensures IsLength(BIG_LENGTH) && Digits(BIG_LENGTH) == BIG_LENGTH
    ensures Decimal(BIG_LENGTH) == 18446744073709551610 && !NotTooLong(BIG_LENGTH)
  {
    NoSpaces(BIG_LENGTH);
    forall k | 0 <= k < 20
      ensures IsNum(BIG_LENGTH[k]) && BIG_LENGTH_SO_FAR[k + 1] == 10 * BIG_LENGTH_SO_FAR[k] + DigitOf(BIG_LENGTH[k])
    {
      BigLengthSteps(k);
    }
    DecimalIs(BIG_LENGTH, BIG_LENGTH_SO_FAR, 19);
    DecimalIs(BIG_LENGTH, BIG_LENGTH_SO_FAR, 20);
    assert BIG_LENGTH[..20] == BIG_LENGTH;
  }

  /** A length of less than 2^64 - 1 that is refused. */
  lemma BigLengthRefused(f: Steps, answer: Answer, p: Parser, s: Stream)
    requires IsMachine(f, answer) && p.state == HeaderValueDiscardWs && p.headerState == HContentLength && p.errno == Ok
    ensures IsLength(BIG_LENGTH) && Decimal(Digits(BIG_LENGTH)) == 18446744073709551610 < ULLONG_MAX
    ensures Run(f, p, s, BIG_LENGTH, 0).p.errno == InvalidContentLength
  {
    BigLengthNumber();
    ContentLengthIsItsDigits(f, answer, p, s, BIG_LENGTH);
  }

  /** A chunk size of less than 2^64 - 1 that is refused. */
  lemma BigSizeRefused(f: Steps, answer: Answer, p: Parser, s: Stream)
    requires IsMachine(f, answer) && p.state == ChunkSizeStart && p.errno == Ok
    ensures (forall k :: 0 <= k < |BIG_SIZE| ==> Unhex(BIG_SIZE[k]) != -1)
    ensures Hex(BIG_SIZE) == 0xFFFF_FFFF_FFFF_FFF0 < ULLONG_MAX
    ensures Run(f, p, s, BIG_SIZE, 0).p.errno == InvalidContentLength
  {
    HexIs(BIG_SIZE, BIG_SIZE_SO_FAR, 15);
    HexIs(BIG_SIZE, BIG_SIZE_SO_FAR, 16);
    assert BIG_SIZE[..16] == BIG_SIZE;
    ChunkSizeIsItsDigits(f, answer, p, s, BIG_SIZE);
  }
}
