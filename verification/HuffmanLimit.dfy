/**
 From the depths of Huffman's tree to a table: counting the code lengths, limiting them to 16 bits,
 giving up the reserved code, and listing the symbols by code length.
 */
module HuffmanLimit {
  import opened Numbers
  import opened HuffmanTable
  import opened HuffmanOptimal

  const MAX_CLEN := 32  // longest code length that is counted

  type UInt8 = n: nat | n < 256

  /** How many of the first n symbols have length l. */
  function OfLength(codesize: seq<nat>, l: nat, n: nat): (k: nat)
    requires n <= |codesize|
    ensures k <= n
  {
    if n == 0 then 0 else OfLength(codesize, l, n - 1) + if codesize[n - 1] == l then 1 else 0
  }

  /** The number of codes of lengths 1 to l. */
  function CodeCount(bits: seq<nat>, l: nat): (k: nat)
    requires l < |bits|
  {
    if l == 0 then 0 else CodeCount(bits, l - 1) + bits[l]
  }

  /** The code space they take, counted in codes of length l. */
  function Taken(bits: seq<nat>, l: nat): (w: nat)
    requires l < |bits|
  {
    if l == 0 then 0 else 2 * Taken(bits, l - 1) + bits[l]
  }

  /** One more code of length i. */
  lemma {:induction false} OneMore(bits: seq<nat>, l: nat, i: nat)
    requires l < |bits| && 0 < i < |bits|
    ensures CodeCount(bits[i := bits[i] + 1], l) == CodeCount(bits, l) + if i <= l then 1 else 0
    ensures Taken(bits[i := bits[i] + 1], l) == Taken(bits, l) + if i <= l then Shl(1, l - i) else 0
  {
    if l > 0 {
      OneMore(bits, l - 1, i);
    }
  }

  lemma {:induction false} CountBounds(bits: seq<nat>, l: nat, i: nat, j: nat)
    requires 0 < i <= l < |bits| && 0 < j <= l
    ensures bits[i] <= CodeCount(bits, l) && (i != j ==> bits[i] + bits[j] <= CodeCount(bits, l))
  {
    if i < l || j < l {
      CountBounds(bits, l - 1, if i < l then i else j, if j < l then j else i);
    }
  }

  lemma {:induction false} NoneTaken(bits: seq<nat>, l: nat)
    requires l < |bits| && forall k :: 0 < k <= l ==> bits[k] == 0
    ensures Taken(bits, l) == 0 && CodeCount(bits, l) == 0
  {
    if l > 0 {
      NoneTaken(bits, l - 1);
    }
  }

  lemma PowerGrows(i: nat)
    requires i >= 10
    ensures Shl(1, i) >= 1024
    decreases i
  {
    if i > 10 {
      PowerGrows(i - 1);
    } else {
      Shl8(1);
      ShlShl(1, 8, 2);
      assert Shl(256, 2) == 2 * Shl(256, 1) == 4 * Shl(256, 0);
    }
  }

  /** Codes of up to i bits that fill the code space, at most 255 of them. */
  ghost predicate Full(bits: seq<nat>, i: nat) {
    i < |bits| && Taken(bits, i) == Shl(1, i) && CodeCount(bits, i) <= 255
  }

  /** Codes of two lengths alone are too few to fill the code space. */
  lemma LongTooFew(bits: seq<nat>, i: nat)
    requires Full(bits, i) && i > 16
    ensures exists k :: 0 < k <= i - 2 && bits[k] > 0
  {
    if forall k :: 0 < k <= i - 2 ==> bits[k] == 0 {
      NoneTaken(bits, i - 2);
      assert Taken(bits, i - 1) == bits[i - 1] && Taken(bits, i) == 2 * bits[i - 1] + bits[i];
      CountBounds(bits, i, i, i - 1);
      PowerGrows(i);
    }
  }

  /** The longest codes come in pairs, and with so few codes there is one at least two bits shorter
      than any long ones. */
  lemma ShorterExists(bits: seq<nat>, i: nat) returns (j: nat)
    requires Full(bits, i) && i > 16
    ensures bits[i] % 2 == 0 && 1 <= j <= i - 2 && bits[j] > 0
  {
    assert Shl(1, i) == 2 * Shl(1, i - 1);
    LongTooFew(bits, i);
    j :| 0 < j <= i - 2 && bits[j] > 0;
  }

  // ----- counting -----

  /** The code space of the first n symbols, counted in codes of 32 bits. */
  function Total32(codesize: seq<nat>, n: nat): (w: int)
    requires n <= |codesize|
  {
    if n == 0 then 0
    else Total32(codesize, n - 1) + if 0 < codesize[n - 1] <= MAX_CLEN then Shl(1, MAX_CLEN - codesize[n - 1]) else 0
  }

  lemma {:induction false} TotalIsTotal32(codesize: seq<nat>, n: nat)
    requires n <= |codesize| && forall i :: 0 <= i < n ==> codesize[i] <= MAX_CLEN
    ensures Total(codesize, n) == Shl(Total32(codesize, n), DEPTH - MAX_CLEN)
  {
    if n == 0 {
      ShlAdd(0, 0, DEPTH - MAX_CLEN);
    } else {
      TotalIsTotal32(codesize, n - 1);
      var l := codesize[n - 1];
      if l > 0 {
        ShlAdd(Total32(codesize, n - 1), Shl(1, MAX_CLEN - l), DEPTH - MAX_CLEN);
        ShlShl(1, MAX_CLEN - l, DEPTH - MAX_CLEN);
      }
    }
  }

  /** Complete lengths of at most 32 bits fill the code space. */
  lemma CompleteIsFull(codesize: seq<nat>, counted: seq<nat>)
    requires Complete(codesize, counted) && forall i :: 0 <= i < SYMBOLS ==> codesize[i] <= MAX_CLEN
    ensures Total32(codesize, SYMBOLS) == Shl(1, MAX_CLEN)
  {
    TotalIsTotal32(codesize, SYMBOLS);
    var x, y, k := Total32(codesize, SYMBOLS), Shl(1, MAX_CLEN), DEPTH - MAX_CLEN;
    ShlShl(1, MAX_CLEN, k);
    ShlOrder(x, y, k);
    ShlOrder(y, x, k);
  }

  /** How many codes there are of each length. */
  function LengthCounts(codesize: seq<nat>): (bits: seq<nat>)
    requires |codesize| == SYMBOLS
    ensures |bits| == MAX_CLEN + 1
  {
    seq(MAX_CLEN + 1, l requires 0 <= l <= MAX_CLEN => if l == 0 then 0 else OfLength(codesize, l, SYMBOLS))
  }

  predicate ShortCodes(codesize: seq<nat>) {
    forall s :: 0 <= s < |codesize| ==> codesize[s] <= MAX_CLEN
  }

  /** Count the symbols of each length, unless one is too long. */
  method CountLengths(codesize: array<nat>, bits: array<UInt8>) returns (ok: bool)
    requires codesize.Length == SYMBOLS && bits.Length == MAX_CLEN + 1 && Live(codesize[..], SYMBOLS) <= 255
    requires forall l :: 0 <= l < bits.Length ==> bits[l] == 0
    modifies bits
    ensures ok == ShortCodes(codesize[..])
    ensures ok ==>
              && Taken(bits[..], MAX_CLEN) == Total32(codesize[..], SYMBOLS)
              && CodeCount(bits[..], MAX_CLEN) == Live(codesize[..], SYMBOLS)
    ensures ok ==> bits[..] == LengthCounts(codesize[..])
  {
    NoneTaken(bits[..], MAX_CLEN);
    for i := 0 to SYMBOLS
      invariant forall s :: 0 <= s < i ==> codesize[s] <= MAX_CLEN
      invariant Taken(bits[..], MAX_CLEN) == Total32(codesize[..], i)
      invariant CodeCount(bits[..], MAX_CLEN) == Live(codesize[..], i)
      invariant bits[0] == 0 && forall l :: 1 <= l <= MAX_CLEN ==> bits[l] == OfLength(codesize[..], l, i)
    {
      if codesize[i] != 0 {
        if codesize[i] > MAX_CLEN {
          return false;
        }
        var l := codesize[i];
        LiveGrows(codesize[..], i + 1, SYMBOLS);
        CountBounds(bits[..], MAX_CLEN, l, l);
        OneMore(bits[..], MAX_CLEN, l);
        ghost var was: seq<nat> := bits[..];
        bits[l] := bits[l] + 1;
        assert bits[..] == was[l := was[l] + 1];
      }
    }
    ok := true;
  }

  lemma {:induction false} LiveGrows(freq: seq<nat>, m: nat, n: nat)
    requires m <= n <= |freq|
    ensures Live(freq, m) <= Live(freq, n)
    decreases n
  {
    if m < n {
      LiveGrows(freq, m, n - 1);
    }
  }

  // ----- limiting the lengths -----

  /** Two codes of length i become one of length i - 1. */
  function Shortened(bits: seq<nat>, i: nat): (r: seq<nat>)
    requires 1 <= i < |bits| && bits[i] >= 2
  {
    bits[i := bits[i] - 2][i - 1 := bits[i - 1] + 1]
  }

  /** A code of length j becomes two of length j + 1. */
  function Split(bits: seq<nat>, j: nat): (r: seq<nat>)
    requires j + 1 < |bits| && bits[j] > 0
  {
    bits[j + 1 := bits[j + 1] + 2][j := bits[j] - 1]
  }

  lemma {:induction false} UpdateAbove(bits: seq<nat>, l: nat, i: nat, v: nat)
    requires l < i < |bits|
    ensures Taken(bits[i := v], l) == Taken(bits, l) && CodeCount(bits[i := v], l) == CodeCount(bits, l)
  {
    if l > 0 {
      UpdateAbove(bits, l - 1, i, v);
    }
  }

  lemma ShortenedKeeps(bits: seq<nat>, i: nat, k: nat)
    requires 2 <= i < |bits| && bits[i] >= 2 && k == i - 1
    ensures Taken(Shortened(bits, i), i) == Taken(bits, i) && CodeCount(Shortened(bits, i), i) == CodeCount(bits, i) - 1
  {
    var b1 := bits[i := bits[i] - 2];
    var b := b1[k := bits[k] + 1];
    UpdateAbove(bits, k - 1, i, bits[i] - 2);
    UpdateAbove(b1, k - 1, k, bits[k] + 1);
    assert Taken(b, k) == Taken(bits, k) + 1 && CodeCount(b, k) == CodeCount(bits, k) + 1;
    assert b[i] == bits[i] - 2;
    assert b == Shortened(bits, i);
  }

  /** Together they take the same space with as many codes. */
  lemma ExchangeKeeps(bits: seq<nat>, i: nat, j: nat)
    requires i < |bits| && 1 <= j <= i - 2 && bits[i] >= 2 && bits[j] > 0
    ensures var b := Split(Shortened(bits, i), j);
            Taken(b, i) == Taken(bits, i) && CodeCount(b, i) == CodeCount(bits, i)
  {
    var b := Shortened(bits, i);
    ShortenedKeeps(bits, i, i - 1);
    SplitKeeps(b, i, j);
  }

  lemma {:induction false} SplitKeeps(bits: seq<nat>, i: nat, j: nat)
    requires 1 <= j < i < |bits| && bits[j] > 0
    ensures Taken(Split(bits, j), i) == Taken(bits, i) && CodeCount(Split(bits, j), i) == CodeCount(bits, i) + 1
  {
    if i == j + 1 {
      var b1 := bits[i := bits[i] + 2];
      UpdateAbove(bits, j - 1, i, bits[i] + 2);
      UpdateAbove(b1, j - 1, j, bits[j] - 1);
      assert Taken(Split(bits, j), j) == Taken(bits, j) - 1;
    } else {
      SplitKeeps(bits, i - 1, j);
    }
  }

  /** Figure K.3: two codes of length i become one that is a bit shorter, and a code of length j, the
      greatest in use that is at least two bits shorter, becomes two that are a bit longer. */
  ghost predicate Exchanged(b: seq<nat>, c: seq<nat>, i: nat, j: nat) {
    && 1 <= j <= i - 2 && i < |b| == |c| && b[i] >= 2 && b[j] > 0 && (forall l :: j < l <= i - 2 ==> b[l] == 0)
    && c[i] == b[i] - 2
    && forall l :: 0 <= l < |b| && l != i ==>
         c[l] == b[l] + (if l == i - 1 then 1 else 0) + (if l == j + 1 then 2 else 0) - (if l == j then 1 else 0)
  }

  /** One exchange, of codes of the greatest length in use. */
  ghost predicate RepairStep(b: seq<nat>, c: seq<nat>) {
    exists i, j :: 16 < i < |b| && Exchanged(b, c, i, j) && forall l :: i < l < |b| ==> b[l] == 0
  }

  /** Exchanges until no code is longer than 16 bits. */
  ghost predicate Repair(steps: seq<seq<nat>>) {
    && steps != [] && (forall k :: 0 <= k < |steps| - 1 ==> RepairStep(steps[k], steps[k + 1]))
    && var last := steps[|steps| - 1]; forall l :: 16 < l < |last| ==> last[l] == 0
  }

  /** One exchange. */
  method Exchange(bits: array<UInt8>, i: nat)
    requires 16 < i < bits.Length <= MAX_CLEN + 1 && Full(bits[..], i) && bits[i] > 0
    modifies bits
    ensures exists j :: Exchanged(old(bits[..]), bits[..], i, j)
    ensures Full(bits[..], i) && CodeCount(bits[..], i) == old(CodeCount(bits[..], i)) && bits[i] < old(bits[i])
    ensures forall l :: i < l < bits.Length ==> bits[l] == old(bits[l])
  {
    ghost var k := ShorterExists(bits[..], i);
    var j := i - 2;
    while bits[j] == 0
      invariant k <= j <= i - 2 && forall l :: j < l <= i - 2 ==> bits[l] == 0
      decreases j
    {
      j := j - 1;
    }
    ghost var was: seq<nat> := bits[..];
    ExchangeKeeps(was, i, j);
    CountBounds(was, i, i - 1, j);
    CountBounds(was, i, i - 1, i);
    CountBounds(was, i, j + 1, j);
    CountBounds(was, i, j + 1, i);
    bits[i] := bits[i] - 2;
    bits[i - 1] := bits[i - 1] + 1;
    bits[j + 1] := bits[j + 1] + 2;
    bits[j] := bits[j] - 1;
    assert bits[..] == Split(Shortened(was, i), j);
    assert Exchanged(was, bits[..], i, j);
  }

  /** Exchanges so far, and no code longer than i bits. */
  ghost predicate Repairing(steps: seq<seq<nat>>, bits: seq<nat>, i: nat) {
    && steps != [] && (forall k :: 0 <= k < |steps| - 1 ==> RepairStep(steps[k], steps[k + 1]))
    && steps[|steps| - 1] == bits && forall l :: i < l < |bits| ==> bits[l] == 0
  }

  lemma {:induction false} RepairGoesOn(steps: seq<seq<nat>>, b: seq<nat>, c: seq<nat>, i: nat)
    requires Repairing(steps, b, i) && 16 < i < |b| && exists j :: Exchanged(b, c, i, j)
    ensures Repairing(steps + [c], c, i) && (steps + [c])[0] == steps[0]
  {
    var j :| Exchanged(b, c, i, j);
    assert RepairStep(b, c);
    var next := steps + [c];
    forall k | 0 <= k < |next| - 1 ensures RepairStep(next[k], next[k + 1]) {
      if k < |steps| - 1 {
        assert RepairStep(steps[k], steps[k + 1]);
      }
    }
  }

  /** Make all codes of at most 16 bits; their number stays the same and they still fill the code
      space. */
  method LimitLengths(bits: array<UInt8>) returns (ghost steps: seq<seq<nat>>)
    requires bits.Length == MAX_CLEN + 1 && Full(bits[..], MAX_CLEN)
    modifies bits
    ensures Full(bits[..], MAX_BITS) && CodeCount(bits[..], MAX_BITS) == old(CodeCount(bits[..], MAX_CLEN))
    ensures Repair(steps) && steps[0] == old(bits[..]) && steps[|steps| - 1] == bits[..]
  {
    steps := [bits[..]];
    var i := MAX_CLEN;
    while i > 16
      invariant 16 <= i <= MAX_CLEN && Full(bits[..], i) && CodeCount(bits[..], i) == old(CodeCount(bits[..], MAX_CLEN))
      invariant Repairing(steps, bits[..], i) && steps[0] == old(bits[..])
    {
      while bits[i] > 0
        invariant Full(bits[..], i) && CodeCount(bits[..], i) == old(CodeCount(bits[..], MAX_CLEN))
        invariant Repairing(steps, bits[..], i) && steps[0] == old(bits[..])
        decreases bits[i]
      {
        ghost var was: seq<nat> := bits[..];
        Exchange(bits, i);
        RepairGoesOn(steps, was, bits[..], i);
        steps := steps + [bits[..]];
      }
      i := i - 1;
    }
  }

  lemma {:induction false} OneLess(bits: seq<nat>, l: nat, i: nat)
    requires 1 <= i <= l < |bits| && bits[i] > 0
    ensures Taken(bits[i := bits[i] - 1], l) < Taken(bits, l)
    ensures CodeCount(bits[i := bits[i] - 1], l) == CodeCount(bits, l) - 1
  {
    if i == l {
      UpdateAbove(bits, l - 1, i, bits[i] - 1);
    } else {
      OneLess(bits, l - 1, i);
    }
  }

  /** The greatest length in use, up to 16. */
  ghost predicate LongestIn(bits: seq<nat>, l: nat) {
    1 <= l <= MAX_BITS < |bits| && bits[l] > 0 && forall k :: l < k <= MAX_BITS ==> bits[k] == 0
  }

  /** Give up one code of the greatest length. */
  method DropReserved(bits: array<UInt8>) returns (ghost l: nat)
    requires bits.Length == MAX_CLEN + 1 && Full(bits[..], MAX_BITS)
    modifies bits
    ensures Taken(bits[..], MAX_BITS) < Shl(1, MAX_BITS)
    ensures CodeCount(bits[..], MAX_BITS) == old(CodeCount(bits[..], MAX_BITS)) - 1
    ensures LongestIn(old(bits[..]), l) && bits[..] == old(bits[..][l := bits[l] - 1])
  {
    ghost var was: seq<nat> := bits[..];
    var i := MAX_BITS;
    while bits[i] == 0
      invariant 1 <= i <= MAX_BITS && bits[..] == was && Taken(was, i) == Shl(1, i)
      invariant forall k :: i < k <= MAX_BITS ==> was[k] == 0
      decreases i
    {
      assert Taken(was, 0) == 0 && Shl(1, 0) == 1;
      i := i - 1;
    }
    OneLess(was, MAX_BITS, i);
    bits[i] := bits[i] - 1;
    l := i;
    assert bits[..] == was[i := was[i] - 1];
  }

  // ----- listing the symbols -----

  /** How many of the first n symbols have lengths 1 to l. */
  function Listed(codesize: seq<nat>, l: nat, n: nat): (k: nat)
    requires n <= |codesize|
  {
    if l == 0 then 0 else Listed(codesize, l - 1, n) + OfLength(codesize, l, n)
  }

  lemma {:induction false} ListedNext(codesize: seq<nat>, l: nat, n: nat)
    requires n < |codesize|
    ensures Listed(codesize, l, n + 1) == Listed(codesize, l, n) + if 1 <= codesize[n] <= l then 1 else 0
  {
    if l > 0 {
      ListedNext(codesize, l - 1, n);
    }
  }

  lemma {:induction false} ListedGrows(codesize: seq<nat>, i: nat, l: nat, j: nat, n: nat)
    requires 1 <= i <= l && j <= n <= |codesize|
    ensures Listed(codesize, i - 1, n) + OfLength(codesize, i, j) <= Listed(codesize, l, n)
    decreases l, n - j
  {
    if j < n {
      ListedGrows(codesize, i, l, j + 1, n);
    } else if i < l {
      ListedGrows(codesize, i, l - 1, n, n);
    }
  }

  lemma {:induction false} ListedIsCounted(codesize: seq<nat>, bits: seq<nat>, l: nat)
    requires |codesize| == SYMBOLS && l < |bits|
    requires forall m :: 1 <= m <= l ==> bits[m] == OfLength(codesize, m, SYMBOLS)
    ensures Listed(codesize, l, SYMBOLS) == CodeCount(bits, l)
  {
    if l > 0 {
      ListedIsCounted(codesize, bits, l - 1);
    }
  }

  ghost predicate ToList(codesize: seq<nat>, i: nat, j: nat, v: Symbol)
    requires |codesize| == SYMBOLS
  {
    1 <= codesize[v] && (codesize[v] < i || (codesize[v] == i && v < j))
  }

  // Always true. Mentioning it expands the predicate below.
  ghost predicate Expand(x: nat) {
    true
  }

  /** By length, and by number among equals. */
  predicate Earlier(codesize: seq<nat>, u: Symbol, v: Symbol)
    requires |codesize| == SYMBOLS
  {
    codesize[u] < codesize[v] || (codesize[u] == codesize[v] && u < v)
  }

  /** After all shorter codes and before all longer ones. */
  predicate PlacedAt(codesize: seq<nat>, v: Symbol, q: nat)
    requires |codesize| == SYMBOLS
  {
    codesize[v] >= 1 && Listed(codesize, codesize[v] - 1, RESERVED) <= q < Listed(codesize, codesize[v], RESERVED)
  }

  /** list holds the symbols with lengths below i and the first j symbols of length i, in order of
      length. */
  ghost predicate List(codesize: seq<nat>, list: seq<Symbol>, i: nat, j: nat) {
    forall x: nat :: Expand(x) ==>
      && |codesize| == SYMBOLS && j <= 256 && 1 <= i
      && |list| == Listed(codesize, i - 1, 256) + OfLength(codesize, i, j)
      && (forall q :: 0 <= q < |list| ==> ToList(codesize, i, j, list[q]))
      && (forall q, r :: 0 <= q < r < |list| ==> Earlier(codesize, list[q], list[r]))
      && (forall q :: 0 <= q < |list| ==> PlacedAt(codesize, list[q], q))
      && (forall v: Symbol :: ToList(codesize, i, j, v) ==> v in list)
  }

  lemma ListStart(codesize: seq<nat>)
    requires |codesize| == SYMBOLS
    ensures List(codesize, [], 1, 0)
  {
  }

  lemma ListNext(codesize: seq<nat>, list: seq<Symbol>, i: nat, j: nat)
    requires |codesize| == SYMBOLS && List(codesize, list, i, j) && 1 <= i && j < 256
    ensures codesize[j] == i ==> List(codesize, list + [j], i, j + 1)
    ensures codesize[j] != i ==> List(codesize, list, i, j + 1)
    ensures |list| == Listed(codesize, i - 1, 256) + OfLength(codesize, i, j)
  {
    assert Expand(0);
    forall v: Symbol
      ensures ToList(codesize, i, j + 1, v) <==> ToList(codesize, i, j, v) || (v == j && codesize[j] == i)
    {
    }
    if codesize[j] == i {
      ListAppended(codesize, list, i, j);
    }
  }

  lemma ListAppended(codesize: seq<nat>, list: seq<Symbol>, i: nat, j: nat)
    requires |codesize| == SYMBOLS && List(codesize, list, i, j) && 1 <= i && j < 256 && codesize[j] == i
    ensures List(codesize, list + [j], i, j + 1)
  {
    assert Expand(0);
    var l := list + [j];
    ListedGrows(codesize, i, i, j + 1, RESERVED);
    forall q | 0 <= q < |l|
      ensures ToList(codesize, i, j + 1, l[q]) && PlacedAt(codesize, l[q], q)
      ensures q < |list| ==> l[q] == list[q] && Earlier(codesize, list[q], j)
    {
      if q < |list| {
        assert ToList(codesize, i, j, list[q]);
      }
    }
    forall v: Symbol | ToList(codesize, i, j + 1, v) ensures v in l {
      assert v != j ==> ToList(codesize, i, j, v);
    }
  }

  lemma ListNextLength(codesize: seq<nat>, list: seq<Symbol>, i: nat)
    requires List(codesize, list, i, 256)
    ensures List(codesize, list, i + 1, 0)
  {
    assert Expand(0);
  }

  /** The full list. */
  lemma ListEnd(codesize: seq<nat>, list: seq<Symbol>)
    requires |codesize| == SYMBOLS && List(codesize, list, MAX_CLEN + 1, 0)
    ensures |list| == Listed(codesize, MAX_CLEN, 256)
    ensures forall q, r :: 0 <= q < r < |list| ==> Earlier(codesize, list[q], list[r])
    ensures forall q :: 0 <= q < |list| ==> PlacedAt(codesize, list[q], q)
    ensures forall v: Symbol :: v in list <==> 1 <= codesize[v] <= MAX_CLEN
  {
    assert Expand(0);
    forall v: Symbol ensures v in list <==> 1 <= codesize[v] <= MAX_CLEN {
      assert ToList(codesize, MAX_CLEN + 1, 0, v) <==> 1 <= codesize[v] <= MAX_CLEN;
    }
  }

  /** Append the symbols of length i. */
  method ListLength(codesize: array<nat>, huffval: array<Symbol>, i: nat, p: nat) returns (next: nat)
    requires codesize.Length == SYMBOLS && huffval.Length == 256 && 1 <= i <= MAX_CLEN && p <= 256
    requires Listed(codesize[..], MAX_CLEN, 256) <= 256 && List(codesize[..], huffval[..p], i, 0)
    modifies huffval
    ensures next <= 256 && List(codesize[..], huffval[..next], i + 1, 0)
  {
    next := p;
    for j := 0 to 256
      invariant next <= 256 && List(codesize[..], huffval[..next], i, j)
    {
      ListNext(codesize[..], huffval[..next], i, j);
      ListedGrows(codesize[..], i, MAX_CLEN, j + 1, 256);
      if codesize[j] == i {
        ghost var list := huffval[..next];
        huffval[next] := j;
        next := next + 1;
        assert huffval[..next] == list + [j];
      }
    }
    ListNextLength(codesize[..], huffval[..next], i);
  }

  /** The symbols in order of code length. */
  method ListSymbols(codesize: array<nat>, huffval: array<Symbol>) returns (p: nat)
    requires codesize.Length == SYMBOLS && huffval.Length == 256 && Listed(codesize[..], MAX_CLEN, 256) <= 256
    modifies huffval
    ensures p <= 256 && List(codesize[..], huffval[..p], MAX_CLEN + 1, 0)
  {
    p := 0;
    ListStart(codesize[..]);
    assert huffval[..0] == [];
    for i := 1 to MAX_CLEN + 1
      invariant p <= 256 && List(codesize[..], huffval[..p], i, 0)
    {
      p := ListLength(codesize, huffval, i, p);
    }
  }

  // ----- the table -----

  lemma {:induction false} KraftOfCopies(s: seq<CodeLength>, l: CodeLength, n: nat)
    ensures Kraft(s + Copies(l, n)) == Kraft(s) + Shl(n, MAX_BITS - l)
  {
    if n == 0 {
      assert s + Copies(l, 0) == s;
      ShlAdd(0, 0, MAX_BITS - l);
    } else {
      KraftOfCopies(s, l, n - 1);
      assert s + Copies(l, n) == s + Copies(l, n - 1) + [l];
      ShlAdd(n - 1, 1, MAX_BITS - l);
    }
  }

  lemma ShiftedSum(w: int, b: int, e: nat)
    ensures Shl(w, e + 1) + Shl(b, e) == Shl(2 * w + b, e)
  {
    ShlAdd(w, w, e);
    ShlAdd(2 * w, b, e);
  }

  /** The code space of the final lengths, on the scale of the tables. */
  lemma {:induction false} KraftIsTaken(bits: seq<nat>, b: seq<nat>, l: Length)
    requires |bits| == MAX_BITS + 1 <= |b| && bits == b[..MAX_BITS + 1]
    ensures Kraft(Sizes(bits, l)) == Shl(Taken(b, l), MAX_BITS - l)
    ensures |Sizes(bits, l)| == CodeCount(b, l)
  {
    var e := MAX_BITS - l;
    if l == 0 {
      ShlAdd(0, 0, e);
    } else {
      KraftIsTaken(bits, b, l - 1);
      KraftOfCopies(Sizes(bits, l - 1), l, bits[l]);
      assert bits[l] == b[l];
      ShiftedSum(Taken(b, l - 1), b[l], e);
    }
  }

  /** The table has codes for exactly the counted symbols, and an encoder accepts it. */
  ghost predicate TableFor(t: HuffTable, counted: seq<nat>) {
    && t.Shaped() && |counted| == SYMBOLS
    && (forall maxSymbol: nat :: (forall v: Symbol :: v > maxSymbol ==> counted[v] == 0) ==> Acceptable(t, maxSymbol))
    && |Sizes(t.bits, MAX_BITS)| <= 256
    && forall v: Symbol :: counted[v] > 0 <==> v in t.huffval[..|Sizes(t.bits, MAX_BITS)|]
  }

  /** bits comes from the counts of the lengths by the repair and by giving up one of the longest codes. */
  ghost predicate BitsOf(bits: seq<nat>, size: seq<nat>)
    requires |size| == SYMBOLS
  {
    exists steps, l :: MadeBy(bits, size, steps, l)
  }

  ghost predicate MadeBy(bits: seq<nat>, size: seq<nat>, steps: seq<seq<nat>>, l: nat)
    requires |size| == SYMBOLS
  {
    && Repair(steps) && steps[0] == LengthCounts(size)
    && var last := steps[|steps| - 1]; LongestIn(last, l) && bits == last[l := last[l] - 1][..MAX_BITS + 1]
  }

  /** The table for these lengths: symbols in order of length, and among equals in order of number. */
  ghost predicate TableOf(t: HuffTable, size: seq<nat>) {
    && t.Shaped() && |size| == SYMBOLS && BitsOf(t.bits, size) && |Sizes(t.bits, MAX_BITS)| <= 256
    && var list := t.huffval[..|Sizes(t.bits, MAX_BITS)|];
       && (forall q, r :: 0 <= q < r < |list| ==> Earlier(size, list[q], list[r]))
       && forall q :: 0 <= q < |list| ==> PlacedAt(size, list[q], q)
  }

  /** Both of that. */
  ghost predicate IsTable(t: HuffTable, counted: seq<nat>, size: seq<nat>) {
    forall x: nat :: Expand(x) ==> TableFor(t, counted) && TableOf(t, size)
  }

  lemma ListIsAcceptable(t: HuffTable, list: seq<Symbol>, maxSymbol: nat)
    requires t.Shaped() && Kraft(Sizes(t.bits, MAX_BITS)) < 0x1_0000 && |Sizes(t.bits, MAX_BITS)| <= 256
    requires list == t.huffval[..|Sizes(t.bits, MAX_BITS)|]
    requires forall q, r :: 0 <= q < r < |list| ==> list[q] != list[r]
    requires forall v :: v in list ==> v <= maxSymbol
    ensures Acceptable(t, maxSymbol)
  {
    forall p | 0 <= p < |list| ensures t.huffval[p] == list[p] && t.huffval[p] <= maxSymbol {
      assert list[p] in list;
    }
  }

  lemma TableIsMade(t: HuffTable, counted: seq<nat>, codesize: seq<nat>, b: seq<nat>)
    requires t.Shaped() && |counted| == |codesize| == SYMBOLS && |b| > MAX_BITS && t.bits == b[..MAX_BITS + 1]
    requires Taken(b, MAX_BITS) < Shl(1, MAX_BITS) && CodeCount(b, MAX_BITS) <= 256 && BitsOf(t.bits, codesize)
    requires List(codesize, t.huffval[..CodeCount(b, MAX_BITS)], MAX_CLEN + 1, 0)
    requires forall v: Symbol :: codesize[v] <= MAX_CLEN && (codesize[v] > 0 <==> counted[v] > 0)
    ensures TableFor(t, counted) && TableOf(t, codesize)
  {
    ShlOctet(1, 8);
    Shl8(1);
    KraftIsTaken(t.bits, b, MAX_BITS);
    ghost var list := t.huffval[..CodeCount(b, MAX_BITS)];
    ListEnd(codesize, list);
    forall maxSymbol: nat | forall v: Symbol :: v > maxSymbol ==> counted[v] == 0 ensures Acceptable(t, maxSymbol) {
      ListIsAcceptable(t, list, maxSymbol);
    }
  }

  /** The counts that gen_optimal_table works with: the reserved symbol is counted once. */
  function WithReserved(freq: seq<nat>): (counted: seq<nat>)
    requires |freq| == SYMBOLS
  {
    freq[RESERVED := 1]
  }

  /** At most 16 bits, and one code less. */
  method LimitBits(bits: array<UInt8>, ghost size: seq<nat>)
    requires bits.Length == MAX_CLEN + 1 && Full(bits[..], MAX_CLEN)
    requires |size| == SYMBOLS && bits[..] == LengthCounts(size)
    modifies bits
    ensures Taken(bits[..], MAX_BITS) < Shl(1, MAX_BITS) && BitsOf(bits[..MAX_BITS + 1], size)
    ensures CodeCount(bits[..], MAX_BITS) == old(CodeCount(bits[..], MAX_CLEN)) - 1
  {
    ghost var steps := LimitLengths(bits);
    ghost var l := DropReserved(bits);
    assert MadeBy(bits[..MAX_BITS + 1], size, steps, l);
  }

  /** A length of at most 32 bits for every counted symbol, the reserved one among them. */
  ghost predicate Counted(codesize: seq<nat>, counted: seq<nat>) {
    && |codesize| == |counted| == SYMBOLS && counted[RESERVED] > 0
    && forall s :: 0 <= s < SYMBOLS ==> codesize[s] <= MAX_CLEN && (codesize[s] > 0 <==> counted[s] > 0)
  }

  lemma LengthsFill(codesize: seq<nat>, counted: seq<nat>, bits: seq<nat>)
    requires Complete(codesize, counted) && ShortCodes(codesize) && counted[RESERVED] > 0 && |bits| == MAX_CLEN + 1
    requires Taken(bits, MAX_CLEN) == Total32(codesize, SYMBOLS)
    requires CodeCount(bits, MAX_CLEN) == Live(codesize, SYMBOLS) <= 255
    ensures Counted(codesize, counted) && Full(bits, MAX_CLEN)
  {
    CompleteIsFull(codesize, counted);
  }

  /** Bring the lengths into the form of a table. */
  method FinishTable(codesize: array<nat>, bits: array<UInt8>, huffval: array<Symbol>, ghost counted: seq<nat>)
    requires codesize.Length == SYMBOLS && bits.Length == MAX_CLEN + 1 && huffval.Length == 256
    requires Counted(codesize[..], counted) && Full(bits[..], MAX_CLEN) && bits[..] == LengthCounts(codesize[..])
    modifies bits, huffval
    ensures IsTable(HuffTable(bits[..MAX_BITS + 1], huffval[..]), counted, codesize[..])
  {
    ListedIsCounted(codesize[..], bits[..], MAX_CLEN);
    ListedNext(codesize[..], MAX_CLEN, RESERVED);
    LimitBits(bits, codesize[..]);
    var p := ListSymbols(codesize, huffval);
    ghost var t, b: seq<nat> := HuffTable(bits[..MAX_BITS + 1], huffval[..]), bits[..];
    ListEnd(codesize[..], huffval[..p]);
    assert t.bits == b[..MAX_BITS + 1] && t.huffval[..p] == huffval[..p];
    TableIsMade(t, counted, codesize[..], b);
    assert Expand(0);
  }

  method CopyBits(bits: array<UInt8>, htblBits: array<nat>)
    requires bits.Length == MAX_CLEN + 1 && htblBits.Length == MAX_BITS + 1
    modifies htblBits
    ensures htblBits[..] == bits[..MAX_BITS + 1] && bits[..] == old(bits[..])
  {
    for l := 0 to MAX_BITS + 1
      invariant htblBits[..l] == bits[..l] && bits[..] == old(bits[..])
    {
      htblBits[l] := bits[l];
    }
    assert htblBits[..MAX_BITS + 1] == htblBits[..];
  }

  /** The table of these lengths. */
  method StoreTable(codesize: array<nat>, bits: array<UInt8>, htblBits: array<nat>, huffval: array<Symbol>,
                    ghost counted: seq<nat>)
    requires codesize.Length == SYMBOLS && bits.Length == MAX_CLEN + 1 && huffval.Length == 256
    requires htblBits.Length == MAX_BITS + 1 && htblBits != codesize
    requires Counted(codesize[..], counted) && Full(bits[..], MAX_CLEN) && bits[..] == LengthCounts(codesize[..])
    modifies bits, htblBits, huffval
    ensures IsTable(HuffTable(htblBits[..], huffval[..]), counted, codesize[..])
  {
    FinishTable(codesize, bits, huffval, counted);
    ghost var t := HuffTable(bits[..MAX_BITS + 1], huffval[..]);
    CopyBits(bits, htblBits);
    assert HuffTable(htblBits[..], huffval[..]) == t;
  }

  /** Generate the best table for the counts; ok unless Huffman's procedure makes a code longer than 32
      bits, which takes a total count of at least LeastCount(33). */
  method GenOptimalTable(freq: array<nat>, htblBits: array<nat>, huffval: array<Symbol>) returns (ok: bool)
    requires freq.Length == SYMBOLS && htblBits.Length == MAX_BITS + 1 && huffval.Length == 256 && freq != htblBits
    requires Sum(freq[..], RESERVED) < MAX_COUNT && 1 <= Live(freq[..], RESERVED) <= 254
    modifies freq, htblBits, huffval
    ensures ok ==>
              var counted := old(WithReserved(freq[..]));
              IsTable(HuffTable(htblBits[..], huffval[..]), counted, HuffmanLengths(counted))
    ensures ok <==> ShortCodes(HuffmanLengths(old(WithReserved(freq[..]))))
    ensures old(Sum(freq[..], RESERVED)) + 1 < LeastCount(MAX_CLEN + 1) ==> ok
  {
    SumUpdate(freq[..], RESERVED, RESERVED, 1);
    freq[RESERVED] := 1;
    ghost var counted := freq[..];
    assert counted == old(WithReserved(freq[..]));
    var bits := new UInt8[MAX_CLEN + 1](i => 0);
    var codesize := new nat[SYMBOLS](i => 0);
    var others := new int[SYMBOLS](i => -1);
    BuildTree(freq, codesize, others);
    SameLive(counted, codesize[..], SYMBOLS);
    ok := CountLengths(codesize, bits);
    if ok {
      LengthsFill(codesize[..], counted, bits[..]);
      StoreTable(codesize, bits, htblBits, huffval, counted);
    } else {
      LongNeedsCount(codesize[..], counted);
    }
  }

  lemma {:induction false} SameLive(a: seq<nat>, b: seq<nat>, n: nat)
    requires n <= |a| && n <= |b| && forall i :: 0 <= i < n ==> (a[i] > 0 <==> b[i] > 0)
    ensures Live(a, n) == Live(b, n)
  {
    if n > 0 {
      SameLive(a, b, n - 1);
    }
  }

  lemma {:induction false} LeastCountGrows(d: nat, e: nat)
    requires d <= e
    ensures LeastCount(d) <= LeastCount(e)
    decreases e
  {
    if d < e {
      LeastCountGrows(d, e - 1);
    }
  }

  lemma LongNeedsCount(codesize: seq<nat>, counted: seq<nat>)
    requires Complete(codesize, counted) && exists s :: 0 <= s < SYMBOLS && codesize[s] > MAX_CLEN
    ensures LeastCount(MAX_CLEN + 1) <= Sum(counted, SYMBOLS)
  {
    var s :| 0 <= s < SYMBOLS && codesize[s] > MAX_CLEN;
    LeastCountGrows(MAX_CLEN + 1, codesize[s]);
  }

  /** In numbers: no overflow below 9227465 symbols. */
  lemma LeastCountOf33()
    ensures LeastCount(MAX_CLEN + 1) == 9227465
  {
    assert LeastCount(6) == 21 && LeastCount(7) == 34;
    assert LeastCount(12) == 377 && LeastCount(13) == 610;
    assert LeastCount(18) == 6765 && LeastCount(19) == 10946;
    assert LeastCount(24) == 121393 && LeastCount(25) == 196418;
    assert LeastCount(29) == 1346269 && LeastCount(30) == 2178309;
  }
}
