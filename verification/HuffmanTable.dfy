/**
 Huffman tables: from code lengths to canonical codes (Annex C of ITU-T T.81), with the checks
 that the encoder makes on a table, and why the codes of an accepted table can be told apart.
 */
module HuffmanTable {
  import opened Numbers

  const MAX_BITS := 16

  type Length = l: nat | l <= MAX_BITS
  type CodeLength = l: nat | 1 <= l <= MAX_BITS witness 1
  type Symbol = s: nat | s < 256

  /** bits[l] is the number of codes of length l; huffval lists the symbols in order of length. */
  datatype HuffTable = HuffTable(bits: seq<nat>, huffval: seq<Symbol>) {
    predicate Shaped() {
      |bits| == MAX_BITS + 1 && |huffval| == 256
    }
  }

  /** n copies of l. */
  function Copies(l: CodeLength, n: nat): (s: seq<CodeLength>)
    ensures |s| == n
  {
    seq(n, i => l)
  }

  /** Figure C.1: the lengths of the codes, those up to length l. */
  function Sizes(bits: seq<nat>, l: Length): (s: seq<CodeLength>)
    requires |bits| == MAX_BITS + 1
  {
    if l == 0 then [] else Sizes(bits, l - 1) + Copies(l, bits[l])
  }

  /** The share of the code space that a code of length l takes, of 2^16 in all. */
  function Space(l: CodeLength): (n: nat)
    ensures n >= 1
  {
    ShlOrder(1, 0, MAX_BITS - l);
    ShlAdd(0, 0, MAX_BITS - l);
    Shl(1, MAX_BITS - l)
  }

  /** The code space that codes of these lengths take. */
  function Kraft(s: seq<CodeLength>): (k: nat) {
    if s == [] then 0 else Kraft(s[..|s| - 1]) + Space(s[|s| - 1])
  }

  lemma {:induction false} KraftPrefix(s: seq<CodeLength>, p: nat, q: nat)
    requires p <= q <= |s|
    ensures Kraft(s[..p]) <= Kraft(s[..q])
    ensures p < q ==> Kraft(s[..p]) + Space(s[p]) <= Kraft(s[..q])
    decreases q
  {
    if p < q {
      assert s[..q][..q - 1] == s[..q - 1];
      KraftPrefix(s, p, q - 1);
    }
  }

  predicate Ascending(s: seq<CodeLength>) {
    forall p, q :: 0 <= p < q < |s| ==> s[p] <= s[q]
  }

  lemma {:induction false} SizesAscend(bits: seq<nat>, l: Length)
    requires |bits| == MAX_BITS + 1
    ensures Ascending(Sizes(bits, l)) && forall p :: 0 <= p < |Sizes(bits, l)| ==> Sizes(bits, l)[p] <= l
  {
    if l > 0 {
      SizesAscend(bits, l - 1);
    }
  }

  lemma {:induction false} SizesPrefix(bits: seq<nat>, l: Length, m: Length)
    requires |bits| == MAX_BITS + 1 && l <= m
    ensures Sizes(bits, l) <= Sizes(bits, m)
    decreases m
  {
    if l < m {
      SizesPrefix(bits, l, m - 1);
    }
  }

  /** What the encoder demands of a table: at most 256 codes, with some code space left over, for
      different symbols in range. */
  ghost predicate Acceptable(t: HuffTable, maxSymbol: nat)
    requires t.Shaped()
  {
    var s := Sizes(t.bits, MAX_BITS);
    && |s| <= 256 && Kraft(s) < 0x1_0000
    && (forall p :: 0 <= p < |s| ==> t.huffval[p] <= maxSymbol)
    && forall p, q :: 0 <= p < q < |s| ==> t.huffval[p] != t.huffval[q]
  }

  /** Figure C.2: the code number p starts where the code space of those before it ends. */
  function Code(s: seq<CodeLength>, p: nat): (code: nat)
    requires p < |s|
  {
    ShrBounded(Kraft(s[..p]), MAX_BITS - s[p]);
    Shr(Kraft(s[..p]), MAX_BITS - s[p])
  }

  function Codes(s: seq<CodeLength>): (codes: seq<nat>)
    ensures |codes| == |s|
  {
    seq(|s|, p requires 0 <= p < |s| => Code(s, p))
  }

  /** Figure C.3 for the first n codes: code and length by symbol; length 0 without a code. */
  ghost predicate DerivedUpTo(huffval: seq<Symbol>, s: seq<CodeLength>, codes: seq<nat>, n: nat, ehufco: seq<nat>,
                              ehufsi: seq<nat>)
    requires n <= |s| == |codes| <= |huffval|
  {
    && |ehufco| == |ehufsi| == 256
    && (forall p :: 0 <= p < n ==> ehufco[huffval[p]] == codes[p] && ehufsi[huffval[p]] == s[p])
    && forall v: Symbol :: ehufsi[v] != 0 ==> exists p :: 0 <= p < n && huffval[p] == v
  }

  ghost predicate Derived(t: HuffTable, ehufco: seq<nat>, ehufsi: seq<nat>)
    requires t.Shaped() && |Sizes(t.bits, MAX_BITS)| <= 256
  {
    var s := Sizes(t.bits, MAX_BITS);
    DerivedUpTo(t.huffval, s, Codes(s), |s|, ehufco, ehufsi)
  }

  // ----- computing the codes -----

  method FillSizes(bits: seq<nat>, huffsize: array<nat>) returns (ok: bool, lastp: nat)
    requires |bits| == MAX_BITS + 1 && huffsize.Length == 257
    modifies huffsize
    ensures ok == (|Sizes(bits, MAX_BITS)| <= 256)
    ensures ok ==>
              lastp == |Sizes(bits, MAX_BITS)| && huffsize[..lastp] == Sizes(bits, MAX_BITS) && huffsize[lastp] == 0
  {
    lastp := 0;
    var l := 1;
    while l <= MAX_BITS
      invariant 1 <= l <= MAX_BITS + 1 && lastp <= 256
      invariant lastp == |Sizes(bits, l - 1)| && huffsize[..lastp] == Sizes(bits, l - 1)
    {
      var i := bits[l];
      if lastp + i > 256 {
        SizesPrefix(bits, l, MAX_BITS);
        return false, 0;
      }
      while i > 0
        invariant i <= bits[l] && lastp + i <= 256 && lastp == |Sizes(bits, l - 1)| + bits[l] - i
        invariant huffsize[..lastp] == Sizes(bits, l - 1) + Copies(l, bits[l] - i)
      {
        i := i - 1;
        huffsize[lastp] := l;
        lastp := lastp + 1;
      }
      l := l + 1;
    }
    huffsize[lastp] := 0;
    ok := true;
  }

  /** Within one length: the next code is where the code space used so far ends. */
  lemma NextCode(s: seq<CodeLength>, p: nat, code: nat)
    requires p < |s| && Kraft(s[..p]) == Shl(code, MAX_BITS - s[p])
    ensures code == Code(s, p) && Kraft(s[..p + 1]) == Shl(code + 1, MAX_BITS - s[p])
  {
    ShrOfShl(code, MAX_BITS - s[p]);
    assert s[..p + 1][..p] == s[..p];
    ShlAdd(code, 1, MAX_BITS - s[p]);
  }

  lemma CodeSpace(code: nat, si: Length)
    ensures code >= Shl(1, si) <==> Shl(code, MAX_BITS - si) >= 0x1_0000
  {
    ShlShl(1, si, MAX_BITS - si);
    ShlOrder(Shl(1, si), code, MAX_BITS - si);
    ShlOctet(1, 8);
    Shl8(1);
  }

  lemma NextLength(code: nat, e: nat)
    requires e > 0
    ensures Shl(2 * code, e - 1) == Shl(code, e)
  {
    ShlShl(code, 1, e - 1);
    assert Shl(code, 1) == 2 * code;
  }

  /** The codes of si bits: consecutive numbers. */
  method FillLength(huffsize: array<nat>, huffcode: array<nat>, ghost s: seq<CodeLength>, si: CodeLength, p0: nat,
                    code0: nat)
    returns (p: nat, code: nat)
    requires huffsize.Length == huffcode.Length == 257 && |s| <= 256 && huffsize != huffcode
    requires huffsize[..|s|] == s && huffsize[|s|] == 0 && Ascending(s)
    requires p0 < |s| && si <= s[p0] && Kraft(s[..p0]) == Shl(code0, MAX_BITS - si)
    requires forall q :: 0 <= q < p0 ==> huffcode[q] == Code(s, q)
    modifies huffcode
    ensures p0 <= p <= |s| && (p < |s| ==> si < s[p])
    ensures Kraft(s[..p]) == Shl(code, MAX_BITS - si)
    ensures forall q :: 0 <= q < p ==> huffcode[q] == Code(s, q)
  {
    p, code := p0, code0;
    while huffsize[p] == si
      invariant p0 <= p <= |s| && (p < |s| ==> si <= s[p]) && Kraft(s[..p]) == Shl(code, MAX_BITS - si)
      invariant forall q :: 0 <= q < p ==> huffcode[q] == Code(s, q)
      decreases |s| - p
    {
      NextCode(s, p, code);
      huffcode[p] := code;
      p := p + 1;
      code := code + 1;
    }
  }

  /** Figure C.2, with the check that no length runs out of codes. */
  method FillCodes(huffsize: array<nat>, huffcode: array<nat>, ghost s: seq<CodeLength>) returns (ok: bool)
    requires huffsize.Length == huffcode.Length == 257 && |s| <= 256 && huffsize != huffcode
    requires huffsize[..|s|] == s && huffsize[|s|] == 0 && Ascending(s)
    modifies huffcode
    ensures ok == (Kraft(s) < 0x1_0000)
    ensures ok ==> huffcode[..|s|] == Codes(s)
  {
    var code: nat, si, p := 0, huffsize[0], 0;
    ShlAdd(0, 0, MAX_BITS - si);
    while huffsize[p] != 0
      invariant p <= |s| && (p < |s| ==> 1 <= si <= s[p]) && si <= MAX_BITS + 1
      invariant p == 0 ==> code == 0 && Kraft(s[..p]) == 0
      invariant si <= MAX_BITS ==> Kraft(s[..p]) == Shl(code, MAX_BITS - si)
      invariant Kraft(s[..p]) < 0x1_0000
      invariant forall q :: 0 <= q < p ==> huffcode[q] == Code(s, q)
      decreases |s| - p, MAX_BITS + 1 - si
    {
      p, code := FillLength(huffsize, huffcode, s, si, p, code);
      CodeSpace(code, si);
      if code >= Shl(1, si) {
        KraftPrefix(s, p, |s|);
        assert s[..|s|] == s;
        return false;
      }
      if si < MAX_BITS {
        NextLength(code, MAX_BITS - si);
      }
      code := 2 * code;
      si := si + 1;
    }
    assert s[..|s|] == s;
    ok := true;
  }

  lemma DerivedNext(huffval: seq<Symbol>, s: seq<CodeLength>, codes: seq<nat>, n: nat, ehufco: seq<nat>,
                    ehufsi: seq<nat>)
    requires n < |s| == |codes| <= |huffval| && DerivedUpTo(huffval, s, codes, n, ehufco, ehufsi)
    ensures ehufsi[huffval[n]] != 0 <==> exists p :: 0 <= p < n && huffval[p] == huffval[n]
    ensures ehufsi[huffval[n]] == 0 ==>
              DerivedUpTo(huffval, s, codes, n + 1, ehufco[huffval[n] := codes[n]], ehufsi[huffval[n] := s[n]])
  {
  }

  method FillDerived(huffval: seq<Symbol>, maxSymbol: nat, ghost s: seq<CodeLength>, lastp: nat, huffsize: array<nat>,
                     huffcode: array<nat>,
                     ehufco: array<nat>, ehufsi: array<nat>) returns (ok: bool)
    requires lastp == |s| <= 256 == |huffval|
    requires huffsize.Length == huffcode.Length == 257 && ehufco.Length == ehufsi.Length == 256
    requires huffsize[..lastp] == s
    requires huffsize != ehufco && huffsize != ehufsi && huffcode != ehufco && huffcode != ehufsi && ehufco != ehufsi
    modifies ehufco, ehufsi
    ensures ok
         == ((forall p :: 0 <= p < |s| ==> huffval[p] <= maxSymbol) && forall p,
             q :: 0 <= p < q < |s| ==> huffval[p] != huffval[q])
    ensures ok ==> DerivedUpTo(huffval, s, huffcode[..lastp], |s|, ehufco[..], ehufsi[..])
  {
    for v := 0 to 256
      invariant forall w :: 0 <= w < v ==> ehufsi[w] == 0
    {
      ehufsi[v] := 0;
    }
    ghost var codes := huffcode[..lastp];
    var p := 0;
    while p < lastp
      invariant p <= lastp && DerivedUpTo(huffval, s, codes, p, ehufco[..], ehufsi[..])
      invariant forall q :: 0 <= q < p ==> huffval[q] <= maxSymbol
      invariant forall q, r :: 0 <= q < r < p ==> huffval[q] != huffval[r]
    {
      var i := huffval[p];
      DerivedNext(huffval, s, codes, p, ehufco[..], ehufsi[..]);
      if i > maxSymbol || ehufsi[i] != 0 {
        return false;
      }
      ehufco[i] := huffcode[p];
      ehufsi[i] := huffsize[p];
      p := p + 1;
    }
    ok := true;
  }

  /** Derive the encoding table; ok exactly when the table is acceptable. */
  method MakeDerivedTable(isDC: bool, t: HuffTable, ehufco: array<nat>, ehufsi: array<nat>) returns (ok: bool)
    requires t.Shaped() && ehufco.Length == ehufsi.Length == 256 && ehufco != ehufsi
    modifies ehufco, ehufsi
    ensures ok == Acceptable(t, if isDC then 15 else 255)
    ensures ok ==> Derived(t, ehufco[..], ehufsi[..])
  {
    var huffsize, huffcode := new nat[257], new nat[257];
    ghost var s := Sizes(t.bits, MAX_BITS);
    var lastp;
    ok, lastp := FillSizes(t.bits, huffsize);
    if ok {
      SizesAscend(t.bits, MAX_BITS);
      ok := FillCodes(huffsize, huffcode, s);
      if ok {
        ok := FillDerived(t.huffval, if isDC then 15 else 255, s, lastp, huffsize, huffcode, ehufco, ehufsi);
      }
    }
  }

  // ----- what the codes are good for -----

  /** No code is the beginning of another one, and none consists of ones only. */
  ghost predicate Decodable(ehufco: seq<nat>, ehufsi: seq<nat>) {
    && |ehufco| == |ehufsi| == 256
    && (forall v: Symbol :: ehufsi[v] <= MAX_BITS)
    && (forall v: Symbol :: ehufsi[v] > 0 ==> ehufco[v] + 1 < Shl(1, ehufsi[v]))
    && forall v: Symbol, w: Symbol :: v != w && 0 < ehufsi[v] <= ehufsi[w] ==>
         Shr(ehufco[w], ehufsi[w] - ehufsi[v]) != ehufco[v]
  }

  /** Code number p takes the code space between those before it and those after it. */
  lemma {:induction false} CodeStart(s: seq<CodeLength>, p: nat)
    requires Ascending(s) && p < |s|
    ensures Shl(Code(s, p), MAX_BITS - s[p]) == Kraft(s[..p])
    ensures Shl(Code(s, p) + 1, MAX_BITS - s[p]) == Kraft(s[..p + 1])
  {
    var e := MAX_BITS - s[p];
    ShlAdd(0, 0, e);
    if p > 0 {
      CodeStart(s, p - 1);
      ShlShl(Code(s, p - 1) + 1, s[p] as int - s[p - 1], e);
      ShrOfShl(Shl(Code(s, p - 1) + 1, s[p] as int - s[p - 1]), e);
    } else {
      ShrOfShl(0, e);
    }
    NextCode(s, p, Code(s, p));
  }

  lemma CodeBelow(s: seq<CodeLength>, p: nat)
    requires Ascending(s) && Kraft(s) < 0x1_0000 && p < |s|
    ensures Code(s, p) + 1 < Shl(1, s[p])
  {
    KraftPrefix(s, p + 1, |s|);
    assert s[..|s|] == s;
    CodeEnd(s, p);
  }

  lemma CodeEnd(s: seq<CodeLength>, p: nat)
    requires Ascending(s) && p < |s| && Kraft(s[..p + 1]) < 0x1_0000
    ensures Code(s, p) + 1 < Shl(1, s[p])
  {
    CodeStart(s, p);
    CodeSpace(Code(s, p) + 1, s[p]);
  }

  lemma CodesApart(s: seq<CodeLength>, p: nat, q: nat, d: nat)
    requires Ascending(s) && p < |s| && q < |s| && p != q && s[q] == s[p] + d
    ensures Shr(Code(s, q), d) != Code(s, p)
  {
    var e := MAX_BITS - s[q];
    var c := Code(s, p);
    ShrShl(Code(s, q), d);
    if Shr(Code(s, q), d) == c {
      ShlAdd(c, 1, d);
      ShlShl(c, d, e);
      ShlShl(c + 1, d, e);
      ShlOrder(Shl(c + 1, d), Code(s, q), e);
      ShlOrder(Shl(c, d), Code(s, q), e);
      CodeStart(s, p);
      CodeStart(s, q);
      if p < q {
        KraftPrefix(s, p + 1, q);
      } else {
        KraftPrefix(s, q + 1, p);
      }
      assert false;
    }
  }

  /** The place of a symbol that has a code. */
  lemma DerivedAt(t: HuffTable, ehufco: seq<nat>, ehufsi: seq<nat>, v: Symbol) returns (p: nat)
    requires t.Shaped() && |Sizes(t.bits, MAX_BITS)| <= 256 && Derived(t, ehufco, ehufsi) && ehufsi[v] != 0
    ensures var s := Sizes(t.bits, MAX_BITS);
            p < |s| && t.huffval[p] == v && ehufco[v] == Code(s, p) && ehufsi[v] == s[p]
  {
    var s := Sizes(t.bits, MAX_BITS);
    p :| 0 <= p < |s| && t.huffval[p] == v;
  }

  lemma DerivedIsLegal(t: HuffTable, maxSymbol: nat, ehufco: seq<nat>, ehufsi: seq<nat>, v: Symbol)
    requires t.Shaped() && Acceptable(t, maxSymbol) && Derived(t, ehufco, ehufsi) && ehufsi[v] > 0
    ensures ehufsi[v] <= MAX_BITS && ehufco[v] + 1 < Shl(1, ehufsi[v])
  {
    var p := DerivedAt(t, ehufco, ehufsi, v);
    SizesAscend(t.bits, MAX_BITS);
    CodeBelow(Sizes(t.bits, MAX_BITS), p);
  }

  lemma DerivedApart(t: HuffTable, maxSymbol: nat, ehufco: seq<nat>, ehufsi: seq<nat>, v: Symbol, w: Symbol, d: nat)
    requires t.Shaped() && Acceptable(t, maxSymbol) && Derived(t, ehufco, ehufsi) && v != w && ehufsi[v] > 0
    requires ehufsi[w] == ehufsi[v] + d
    ensures Shr(ehufco[w], d) != ehufco[v]
  {
    var p := DerivedAt(t, ehufco, ehufsi, v);
    var q := DerivedAt(t, ehufco, ehufsi, w);
    SizesAscend(t.bits, MAX_BITS);
    CodesApart(Sizes(t.bits, MAX_BITS), p, q, d);
  }

  /** An accepted table gives codes that can be told apart. */
  lemma AcceptableIsDecodable(t: HuffTable, maxSymbol: nat, ehufco: seq<nat>, ehufsi: seq<nat>)
    requires t.Shaped() && Acceptable(t, maxSymbol) && Derived(t, ehufco, ehufsi)
    ensures Decodable(ehufco, ehufsi)
  {
    forall v: Symbol | ehufsi[v] > 0 ensures ehufsi[v] <= MAX_BITS && ehufco[v] + 1 < Shl(1, ehufsi[v]) {
      DerivedIsLegal(t, maxSymbol, ehufco, ehufsi, v);
    }
    forall v: Symbol, w: Symbol | v != w && 0 < ehufsi[v] <= ehufsi[w]
      ensures Shr(ehufco[w], ehufsi[w] - ehufsi[v]) != ehufco[v]
    {
      DerivedApart(t, maxSymbol, ehufco, ehufsi, v, w, ehufsi[w] - ehufsi[v]);
    }
  }
}
