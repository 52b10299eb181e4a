/**
 Optimal code lengths: Huffman's procedure on chains of symbols, the limit of 16 bits and the
 reserved code (section K.2 of ITU-T T.81).
 */
module HuffmanOptimal {
  import opened Numbers
  import opened HuffmanTable

  const SYMBOLS := 257  // 256 symbols and the reserved one
  const RESERVED := 256
  const MAX_COUNT := 1000000000
  const DEPTH := 256    // no code is longer than this

  // ----- frequencies -----

  /** The number of nonzero entries among the first n. */
  function Live(freq: seq<nat>, n: nat): (k: nat)
    requires n <= |freq|
    ensures k <= n
  {
    if n == 0 then 0 else Live(freq, n - 1) + if freq[n - 1] > 0 then 1 else 0
  }

  function Sum(freq: seq<nat>, n: nat): (k: nat)
    requires n <= |freq|
  {
    if n == 0 then 0 else Sum(freq, n - 1) + freq[n - 1]
  }

  lemma {:induction false} SumUpdate(freq: seq<nat>, n: nat, i: nat, v: nat)
    requires i < |freq| && n <= |freq|
    ensures Sum(freq[i := v], n) == Sum(freq, n) + if i < n then v - freq[i] else 0
    ensures Live(freq[i := v], n)
         == Live(freq, n) + if i >= n || (v > 0) == (freq[i] > 0) then 0 else if v > 0 then 1 else -1
  {
    if n > 0 {
      SumUpdate(freq, n - 1, i, v);
    }
  }

  lemma {:induction false} SumBounds(freq: seq<nat>, n: nat, i: nat)
    requires i < n <= |freq|
    ensures freq[i] <= Sum(freq, n)
    ensures freq[i] > 0 ==> Live(freq, n) > 0
  {
    if i < n - 1 {
      SumBounds(freq, n - 1, i);
    }
  }

  /** c has the smallest nonzero frequency apart from skip, and the largest number among equals. */
  ghost predicate Smallest(freq: seq<nat>, skip: int, c: int) {
    && 0 <= c < |freq| && c != skip && freq[c] > 0
    && forall i :: 0 <= i < |freq| && i != skip && freq[i] > 0 ==> freq[c] < freq[i] || (freq[c] == freq[i] && i <= c)
  }

  /** That entry among the first n, or -1. */
  function Pick(freq: seq<nat>, skip: int, n: nat): (c: int)
    requires n <= |freq|
    ensures -1 <= c < n
  {
    if n == 0 then -1
    else
      var c := Pick(freq, skip, n - 1);
      if freq[n - 1] != 0 && n - 1 != skip && (c == -1 || freq[n - 1] <= freq[c]) then n - 1 else c
  }

  lemma {:induction false} PickIsSmallest(freq: seq<nat>, skip: int, n: nat)
    requires n <= |freq|
    ensures var c := Pick(freq, skip, n);
            if c == -1 then forall i :: 0 <= i < n && i != skip ==> freq[i] == 0 else Smallest(freq[..n], skip, c)
  {
    if n > 0 {
      PickIsSmallest(freq, skip, n - 1);
    }
  }

  method FindSmallest(freq: array<nat>, skip: int) returns (c: int)
    requires forall i :: 0 <= i < freq.Length ==> freq[i] <= MAX_COUNT
    ensures c == Pick(freq[..], skip, freq.Length)
    ensures c == -1 || Smallest(freq[..], skip, c)
    ensures c == -1 ==> forall i :: 0 <= i < freq.Length && i != skip ==> freq[i] == 0
  {
    c := -1;
    var v := MAX_COUNT;
    for i := 0 to freq.Length
      invariant c == Pick(freq[..], skip, i)
      invariant c == -1 || (Smallest(freq[..i], skip, c) && v == freq[c])
      invariant c == -1 ==> v == MAX_COUNT && forall j :: 0 <= j < i && j != skip ==> freq[j] == 0
    {
      if freq[i] != 0 && freq[i] <= v && i != skip {
        v := freq[i];
        c := i;
      }
    }
    assert freq[..freq.Length] == freq[..];
  }

  // ----- chains -----

  /** For every symbol the head of its chain (-1 for none) and its place there; for every head the
      last symbol of its chain and the larger of the two counts last merged into it. */
  datatype Chains = Chains(owner: seq<int>, place: seq<nat>, tail: seq<nat>, part: seq<nat>) {
    predicate Shaped() {
      |owner| == |place| == |tail| == |part| == SYMBOLS
    }
  }

  ghost predicate HeadAt(g: Chains, freq: seq<nat>, others: seq<int>, h: nat)
    requires g.Shaped() && |freq| == |others| == SYMBOLS && h < SYMBOLS
  {
    freq[h] > 0 ==>
      && g.owner[h] == h && g.place[h] == 0
      && g.tail[h] < SYMBOLS && g.owner[g.tail[h]] == h && others[g.tail[h]] == -1
  }

  ghost predicate LinkAt(g: Chains, freq: seq<nat>, others: seq<int>, s: nat)
    requires g.Shaped() && |freq| == |others| == SYMBOLS && s < SYMBOLS
  {
    var h := g.owner[s];
    h == -1 || (
      && 0 <= h < SYMBOLS && freq[h] > 0 && g.tail[h] < SYMBOLS && g.place[s] <= g.place[g.tail[h]]
      && if others[s] < 0 then s == g.tail[h]
         else others[s] < SYMBOLS && g.owner[others[s]] == h && g.place[others[s]] == g.place[s] + 1)
  }

  ghost predicate Apart(g: Chains, s: nat, t: nat)
    requires g.Shaped() && s < SYMBOLS && t < SYMBOLS
  {
    g.owner[s] == g.owner[t] >= 0 && g.place[s] == g.place[t] ==> s == t
  }

  /** others links the chains: those of the symbols with a nonzero frequency, each from its head to
      its tail. */
  ghost predicate Linked(g: Chains, freq: seq<nat>, others: seq<int>) {
    && g.Shaped() && |freq| == |others| == SYMBOLS
    && (forall h: nat :: h < SYMBOLS ==> HeadAt(g, freq, others, h))
    && (forall s: nat :: s < SYMBOLS ==> LinkAt(g, freq, others, s))
    && (forall s: nat, t: nat :: s < SYMBOLS && t < SYMBOLS ==> Apart(g, s, t))
  }

  /** The chain of c2 put after that of c1. */
  function Merged(g: Chains, c1: nat, c2: nat, part: nat): (r: Chains)
    requires g.Shaped() && c1 < SYMBOLS && c2 < SYMBOLS && g.tail[c1] < SYMBOLS
    ensures r.Shaped()
  {
    Chains(
      seq(SYMBOLS, s requires 0 <= s < SYMBOLS => if g.owner[s] == c2 then c1 else g.owner[s]),
      seq(SYMBOLS,
          s requires 0 <= s < SYMBOLS => if g.owner[s] == c2 then g.place[s] + g.place[g.tail[c1]] + 1 else g.place[s]),
      g.tail[c1 := g.tail[c2]],
      g.part[c1 := part])
  }

  lemma MergedIsLinked(g: Chains, freq: seq<nat>, others: seq<int>, c1: nat, c2: nat, part: nat)
    requires Linked(g, freq, others) && c1 < SYMBOLS && c2 < SYMBOLS && c1 != c2 && freq[c1] > 0 && freq[c2] > 0
    requires g.tail[c1] < SYMBOLS
    ensures Linked(Merged(g, c1, c2, part), freq[c1 := freq[c1] + freq[c2]][c2 := 0], others[g.tail[c1] := c2])
  {
    var m, f, o := Merged(g, c1, c2, part), freq[c1 := freq[c1] + freq[c2]][c2 := 0], others[g.tail[c1] := c2];
    assert HeadAt(g, freq, others, c1) && HeadAt(g, freq, others, c2);
    forall h: nat | h < SYMBOLS ensures HeadAt(m, f, o, h) {
      assert HeadAt(g, freq, others, h);
    }
    forall s: nat | s < SYMBOLS ensures LinkAt(m, f, o, s) {
      assert LinkAt(g, freq, others, s);
      if g.owner[s] != -1 {
        assert HeadAt(g, freq, others, g.owner[s]);
      }
    }
    forall s: nat, t: nat | s < SYMBOLS && t < SYMBOLS ensures Apart(m, s, t) {
      assert Apart(g, s, t) && LinkAt(g, freq, others, s) && LinkAt(g, freq, others, t);
    }
  }

  /** The chain of c alone. */
  ghost predicate ChainLinked(g: Chains, freq: seq<nat>, others: seq<int>, c: nat) {
    && g.Shaped() && |freq| == |others| == SYMBOLS && c < SYMBOLS && HeadAt(g, freq, others, c)
    && (forall s: nat :: s < SYMBOLS && g.owner[s] == c ==> LinkAt(g, freq, others, s))
    && (forall s: nat, t: nat :: s < SYMBOLS && t < SYMBOLS ==> Apart(g, s, t))
  }

  /** Add one to the code length of every symbol in the chain of c; returns the last one. */
  method Deepen(codesize: array<nat>, others: array<int>, c: nat, ghost g: Chains, ghost freq: seq<nat>)
    returns (last: nat)
    requires codesize.Length == others.Length == SYMBOLS && ChainLinked(g, freq, others[..], c) && freq[c] > 0
    modifies codesize
    ensures last == g.tail[c]
    ensures forall s :: 0 <= s < SYMBOLS ==> codesize[s] == old(codesize[s]) + if g.owner[s] == c then 1 else 0
  {
    last := c;
    assert HeadAt(g, freq, others[..], c);
    forall s: nat | s < SYMBOLS && g.owner[s] == c
      ensures g.place[s] <= g.place[g.tail[c]] && (g.place[s] == 0 ==> s == c)
    {
      assert LinkAt(g, freq, others[..], s) && Apart(g, s, c);
    }
    codesize[last] := codesize[last] + 1;
    assert LinkAt(g, freq, others[..], last);
    while others[last] >= 0
      invariant last < SYMBOLS && g.owner[last] == c && LinkAt(g, freq, others[..], last)
      invariant forall s :: 0 <= s < SYMBOLS ==>
        codesize[s] == old(codesize[s]) + if g.owner[s] == c && g.place[s] <= g.place[last] then 1 else 0
      decreases g.place[g.tail[c]] - g.place[last]
    {
      last := others[last];
      codesize[last] := codesize[last] + 1;
      assert LinkAt(g, freq, others[..], last);
      forall s: nat | s < SYMBOLS && g.owner[s] == c && g.place[s] == g.place[last] ensures s == last {
        assert Apart(g, s, last);
      }
    }
  }

  // ----- code space -----

  /** The share of the code space that a code of length l takes, of 2^DEPTH in all. */
  function Weight(l: nat): (w: int) {
    if l <= DEPTH then Shl(1, DEPTH - l) else 0
  }

  lemma WeightHalves(l: nat)
    requires l < DEPTH
    ensures Weight(l) == 2 * Weight(l + 1)
  {
  }

  /** What the first n symbols take of the code space of the chain of h. */
  function Share(owner: seq<int>, codesize: seq<nat>, h: int, n: nat): (w: int)
    requires n <= |owner| == |codesize|
  {
    if n == 0 then 0
    else Share(owner, codesize, h, n - 1) + if owner[n - 1] == h then Weight(codesize[n - 1]) else 0
  }

  /** Making every code of two chains longer by one bit leaves room for both in one code space. */
  lemma {:induction false} ShareMerged(owner: seq<int>, codesize: seq<nat>, owner': seq<int>, codesize': seq<nat>,
                                       c1: int, c2: int, n: nat)
    requires n <= |owner| == |codesize| == |owner'| == |codesize'| && c1 != c2
    requires forall i :: 0 <= i < n ==> owner'[i] == if owner[i] == c2 then c1 else owner[i]
    requires forall i :: 0 <= i < n ==> codesize'[i] == codesize[i] + if owner[i] == c1 || owner[i] == c2 then 1 else 0
    requires forall i :: 0 <= i < n ==> codesize[i] < DEPTH
    ensures 2 * Share(owner', codesize', c1, n) == Share(owner, codesize, c1, n) + Share(owner, codesize, c2, n)
    ensures forall h :: h != c1 && h != c2 ==> Share(owner', codesize', h, n) == Share(owner, codesize, h, n)
  {
    if n > 0 {
      ShareMerged(owner, codesize, owner', codesize', c1, c2, n - 1);
      WeightHalves(codesize[n - 1]);
    }
  }

  /** One symbol alone has the whole of its code space. */
  lemma {:induction false} ShareAlone(owner: seq<int>, codesize: seq<nat>, h: nat, n: nat)
    requires h < |owner| == |codesize| && n <= |owner| && codesize[h] == 0
    requires forall i :: 0 <= i < |owner| ==> (owner[i] == h <==> i == h)
    ensures Share(owner, codesize, h, n) == if h < n then Shl(1, DEPTH) else 0
  {
    if n > 0 {
      ShareAlone(owner, codesize, h, n - 1);
    }
  }

  /** All codes together. */
  function Total(codesize: seq<nat>, n: nat): (w: int)
    requires n <= |codesize|
  {
    if n == 0 then 0 else Total(codesize, n - 1) + if codesize[n - 1] > 0 then Weight(codesize[n - 1]) else 0
  }

  lemma {:induction false} ShareIsTotal(owner: seq<int>, codesize: seq<nat>, h: int, n: nat)
    requires n <= |owner| == |codesize| && forall i :: 0 <= i < n ==> (owner[i] == h <==> codesize[i] > 0)
    ensures Share(owner, codesize, h, n) == Total(codesize, n)
  {
    if n > 0 {
      ShareIsTotal(owner, codesize, h, n - 1);
    }
  }

  // ----- Huffman's procedure -----

  /** The counts after the trees of c1 and c2 are merged. */
  function MergedFreq(freq: seq<nat>, c1: nat, c2: nat): (r: seq<nat>)
    requires c1 < |freq| && c2 < |freq|
    ensures |r| == |freq|
  {
    freq[c1 := freq[c1] + freq[c2]][c2 := 0]
  }

  function MergedOwner(owner: seq<int>, c1: nat, c2: nat): (r: seq<int>)
    ensures |r| == |owner|
  {
    seq(|owner|, s requires 0 <= s < |owner| => if owner[s] == c2 then c1 else owner[s])
  }

  /** One bit more for every symbol of the two trees. */
  function Deepened(owner: seq<int>, size: seq<nat>, c1: nat, c2: nat): (r: seq<nat>)
    requires |owner| == |size|
    ensures |r| == |size|
  {
    seq(|size|, s requires 0 <= s < |size| => size[s] + if owner[s] == c1 || owner[s] == c2 then 1 else 0)
  }

  lemma {:induction false} MergedLive(freq: seq<nat>, c1: nat, c2: nat)
    requires c1 < |freq| && c2 < |freq| && c1 != c2 && freq[c1] > 0 && freq[c2] > 0
    ensures Live(MergedFreq(freq, c1, c2), |freq|) < Live(freq, |freq|)
    ensures Sum(MergedFreq(freq, c1, c2), |freq|) == Sum(freq, |freq|)
  {
    var n, f := |freq|, freq[c1 := freq[c1] + freq[c2]];
    SumUpdate(freq, n, c1, freq[c1] + freq[c2]);
    assert Live(f, n) == Live(freq, n) && Sum(f, n) == Sum(freq, n) + freq[c2] && f[c2] == freq[c2];
    SumUpdate(f, n, c2, 0);
  }

  /** The code lengths that merging the two smallest counts, until one is left, makes of size; owner
      has the tree of every symbol. */
  function Lengths(freq: seq<nat>, owner: seq<int>, size: seq<nat>): (r: seq<nat>)
    requires |freq| == |owner| == |size|
    ensures |r| == |size|
    decreases Live(freq, |freq|)
  {
    var c1 := Pick(freq, -1, |freq|);
    var c2 := Pick(freq, c1, |freq|);
    if c1 < 0 || c2 < 0 then size
    else
      PickIsSmallest(freq, -1, |freq|);
      PickIsSmallest(freq, c1, |freq|);
      MergedLive(freq, c1, c2);
      Lengths(MergedFreq(freq, c1, c2), MergedOwner(owner, c1, c2), Deepened(owner, size, c1, c2))
  }

  /** The lengths for these counts. */
  function HuffmanLengths(counted: seq<nat>): (r: seq<nat>)
    ensures |r| == |counted|
  {
    Lengths(counted, Single(counted).owner, seq(|counted|, s => 0))
  }

  ghost predicate Balanced(g: Chains, freq: seq<nat>, codesize: seq<nat>, h: nat)
    requires g.Shaped() && |freq| == |codesize| == SYMBOLS && h < SYMBOLS
  {
    freq[h] > 0 ==> Share(g.owner, codesize, h, SYMBOLS) == Shl(1, DEPTH)
  }

  /** Code lengths: zero for symbols not counted and, until it is merged, for one that is. */
  ghost predicate SizeAt(g: Chains, live: nat, codesize: seq<nat>, counted: seq<nat>, s: nat)
    requires g.Shaped() && |codesize| == |counted| == SYMBOLS && s < SYMBOLS
  {
    && (g.owner[s] >= 0 <==> counted[s] > 0) && codesize[s] + live <= SYMBOLS
    && if g.owner[s] < 0 then codesize[s] == 0
       else codesize[s] > 0 || (g.owner[s] < SYMBOLS && g.tail[g.owner[s]] == g.owner[s])
  }

  /** The least total count of symbols that can give some symbol a code of length d. */
  function LeastCount(d: nat): (n: nat)
    ensures n >= 1
  {
    if d <= 1 then d + 1 else LeastCount(d - 1) + LeastCount(d - 2)
  }

  ghost predicate DepthAt(g: Chains, freq: seq<nat>, codesize: seq<nat>, s: nat)
    requires g.Shaped() && |freq| == |codesize| == SYMBOLS && s < SYMBOLS
  {
    0 <= g.owner[s] < SYMBOLS ==>
      && freq[g.owner[s]] >= LeastCount(codesize[s])
      && (codesize[s] > 0 ==> g.part[g.owner[s]] >= LeastCount(codesize[s] - 1))
  }

  /** Since the smallest counts are merged first, none is left below one that was merged. */
  ghost predicate PartAt(g: Chains, freq: seq<nat>, h: nat, other: nat)
    requires g.Shaped() && |freq| == SYMBOLS && h < SYMBOLS && other < SYMBOLS
  {
    freq[h] > 0 && freq[other] > 0 ==> g.part[h] <= freq[other]
  }

  /** Between two merges: every chain is a full binary tree, its code lengths the depths. */
  ghost predicate Forest(g: Chains, freq: seq<nat>, others: seq<int>, codesize: seq<nat>, counted: seq<nat>) {
    && Linked(g, freq, others) && |codesize| == |counted| == SYMBOLS
    && Sum(freq, SYMBOLS) == Sum(counted, SYMBOLS) <= MAX_COUNT
    && (forall h: nat :: h < SYMBOLS ==> Balanced(g, freq, codesize, h))
    && (forall s: nat :: s < SYMBOLS ==> SizeAt(g, Live(freq, SYMBOLS), codesize, counted, s))
    && (forall s: nat :: s < SYMBOLS ==> DepthAt(g, freq, codesize, s))
    && (forall h: nat, other: nat :: h < SYMBOLS && other < SYMBOLS ==> PartAt(g, freq, h, other))
  }

  lemma DepthNext(g: Chains, freq: seq<nat>, others: seq<int>, codesize: seq<nat>, counted: seq<nat>, c1: nat, c2: nat,
                  codesize': seq<nat>)
    requires Forest(g, freq, others, codesize, counted) && Smallest(freq, -1, c1) && Smallest(freq, c1, c2)
    requires |freq| == |codesize'| == SYMBOLS && g.Shaped() && g.tail[c1] < SYMBOLS
    requires forall s :: 0 <= s < SYMBOLS ==>
               codesize'[s] == codesize[s] + if g.owner[s] == c1 || g.owner[s] == c2 then 1 else 0
    ensures var m, f := Merged(g, c1, c2, freq[c2]), freq[c1 := freq[c1] + freq[c2]][c2 := 0];
            && (forall s: nat :: s < SYMBOLS ==> DepthAt(m, f, codesize', s))
            && (forall h: nat, other: nat :: h < SYMBOLS && other < SYMBOLS ==> PartAt(m, f, h, other))
  {
    var m, f := Merged(g, c1, c2, freq[c2]), freq[c1 := freq[c1] + freq[c2]][c2 := 0];
    assert PartAt(g, freq, c1, c2) && PartAt(g, freq, c2, c1);
    forall s: nat | s < SYMBOLS ensures DepthAt(m, f, codesize', s) {
      assert DepthAt(g, freq, codesize, s) && LinkAt(g, freq, others, s);
    }
    forall h: nat, other: nat | h < SYMBOLS && other < SYMBOLS ensures PartAt(m, f, h, other) {
      assert PartAt(g, freq, h, other) && PartAt(g, freq, h, c1);
    }
  }

  lemma ForestNext(g: Chains, freq: seq<nat>, others: seq<int>, codesize: seq<nat>, counted: seq<nat>, c1: nat, c2: nat,
                   codesize': seq<nat>)
    requires Forest(g, freq, others, codesize, counted) && Smallest(freq, -1, c1) && Smallest(freq, c1, c2)
    requires |freq| == |codesize'| == SYMBOLS && g.Shaped() && g.tail[c1] < SYMBOLS
    requires forall s :: 0 <= s < SYMBOLS ==>
               codesize'[s] == codesize[s] + if g.owner[s] == c1 || g.owner[s] == c2 then 1 else 0
    ensures var freq' := freq[c1 := freq[c1] + freq[c2]][c2 := 0];
            && Forest(Merged(g, c1, c2, freq[c2]), freq', others[g.tail[c1] := c2], codesize', counted)
            && 0 < Live(freq', SYMBOLS) < Live(freq, SYMBOLS)
  {
    var m, f := Merged(g, c1, c2, freq[c2]), freq[c1 := freq[c1] + freq[c2]][c2 := 0];
    SumUpdate(freq, SYMBOLS, c1, freq[c1] + freq[c2]);
    SumUpdate(freq[c1 := freq[c1] + freq[c2]], SYMBOLS, c2, 0);
    SumBounds(f, SYMBOLS, c1);
    MergedIsLinked(g, freq, others, c1, c2, freq[c2]);
    forall s: nat | s < SYMBOLS ensures codesize[s] < DEPTH && SizeAt(m, Live(f, SYMBOLS), codesize', counted, s) {
      assert SizeAt(g, Live(freq, SYMBOLS), codesize, counted, s) && LinkAt(g, freq, others, s);
    }
    ShareMerged(g.owner, codesize, m.owner, codesize', c1, c2, SYMBOLS);
    DepthNext(g, freq, others, codesize, counted, c1, c2, codesize');
    forall h: nat | h < SYMBOLS ensures Balanced(m, f, codesize', h) {
      assert Balanced(g, freq, codesize, h) && Balanced(g, freq, codesize, c1) && Balanced(g, freq, codesize, c2);
    }
  }

  /** Every counted symbol and no other has a code length, the codes fill the code space, and a
      long code needs large counts. */
  ghost predicate Complete(codesize: seq<nat>, counted: seq<nat>) {
    && |codesize| == |counted| == SYMBOLS && Total(codesize, SYMBOLS) == Shl(1, DEPTH)
    && (forall s :: 0 <= s < SYMBOLS ==> (codesize[s] > 0 <==> counted[s] > 0))
    && (forall s :: 0 <= s < SYMBOLS && codesize[s] > 0 ==> LeastCount(codesize[s]) <= Sum(counted, SYMBOLS))
  }

  function Single(counted: seq<nat>): (g: Chains) {
    Chains(seq(|counted|, s requires 0 <= s < |counted| => if counted[s] > 0 then s else -1), seq(|counted|, s => 0),
           seq(|counted|, s => s), seq(|counted|, s => 0))
  }

  lemma ForestStart(counted: seq<nat>, others: seq<int>, codesize: seq<nat>)
    requires |counted| == |others| == |codesize| == SYMBOLS && Sum(counted, SYMBOLS) <= MAX_COUNT
    requires forall s :: 0 <= s < SYMBOLS ==> others[s] == -1 && codesize[s] == 0
    ensures Forest(Single(counted), counted, others, codesize, counted)
  {
    var g := Single(counted);
    forall h: nat | h < SYMBOLS ensures Balanced(g, counted, codesize, h) {
      if counted[h] > 0 {
        ShareAlone(g.owner, codesize, h, SYMBOLS);
      }
    }
  }

  /** One chain is left: a full tree of all that were counted. */
  lemma ForestEnd(g: Chains, freq: seq<nat>, others: seq<int>, codesize: seq<nat>, counted: seq<nat>, c1: nat)
    requires Forest(g, freq, others, codesize, counted) && c1 < SYMBOLS && freq[c1] > 0
    requires forall i :: 0 <= i < SYMBOLS && i != c1 ==> freq[i] == 0
    requires Live(counted, SYMBOLS) >= 2
    ensures Complete(codesize, counted)
  {
    var other := SecondLive(counted, c1);
    assert HeadAt(g, freq, others, c1) && Balanced(g, freq, codesize, c1);
    assert && SizeAt(g, Live(freq, SYMBOLS), codesize, counted, other)
           && LinkAt(g, freq, others, other)
           && Apart(g, other, c1);
    SumBounds(freq, SYMBOLS, c1);
    forall s: nat | s < SYMBOLS
      ensures (g.owner[s] == c1 <==> codesize[s] > 0) && (codesize[s] > 0 <==> counted[s] > 0)
      ensures codesize[s] > 0 ==> LeastCount(codesize[s]) <= Sum(counted, SYMBOLS)
    {
      assert DepthAt(g, freq, codesize, s);
      assert SizeAt(g, Live(freq, SYMBOLS), codesize, counted, s) && LinkAt(g, freq, others, s);
    }
    ShareIsTotal(g.owner, codesize, c1, SYMBOLS);
  }

  lemma SecondLive(freq: seq<nat>, c: nat) returns (other: nat)
    requires |freq| == SYMBOLS && c < SYMBOLS && Live(freq, SYMBOLS) >= 2
    ensures other < SYMBOLS && other != c && freq[other] > 0
  {
    if other': nat :| other' < SYMBOLS && other' != c && freq[other'] > 0 {
      other := other';
    } else {
      SumUpdate(freq, SYMBOLS, c, 0);
      NoneLive(freq[c := 0], SYMBOLS);
      assert false;
    }
  }

  lemma {:induction false} NoneLive(freq: seq<nat>, n: nat)
    requires n <= |freq| && forall i :: 0 <= i < n ==> freq[i] == 0
    ensures Live(freq, n) == 0
  {
    if n > 0 {
      NoneLive(freq, n - 1);
    }
  }

  /** Merge the trees of c1 and c2. */
  method MergeTrees(freq: array<nat>, codesize: array<nat>, others: array<int>, c1: nat, c2: nat, ghost g: Chains,
                    ghost counted: seq<nat>)
    requires freq.Length == codesize.Length == others.Length == SYMBOLS && freq != codesize
    requires Forest(g, freq[..], others[..], codesize[..], counted)
    requires Smallest(freq[..], -1, c1) && Smallest(freq[..], c1, c2) && g.Shaped() && g.tail[c1] < SYMBOLS
    modifies freq, codesize, others
    ensures Forest(Merged(g, c1, c2, old(freq[c2])), freq[..], others[..], codesize[..], counted)
    ensures freq[..] == MergedFreq(old(freq[..]), c1, c2)
    ensures codesize[..] == Deepened(g.owner, old(codesize[..]), c1, c2)
    ensures 0 < Live(freq[..], SYMBOLS) < old(Live(freq[..], SYMBOLS))
  {
    ghost var f, o := freq[..], others[..];
    ForestChain(g, f, o, codesize[..], counted, c1);
    ForestChain(g, f, o, codesize[..], counted, c2);
    freq[c1] := freq[c1] + freq[c2];
    freq[c2] := 0;
    var last := Deepen(codesize, others, c1, g, f);
    others[last] := c2;
    ChainKept(g, f, o, c1, c2);
    var end := Deepen(codesize, others, c2, g, f);
    assert freq[..] == MergedFreq(f, c1, c2);
    assert codesize[..] == Deepened(g.owner, old(codesize[..]), c1, c2);
    ForestNext(g, f, o, old(codesize[..]), counted, c1, c2, codesize[..]);
  }

  lemma ForestChain(g: Chains, freq: seq<nat>, others: seq<int>, codesize: seq<nat>, counted: seq<nat>, c: nat)
    requires Forest(g, freq, others, codesize, counted) && c < SYMBOLS && freq[c] > 0
    ensures ChainLinked(g, freq, others, c) && g.tail[c] < SYMBOLS && g.owner[g.tail[c]] == c
  {
    assert HeadAt(g, freq, others, c);
  }

  /** Linking the end of another chain does not affect the chain of c2. */
  lemma ChainKept(g: Chains, freq: seq<nat>, others: seq<int>, c1: nat, c2: nat)
    requires ChainLinked(g, freq, others, c1) && ChainLinked(g, freq, others, c2) && c1 != c2
    requires g.tail[c1] < SYMBOLS && g.owner[g.tail[c1]] == c1
    ensures ChainLinked(g, freq, others[g.tail[c1] := c2], c2)
  {
    forall s: nat | s < SYMBOLS && g.owner[s] == c2 ensures LinkAt(g, freq, others[g.tail[c1] := c2], s) {
      assert LinkAt(g, freq, others, s);
    }
  }

  lemma {:induction false} LengthsStep(freq: seq<nat>, owner: seq<int>, size: seq<nat>, c1: nat, c2: nat)
    requires |freq| == |owner| == |size| && c1 == Pick(freq, -1, |freq|) && c2 == Pick(freq, c1, |freq|)
    ensures Lengths(freq, owner, size)
         == Lengths(MergedFreq(freq, c1, c2), MergedOwner(owner, c1, c2), Deepened(owner, size, c1, c2))
  {
  }

  /** Merge the two smallest frequencies until one is left. */
  method BuildTree(freq: array<nat>, codesize: array<nat>, others: array<int>)
    requires freq.Length == codesize.Length == others.Length == SYMBOLS && freq != codesize
    requires Sum(freq[..], SYMBOLS) <= MAX_COUNT && Live(freq[..], SYMBOLS) >= 2
    requires forall s :: 0 <= s < SYMBOLS ==> others[s] == -1 && codesize[s] == 0
    modifies freq, codesize, others
    ensures Complete(codesize[..], old(freq[..])) && codesize[..] == HuffmanLengths(old(freq[..]))
  {
    ghost var counted, g := freq[..], Single(freq[..]);
    ForestStart(counted, others[..], codesize[..]);
    assert codesize[..] == seq(SYMBOLS, s => 0);
    while true
      invariant Forest(g, freq[..], others[..], codesize[..], counted) && Live(freq[..], SYMBOLS) > 0
      invariant Lengths(freq[..], g.owner, codesize[..]) == HuffmanLengths(counted)
      decreases Live(freq[..], SYMBOLS)
    {
      forall i: nat | i < SYMBOLS ensures freq[i] <= MAX_COUNT {
        SumBounds(freq[..], SYMBOLS, i);
      }
      var c1 := FindSmallest(freq, -1);
      if c1 == -1 {
        NoneLive(freq[..], SYMBOLS);
      }
      var c2 := FindSmallest(freq, c1);
      if c2 < 0 {
        ForestEnd(g, freq[..], others[..], codesize[..], counted, c1);
        break;
      }
      ForestChain(g, freq[..], others[..], codesize[..], counted, c1);
      ghost var next := Merged(g, c1, c2, freq[c2]);
      LengthsStep(freq[..], g.owner, codesize[..], c1, c2);
      MergeTrees(freq, codesize, others, c1, c2, g, counted);
      assert next.owner == MergedOwner(g.owner, c1, c2);
      g := next;
    }
  }
}
