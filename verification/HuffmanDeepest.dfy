/**
 The reserved symbol has the longest code: giving up one of the longest codes takes no code away from a
 symbol that was counted.
 */
module HuffmanDeepest {
  import opened HuffmanOptimal

  ghost predicate Shaped(freq: seq<nat>, owner: seq<int>, size: seq<nat>) {
    && |freq| == |owner| == |size| == SYMBOLS
    && 0 <= owner[RESERVED] < SYMBOLS && freq[owner[RESERVED]] > 0
    && (forall s :: 0 <= s < SYMBOLS && owner[s] != -1 ==> 0 <= owner[s] < SYMBOLS && freq[owner[s]] > 0)
    && forall x :: 0 <= x < SYMBOLS && freq[x] > 0 && x != owner[RESERVED] ==> 2 * freq[x] >= freq[owner[RESERVED]]
  }

  /** The tree of symbol s compared with that of the reserved symbol. As long as the latter keeps its
      number it is merged first among equals; once it does not, no tree that is as light is as deep. */
  ghost predicate NoDeeper(freq: seq<nat>, owner: seq<int>, size: seq<nat>, s: nat)
    requires Shaped(freq, owner, size) && s < SYMBOLS
  {
    var h, d := owner[RESERVED], size[RESERVED];
    var r := freq[h];
    && (owner[s] == -1 ==> size[s] == 0)
    && size[s] <= d
    && (owner[s] != -1 && owner[s] != h ==>
          var w := freq[owner[s]];
          && (w < r ==> size[s] < d)
          && (h != RESERVED && w <= r ==> size[s] < d)
          && (h != RESERVED && 2 * w <= r ==> size[s] + 1 < d))
  }

  ghost predicate Deepest(freq: seq<nat>, owner: seq<int>, size: seq<nat>) {
    Shaped(freq, owner, size) && forall s: nat :: s < SYMBOLS ==> NoDeeper(freq, owner, size, s)
  }

  /** The weights of the two trees, and of another one, x. */
  lemma {:induction false} Weights(freq: seq<nat>, c1: nat, c2: nat, x: nat)
    requires |freq| == SYMBOLS && Smallest(freq, -1, c1) && Smallest(freq, c1, c2) && x < SYMBOLS && freq[x] > 0
    ensures 0 < freq[c1] <= freq[c2]
    ensures c2 == RESERVED ==> freq[c1] < freq[c2]
    ensures x != c1 && x != c2 ==> freq[c2] <= freq[x] && (x == RESERVED ==> freq[c2] < freq[x])
  {
  }

  lemma {:induction false} NextShaped(freq: seq<nat>, owner: seq<int>, size: seq<nat>, c1: nat, c2: nat)
    requires Shaped(freq, owner, size) && Smallest(freq, -1, c1) && Smallest(freq, c1, c2)
    ensures Shaped(MergedFreq(freq, c1, c2), MergedOwner(owner, c1, c2), Deepened(owner, size, c1, c2))
  {
    var f, h := MergedFreq(freq, c1, c2), owner[RESERVED];
    Weights(freq, c1, c2, h);
    forall x | 0 <= x < SYMBOLS && f[x] > 0 && x != (if h == c2 then c1 else h)
      ensures 2 * f[x] >= f[if h == c2 then c1 else h]
    {
      Weights(freq, c1, c2, x);
    }
  }

  /** Two other trees are merged. */
  lemma {:induction false} OthersMerged(freq: seq<nat>, owner: seq<int>, size: seq<nat>, c1: nat, c2: nat, s: nat)
    requires Shaped(freq, owner, size) && Smallest(freq, -1, c1) && Smallest(freq, c1, c2) && s < SYMBOLS
    requires NoDeeper(freq, owner, size, s) && owner[RESERVED] != c1 && owner[RESERVED] != c2
    requires Shaped(MergedFreq(freq, c1, c2), MergedOwner(owner, c1, c2), Deepened(owner, size, c1, c2))
    ensures NoDeeper(MergedFreq(freq, c1, c2), MergedOwner(owner, c1, c2), Deepened(owner, size, c1, c2), s)
  {
    Weights(freq, c1, c2, owner[RESERVED]);
  }

  /** The tree of the reserved symbol is merged with another one. */
  lemma {:induction false} ReservedMerged(freq: seq<nat>, owner: seq<int>, size: seq<nat>, c1: nat, c2: nat, s: nat)
    requires Shaped(freq, owner, size) && Smallest(freq, -1, c1) && Smallest(freq, c1, c2) && s < SYMBOLS
    requires NoDeeper(freq, owner, size, s) && (owner[RESERVED] == c1 || owner[RESERVED] == c2)
    requires Shaped(MergedFreq(freq, c1, c2), MergedOwner(owner, c1, c2), Deepened(owner, size, c1, c2))
    ensures NoDeeper(MergedFreq(freq, c1, c2), MergedOwner(owner, c1, c2), Deepened(owner, size, c1, c2), s)
  {
    if owner[s] != -1 {
      Weights(freq, c1, c2, owner[s]);
    }
  }

  /** Merging keeps this. */
  lemma {:induction false} NextDeepest(freq: seq<nat>, owner: seq<int>, size: seq<nat>, c1: nat, c2: nat)
    requires Deepest(freq, owner, size) && Smallest(freq, -1, c1) && Smallest(freq, c1, c2)
    ensures Deepest(MergedFreq(freq, c1, c2), MergedOwner(owner, c1, c2), Deepened(owner, size, c1, c2))
  {
    NextShaped(freq, owner, size, c1, c2);
    forall s: nat | s < SYMBOLS
      ensures NoDeeper(MergedFreq(freq, c1, c2), MergedOwner(owner, c1, c2), Deepened(owner, size, c1, c2), s)
    {
      assert NoDeeper(freq, owner, size, s);
      if owner[RESERVED] == c1 || owner[RESERVED] == c2 {
        ReservedMerged(freq, owner, size, c1, c2, s);
      } else {
        OthersMerged(freq, owner, size, c1, c2, s);
      }
    }
  }

  lemma {:induction false} LengthsDeepest(freq: seq<nat>, owner: seq<int>, size: seq<nat>)
    requires Deepest(freq, owner, size)
    ensures forall s :: 0 <= s < SYMBOLS ==> Lengths(freq, owner, size)[s] <= Lengths(freq, owner, size)[RESERVED]
    decreases Live(freq, |freq|)
  {
    var c1 := Pick(freq, -1, |freq|);
    var c2 := Pick(freq, c1, |freq|);
    if c1 >= 0 && c2 >= 0 {
      PickIsSmallest(freq, -1, |freq|);
      PickIsSmallest(freq, c1, |freq|);
      assert freq[..|freq|] == freq;
      MergedLive(freq, c1, c2);
      NextDeepest(freq, owner, size, c1, c2);
      LengthsDeepest(MergedFreq(freq, c1, c2), MergedOwner(owner, c1, c2), Deepened(owner, size, c1, c2));
    } else {
      forall s: nat | s < SYMBOLS ensures size[s] <= size[RESERVED] {
        assert NoDeeper(freq, owner, size, s);
      }
    }
  }

  /** The reserved symbol is merged first. */
  lemma {:induction false} FirstMerged(counted: seq<nat>, c2: nat)
    requires |counted| == SYMBOLS && counted[RESERVED] == 1 && Smallest(counted, RESERVED, c2)
    ensures var owner, size := Single(counted).owner, seq(SYMBOLS, s => 0);
            Deepest(MergedFreq(counted, RESERVED, c2), MergedOwner(owner, RESERVED, c2),
                    Deepened(owner, size, RESERVED, c2))
  {
    var owner, size := Single(counted).owner, seq(SYMBOLS, s => 0);
    var f, o, z := MergedFreq(counted, RESERVED, c2), MergedOwner(owner, RESERVED, c2),
                   Deepened(owner, size, RESERVED, c2);
    assert Shaped(f, o, z);
    forall s: nat | s < SYMBOLS ensures NoDeeper(f, o, z, s) {
    }
  }

  lemma {:induction false} ReservedPicked(counted: seq<nat>)
    requires |counted| == SYMBOLS && counted[RESERVED] == 1
    ensures Pick(counted, -1, |counted|) == RESERVED
  {
    PickIsSmallest(counted, -1, |counted|);
    assert counted[..|counted|] == counted;
  }

  /** No symbol has a longer code than the reserved one. */
  lemma {:induction false} ReservedIsDeepest(counted: seq<nat>)
    requires |counted| == SYMBOLS && counted[RESERVED] == 1
    ensures forall s :: 0 <= s < SYMBOLS ==> HuffmanLengths(counted)[s] <= HuffmanLengths(counted)[RESERVED]
  {
    ReservedPicked(counted);
    var c2 := Pick(counted, RESERVED, |counted|);
    if c2 >= 0 {
      PickIsSmallest(counted, RESERVED, |counted|);
      assert counted[..|counted|] == counted;
      FirstMerged(counted, c2);
      var owner, size := Single(counted).owner, seq(|counted|, s => 0);
      LengthsStep(counted, owner, size, RESERVED, c2);
      LengthsDeepest(MergedFreq(counted, RESERVED, c2), MergedOwner(owner, RESERVED, c2),
                     Deepened(owner, size, RESERVED, c2));
    }
  }
}
