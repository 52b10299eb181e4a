/**
 Huffman's code lengths are the best: no lengths that fit the code space spend fewer bits on the
 symbols that were counted.
 */
module HuffmanMinimal {
  import opened Numbers
  import opened HuffmanTable
  import opened HuffmanOptimal

  /** The bits that the first n symbols take with these lengths. */
  function Cost(freq: seq<nat>, size: seq<nat>, n: nat): (bits: nat)
    requires n <= |freq| == |size|
  {
    if n == 0 then 0 else Cost(freq, size, n - 1) + freq[n - 1] * size[n - 1]
  }

  /** The code space of the first n symbols, of Shl(1, depth) in all. */
  function Space(freq: seq<nat>, size: seq<nat>, depth: nat, n: nat): (w: nat)
    requires n <= |freq| == |size| && Within(freq, size, depth)
    ensures w >= 0
  {
    if n == 0 then 0
    else
      ShlPositive(1, if freq[n - 1] > 0 then depth - size[n - 1] else 0);
      Space(freq, size, depth, n - 1) + if freq[n - 1] > 0 then Shl(1, depth - size[n - 1]) else 0
  }

  lemma {:induction false} ShlPositive(x: int, k: nat)
    requires x >= 1
    ensures Shl(x, k) >= x
  {
    if k > 0 {
      ShlPositive(x, k - 1);
    }
  }

  /** No counted symbol has more than depth bits. */
  predicate Within(freq: seq<nat>, size: seq<nat>, depth: nat)
    requires |freq| == |size|
  {
    forall s :: 0 <= s < |freq| && freq[s] > 0 ==> size[s] <= depth
  }

  /** The lengths fit the code space: their Kraft sum is at most one. */
  predicate Codable(freq: seq<nat>, size: seq<nat>, depth: nat) {
    |freq| == |size| && Within(freq, size, depth) && Space(freq, size, depth, |freq|) <= Shl(1, depth)
  }

  // ----- what merging costs -----

  /** Every merge makes the codes of two trees one bit longer. */
  function MergeCost(freq: seq<nat>): (bits: nat)
    decreases Live(freq, |freq|)
  {
    var c1 := Pick(freq, -1, |freq|);
    var c2 := Pick(freq, c1, |freq|);
    if c1 < 0 || c2 < 0 then 0
    else
      PickedLive(freq, c1, c2);
      MergedLive(freq, c1, c2);
      freq[c1] + freq[c2] + MergeCost(MergedFreq(freq, c1, c2))
  }

  lemma {:induction false} PickedLive(freq: seq<nat>, c1: int, c2: int)
    requires c1 == Pick(freq, -1, |freq|) && c2 == Pick(freq, c1, |freq|) && c1 >= 0 && c2 >= 0
    ensures c1 != c2 && Smallest(freq, -1, c1) && Smallest(freq, c1, c2)
  {
    PickIsSmallest(freq, -1, |freq|);
    PickIsSmallest(freq, c1, |freq|);
    assert freq[..|freq|] == freq;
  }

  /** The counts of the symbols in the tree of h. */
  function Owned(counted: seq<nat>, owner: seq<int>, h: int, n: nat): (k: nat)
    requires n <= |counted| == |owner|
  {
    if n == 0 then 0 else Owned(counted, owner, h, n - 1) + if owner[n - 1] == h then counted[n - 1] else 0
  }

  lemma {:induction false} OwnedMerged(counted: seq<nat>, owner: seq<int>, c1: nat, c2: nat, h: int, n: nat)
    requires n <= |counted| == |owner| && c1 != c2
    ensures Owned(counted, MergedOwner(owner, c1, c2), h, n)
         == if h == c1 then Owned(counted, owner, c1, n) + Owned(counted, owner, c2, n)
            else if h == c2 then 0
            else Owned(counted, owner, h, n)
  {
    if n > 0 {
      OwnedMerged(counted, owner, c1, c2, h, n - 1);
    }
  }

  lemma {:induction false} DeepenedCost(counted: seq<nat>, owner: seq<int>, size: seq<nat>, c1: nat, c2: nat, n: nat)
    requires n <= |counted| == |owner| == |size| && c1 != c2
    ensures Cost(counted, Deepened(owner, size, c1, c2), n)
         == Cost(counted, size, n) + Owned(counted, owner, c1, n) + Owned(counted, owner, c2, n)
  {
    if n > 0 {
      DeepenedCost(counted, owner, size, c1, c2, n - 1);
      OneBitMore(counted[n - 1], size[n - 1]);
    }
  }

  lemma OneBitMore(f: nat, l: nat)
    ensures f * (l + 1) == f * l + f
  {
  }

  /** Every tree has the counts of its symbols. */
  predicate Summed(counted: seq<nat>, freq: seq<nat>, owner: seq<int>) {
    |counted| == |freq| == |owner| && forall h :: 0 <= h < |freq| ==> freq[h] == Owned(counted, owner, h, |owner|)
  }

  lemma {:induction false} MergedSummed(counted: seq<nat>, freq: seq<nat>, owner: seq<int>, c1: nat, c2: nat)
    requires Summed(counted, freq, owner) && c1 < |freq| && c2 < |freq| && c1 != c2
    ensures Summed(counted, MergedFreq(freq, c1, c2), MergedOwner(owner, c1, c2))
  {
    var r, o := MergedFreq(freq, c1, c2), MergedOwner(owner, c1, c2);
    forall h | 0 <= h < |freq|
      ensures r[h] == Owned(counted, o, h, |o|)
    {
      OwnedMerged(counted, owner, c1, c2, h, |owner|);
    }
  }

  /** The lengths cost what the merges cost. */
  lemma {:induction false} LengthsCost(counted: seq<nat>, freq: seq<nat>, owner: seq<int>, size: seq<nat>)
    requires Summed(counted, freq, owner) && |size| == |freq|
    ensures Cost(counted, Lengths(freq, owner, size), |counted|) == Cost(counted, size, |counted|) + MergeCost(freq)
    decreases Live(freq, |freq|)
  {
    var c1 := Pick(freq, -1, |freq|);
    var c2 := Pick(freq, c1, |freq|);
    if c1 >= 0 && c2 >= 0 {
      PickedLive(freq, c1, c2);
      MergedLive(freq, c1, c2);
      MergedSummed(counted, freq, owner, c1, c2);
      DeepenedCost(counted, owner, size, c1, c2, |counted|);
      LengthsStep(freq, owner, size, c1, c2);
      LengthsCost(counted, MergedFreq(freq, c1, c2), MergedOwner(owner, c1, c2), Deepened(owner, size, c1, c2));
    }
  }

  lemma {:induction false} SingleSummed(counted: seq<nat>, h: nat, n: nat)
    requires h < |counted| && n <= |counted|
    ensures Owned(counted, Single(counted).owner, h, n) == if h < n then counted[h] else 0
  {
    if n > 0 {
      SingleSummed(counted, h, n - 1);
    }
  }

  lemma {:induction false} CostOfZeros(freq: seq<nat>, size: seq<nat>, n: nat)
    requires n <= |freq| == |size| && forall i :: 0 <= i < n ==> size[i] == 0
    ensures Cost(freq, size, n) == 0
  {
    if n > 0 {
      CostOfZeros(freq, size, n - 1);
    }
  }

  lemma HuffmanCost(counted: seq<nat>)
    ensures Cost(counted, HuffmanLengths(counted), |counted|) == MergeCost(counted)
  {
    var owner, size := Single(counted).owner, seq(|counted|, s => 0);
    forall h | 0 <= h < |counted| ensures counted[h] == Owned(counted, owner, h, |owner|) {
      SingleSummed(counted, h, |counted|);
    }
    LengthsCost(counted, counted, owner, size);
    CostOfZeros(counted, size, |counted|);
  }

  // ----- changing single lengths -----

  lemma {:induction false} CostUpdate(freq: seq<nat>, size: seq<nat>, i: nat, l: nat, n: nat)
    requires n <= |freq| == |size| && i < |freq|
    ensures Cost(freq, size[i := l], n) + (if i < n then freq[i] * size[i] else 0)
         == Cost(freq, size, n) + if i < n then freq[i] * l else 0
  {
    if n > 0 {
      CostUpdate(freq, size, i, l, n - 1);
    }
  }

  lemma {:induction false} CostFreq(freq: seq<nat>, size: seq<nat>, i: nat, f: nat, n: nat)
    requires n <= |freq| == |size| && i < |freq|
    ensures Cost(freq[i := f], size, n) + (if i < n then freq[i] * size[i] else 0)
         == Cost(freq, size, n) + if i < n then f * size[i] else 0
  {
    if n > 0 {
      CostFreq(freq, size, i, f, n - 1);
    }
  }

  lemma {:induction false} SpaceUpdate(freq: seq<nat>, size: seq<nat>, depth: nat, i: nat, l: nat, n: nat)
    requires n <= |freq| == |size| && Within(freq, size, depth) && i < |freq| && freq[i] > 0 && l <= depth
    ensures Within(freq, size[i := l], depth)
    ensures Space(freq, size[i := l], depth, n) + (if i < n then Shl(1, depth - size[i]) else 0)
         == Space(freq, size, depth, n) + if i < n then Shl(1, depth - l) else 0
  {
    if n > 0 {
      SpaceUpdate(freq, size, depth, i, l, n - 1);
    }
  }

  /** Without symbol i. */
  lemma {:induction false} SpaceDrop(freq: seq<nat>, size: seq<nat>, depth: nat, i: nat, n: nat)
    requires n <= |freq| == |size| && Within(freq, size, depth) && i < |freq| && freq[i] > 0
    ensures Within(freq[i := 0], size, depth)
    ensures Space(freq[i := 0], size, depth, n) + (if i < n then Shl(1, depth - size[i]) else 0)
         == Space(freq, size, depth, n)
  {
    if n > 0 {
      SpaceDrop(freq, size, depth, i, n - 1);
    }
  }

  /** Only which counts are zero matters, and the lengths of the others. */
  lemma {:induction false} SpaceSame(freq: seq<nat>, size: seq<nat>, other: seq<nat>, sizes: seq<nat>, depth: nat,
                                     n: nat)
    requires n <= |freq| == |other| == |size| == |sizes| && Within(freq, size, depth)
    requires forall s :: 0 <= s < |freq| ==> (freq[s] > 0 <==> other[s] > 0) && (freq[s] > 0 ==> size[s] == sizes[s])
    ensures Within(other, sizes, depth) && Space(other, sizes, depth, n) == Space(freq, size, depth, n)
  {
    if n > 0 {
      SpaceSame(freq, size, other, sizes, depth, n - 1);
    }
  }

  /** At another scale. */
  lemma {:induction false} SpaceScale(freq: seq<nat>, size: seq<nat>, depth: nat, less: nat, n: nat)
    requires n <= |freq| == |size| && less <= depth && Within(freq, size, less)
    ensures Within(freq, size, depth) && Space(freq, size, depth, n) == Shl(Space(freq, size, less, n), depth - less)
  {
    if n == 0 {
      ShlAdd(0, 0, depth - less);
    } else {
      SpaceScale(freq, size, depth, less, n - 1);
      if freq[n - 1] > 0 {
        ShlShl(1, less - size[n - 1], depth - less);
        ShlAdd(Space(freq, size, less, n - 1), Shl(1, less - size[n - 1]), depth - less);
      }
    }
  }

  // ----- exchanges -----

  function Swapped(size: seq<nat>, a: nat, b: nat): (r: seq<nat>)
    requires a < |size| && b < |size|
    ensures |r| == |size|
  {
    size[a := size[b]][b := size[a]]
  }

  /** A symbol that is not more frequent than another may have the longer code. */
  lemma {:induction false} SwapCosts(freq: seq<nat>, size: seq<nat>, depth: nat, a: nat, b: nat)
    requires Codable(freq, size, depth) && a < |freq| && b < |freq| && 0 < freq[a] <= freq[b] && size[a] <= size[b]
    ensures Codable(freq, Swapped(size, a, b), depth)
    ensures Cost(freq, Swapped(size, a, b), |freq|) <= Cost(freq, size, |freq|)
  {
    var n, first := |freq|, size[a := size[b]];
    if a == b {
      assert Swapped(size, a, b) == size;
    } else {
      SpaceUpdate(freq, size, depth, a, size[b], n);
      SpaceUpdate(freq, first, depth, b, size[a], n);
      CostUpdate(freq, size, a, size[b], n);
      CostUpdate(freq, first, b, size[a], n);
      Exchange(freq[a], freq[b], size[a], size[b]);
    }
  }

  lemma Exchange(fa: nat, fb: nat, la: nat, lb: nat)
    requires fa <= fb && la <= lb
    ensures fa * lb + fb * la <= fa * la + fb * lb
  {
    assert (fb - fa) * (lb - la) >= 0;
    assert (fb - fa) * (lb - la) == fb * lb - fb * la - fa * lb + fa * la;
  }

  /** The counted symbol with the longest code, apart from skip. */
  ghost predicate IsLongest(freq: seq<nat>, size: seq<nat>, skip: int, x: int) {
    && |freq| == |size| && 0 <= x < |freq| && x != skip && freq[x] > 0
    && forall s :: 0 <= s < |freq| && s != skip && freq[s] > 0 ==> size[s] <= size[x]
  }

  lemma {:induction false} Longest(freq: seq<nat>, size: seq<nat>, skip: int, n: nat) returns (x: int)
    requires n <= |freq| == |size|
    ensures -1 <= x < n
    ensures if x == -1 then forall s :: 0 <= s < n && s != skip ==> freq[s] == 0
            else x != skip && freq[x] > 0 && forall s :: 0 <= s < n && s != skip && freq[s] > 0 ==> size[s] <= size[x]
  {
    if n == 0 {
      x := -1;
    } else {
      x := Longest(freq, size, skip, n - 1);
      if n - 1 != skip && freq[n - 1] > 0 && (x == -1 || size[x] < size[n - 1]) {
        x := n - 1;
      }
    }
  }

  /** The smallest count may have the longest code. */
  lemma {:induction false} MakeLongest(freq: seq<nat>, size: seq<nat>, depth: nat, skip: int, c: nat)
    returns (next: seq<nat>)
    requires Codable(freq, size, depth) && Smallest(freq, skip, c)
    ensures Codable(freq, next, depth) && IsLongest(freq, next, skip, c)
    ensures Cost(freq, next, |freq|) <= Cost(freq, size, |freq|)
    ensures IsLongest(freq, size, -1, skip) ==> next[c] <= next[skip] == size[skip]
  {
    var x := Longest(freq, size, skip, |freq|);
    SwapCosts(freq, size, depth, c, x);
    next := Swapped(size, c, x);
  }

  // ----- the lower bound -----

  /** Apart from the longest code, the codes leave room for one more of the next length. */
  lemma {:induction false} RoomLeft(freq: seq<nat>, size: seq<nat>, depth: nat, c1: nat, less: nat)
    requires Codable(freq, size, depth) && c1 < |freq| && freq[c1] > 0 && less <= depth
    requires Within(freq[c1 := 0], size, less)
    ensures Space(freq[c1 := 0], size, less, |freq|) < Shl(1, less)
  {
    var n, rest := |freq|, freq[c1 := 0];
    SpaceDrop(freq, size, depth, c1, n);
    SpaceScale(rest, size, depth, less, n);
    ShlPositive(1, depth - size[c1]);
    ShlShl(1, less, depth - less);
    if Space(rest, size, less, n) >= Shl(1, less) {
      ShlOrder(Shl(1, less), Space(rest, size, less, n), depth - less);
    }
  }

  /** Merging the symbols with the two longest codes gives a code again. */
  lemma {:induction false} MergedCodable(freq: seq<nat>, size: seq<nat>, depth: nat, c1: nat, c2: nat)
    requires Codable(freq, size, depth) && IsLongest(freq, size, -1, c1) && IsLongest(freq, size, c1, c2)
    ensures size[c2] > 0 && Codable(MergedFreq(freq, c1, c2), size[c1 := size[c2] - 1], size[c2])
  {
    var n, less, rest := |freq|, size[c2], freq[c1 := 0];
    RoomLeft(freq, size, depth, c1, less);
    SpaceDrop(rest, size, less, c2, n);
    assert Shl(1, 0) == 1;
    assert less > 0;
    var merged, sizes := MergedFreq(freq, c1, c2), size[c1 := less - 1];
    SpaceSame(rest[c2 := 0], size, merged[c1 := 0], sizes, less, n);
    SpaceDrop(merged, sizes, less, c1, n);
    assert Shl(1, 1) == 2;
  }

  lemma MergedBits(a: nat, b: nat, c: nat, d: nat, f1: nat, f2: nat, m: nat, less: nat)
    requires 0 < less <= m
    requires b + f1 * m == a + (f1 + f2) * m && c + f2 * less == b
    requires d + (f1 + f2) * m == c + (f1 + f2) * (less - 1)
    ensures d + f1 + f2 <= a
  {
    assert (f1 + f2) * (less - 1) == f1 * less + f2 * less - f1 - f2;
    assert f1 * m == f1 * less + f1 * (m - less) && f1 * (m - less) >= 0;
  }

  /** And its merged code saves what the merge costs. */
  lemma {:induction false} MergedSaves(freq: seq<nat>, size: seq<nat>, c1: nat, c2: nat)
    requires |freq| == |size| && c1 < |freq| && c2 < |freq| && c1 != c2 && 0 < size[c2] <= size[c1]
    ensures Cost(MergedFreq(freq, c1, c2), size[c1 := size[c2] - 1], |freq|) + freq[c1] + freq[c2]
         <= Cost(freq, size, |freq|)
  {
    var n, f1, f2, m, less := |freq|, freq[c1], freq[c2], size[c1], size[c2];
    var summed, merged := freq[c1 := f1 + f2], MergedFreq(freq, c1, c2);
    CostFreq(freq, size, c1, f1 + f2, n);
    CostFreq(summed, size, c2, 0, n);
    CostUpdate(merged, size, c1, less - 1, n);
    MergedBits(Cost(freq, size, n), Cost(summed, size, n), Cost(merged, size, n), Cost(merged, size[c1 := less - 1], n),
               f1, f2, m, less);
  }

  /** No code costs less than the merges. */
  lemma {:induction false} LowerBound(freq: seq<nat>, size: seq<nat>, depth: nat)
    requires Codable(freq, size, depth)
    ensures MergeCost(freq) <= Cost(freq, size, |freq|)
    decreases Live(freq, |freq|)
  {
    var c1 := Pick(freq, -1, |freq|);
    var c2 := Pick(freq, c1, |freq|);
    if c1 >= 0 && c2 >= 0 {
      PickedLive(freq, c1, c2);
      MergedLive(freq, c1, c2);
      var first := MakeLongest(freq, size, depth, -1, c1);
      var second := MakeLongest(freq, first, depth, c1, c2);
      assert IsLongest(freq, second, -1, c1);
      MergedCodable(freq, second, depth, c1, c2);
      MergedSaves(freq, second, c1, c2);
      LowerBound(MergedFreq(freq, c1, c2), second[c1 := second[c2] - 1], second[c2]);
    }
  }

  /** Whatever lengths the counted symbols have, if their Kraft sum is at most one then all symbols
      together take at least as many bits as with Huffman's lengths. */
  lemma HuffmanIsMinimal(counted: seq<nat>, size: seq<nat>, depth: nat)
    requires Codable(counted, size, depth)
    ensures Cost(counted, HuffmanLengths(counted), |counted|) <= Cost(counted, size, |counted|)
  {
    HuffmanCost(counted);
    LowerBound(counted, size, depth);
  }
}
