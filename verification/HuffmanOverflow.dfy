/**
 The counts with the least total for which Huffman's procedure makes a code of 33 bits: Fibonacci
 numbers, the larger ones for the smaller symbols, so that the tree grows by one symbol at a time.
 */
module HuffmanOverflow {
  import opened Numbers
  import opened HuffmanTable
  import opened HuffmanOptimal
  import opened HuffmanLimit

  const LAST := 33  // the number of merges

  /** The symbol that leads the tree after m merges; RESERVED - k is symbol k from the top. */
  function Head(m: nat): (k: nat) {
    if m <= 1 then 0 else m
  }

  function FibonacciCount(k: nat): (n: nat)
    ensures n >= 1
  {
    if k < 2 then 1 else LeastCount(k - 2)
  }

  /** The count of symbol s after m merges: one tree of the symbols up to m from the top, and the other
      symbols. */
  function Entry(m: nat, s: nat): (n: nat)
    requires s < SYMBOLS
  {
    var k := RESERVED - s;
    if k == Head(m) then LeastCount(m) else if m < k <= LAST then FibonacciCount(k) else 0
  }

  function Fibonacci(m: nat): (freq: seq<nat>)
    ensures |freq| == SYMBOLS && forall s :: 0 <= s < SYMBOLS ==> freq[s] == Entry(m, s)
  {
    seq(SYMBOLS, s requires 0 <= s < SYMBOLS => Entry(m, s))
  }

  lemma {:induction false} CountsGrow(j: nat, k: nat)
    requires j <= k
    ensures FibonacciCount(j) <= FibonacciCount(k) && (2 <= j < k ==> FibonacciCount(j) < FibonacciCount(k))
    decreases k
  {
    if j < k {
      CountsGrow(j, k - 1);
    }
  }

  lemma {:induction false} SmallestIsPick(freq: seq<nat>, skip: int, c: int)
    requires Smallest(freq, skip, c)
    ensures Pick(freq, skip, |freq|) == c
  {
    PickIsSmallest(freq, skip, |freq|);
    assert freq[..|freq|] == freq;
  }

  lemma {:induction false} EntryOrder(m: nat, i: nat)
    requires 1 <= m < LAST && i < SYMBOLS && Entry(m, i) > 0 && i != RESERVED - (m + 1)
    ensures Entry(m, RESERVED - (m + 1)) < Entry(m, i)
    ensures var c2 := RESERVED - Head(m); Entry(m, c2) < Entry(m, i) || (Entry(m, c2) == Entry(m, i) && i <= c2)
  {
    assert FibonacciCount(m + 2) == LeastCount(m);
    CountsGrow(m + 1, m + 2);
    if i != RESERVED - Head(m) {
      CountsGrow(m + 2, RESERVED - i);
    }
  }

  lemma {:induction false} NextSmallest(m: nat)
    requires 1 <= m < LAST
    ensures var freq, c1, c2 := Fibonacci(m), RESERVED - (m + 1), RESERVED - Head(m);
            Smallest(freq, -1, c1) && Smallest(freq, c1, c2)
  {
    var freq, c1 := Fibonacci(m), RESERVED - (m + 1);
    assert freq[c1] == Entry(m, c1) >= 1;
    forall i | 0 <= i < SYMBOLS && freq[i] > 0 && i != c1
      ensures freq[c1] < freq[i]
      ensures var c2 := RESERVED - Head(m); freq[c2] < freq[i] || (freq[c2] == freq[i] && i <= c2)
    {
      EntryOrder(m, i);
    }
  }

  /** The next symbol has the smallest count, and the tree comes second: it wins over the symbol after
      that, whose count is the same, by its number. */
  lemma {:induction false} NextPicked(m: nat)
    requires 1 <= m < LAST
    ensures var freq := Fibonacci(m);
            && Pick(freq, -1, |freq|) == RESERVED - (m + 1)
            && Pick(freq, RESERVED - (m + 1), |freq|) == RESERVED - Head(m)
  {
    NextSmallest(m);
    SmallestIsPick(Fibonacci(m), -1, RESERVED - (m + 1));
    SmallestIsPick(Fibonacci(m), RESERVED - (m + 1), RESERVED - Head(m));
  }

  lemma FirstPicked()
    ensures var freq := Fibonacci(0); Pick(freq, -1, |freq|) == RESERVED && Pick(freq, RESERVED, |freq|) == RESERVED - 1
  {
    var freq := Fibonacci(0);
    forall i | 0 <= i < SYMBOLS && freq[i] > 0 ensures freq[i] >= 1 {
    }
    assert Smallest(freq, -1, RESERVED) && Smallest(freq, RESERVED, RESERVED - 1);
    SmallestIsPick(freq, -1, RESERVED);
    SmallestIsPick(freq, RESERVED, RESERVED - 1);
  }

  /** The trees that are merged next. */
  function First(m: nat): (c: nat)
    requires m < LAST
    ensures c < SYMBOLS
  {
    if m == 0 then RESERVED else RESERVED - (m + 1)
  }

  function Second(m: nat): (c: nat)
    requires m < LAST
    ensures c < SYMBOLS
  {
    if m == 0 then RESERVED - 1 else RESERVED - Head(m)
  }

  lemma {:induction false} NextEntry(m: nat, s: nat)
    requires m < LAST && s < SYMBOLS
    ensures First(m) != Second(m) && Entry(m, First(m)) > 0 && Entry(m, Second(m)) > 0
    ensures Entry(m + 1, s)
         == if s == Second(m) then 0
            else if s == First(m) then Entry(m, First(m)) + Entry(m, Second(m))
            else Entry(m, s)
  {
    assert LeastCount(m + 1) == LeastCount(m) + FibonacciCount(m + 1);
  }

  lemma {:induction false} NextFibonacci(m: nat)
    requires m < LAST
    ensures MergedFreq(Fibonacci(m), First(m), Second(m)) == Fibonacci(m + 1)
  {
    var r, f := MergedFreq(Fibonacci(m), First(m), Second(m)), Fibonacci(m + 1);
    forall s | 0 <= s < SYMBOLS ensures r[s] == f[s] {
      NextEntry(m, s);
    }
  }

  /** One count is left. */
  lemma {:induction false} LengthsEnd(freq: seq<nat>, owner: seq<int>, size: seq<nat>, c: nat)
    requires |freq| == |owner| == |size| && c < |freq| && freq[c] > 0
    requires forall i :: 0 <= i < |freq| && i != c ==> freq[i] == 0
    ensures Lengths(freq, owner, size) == size
  {
    SmallestIsPick(freq, -1, c);
    PickIsSmallest(freq, c, |freq|);
  }

  /** The reserved symbol goes one deeper with every merge. */
  lemma {:induction false} ReservedDeepens(m: nat, last: nat, owner: seq<int>, size: seq<nat>)
    requires 1 <= m <= last == LAST && |owner| == |size| == SYMBOLS && owner[RESERVED] == RESERVED - Head(m)
    requires size[RESERVED] == m
    ensures Lengths(Fibonacci(m), owner, size)[RESERVED] == last
    decreases last - m
  {
    if m < last {
      NextPicked(m);
      NextFibonacci(m);
      LengthsStep(Fibonacci(m), owner, size, First(m), Second(m));
      ReservedDeepens(m + 1, last, MergedOwner(owner, First(m), Second(m)), Deepened(owner, size, First(m), Second(m)));
    } else {
      LengthsEnd(Fibonacci(m), owner, size, RESERVED - m);
    }
  }

  lemma {:induction false} SumAlone(freq: seq<nat>, s: nat)
    requires s < |freq| && forall i :: 0 <= i < |freq| && i != s ==> freq[i] == 0
    ensures Sum(freq, |freq|) == freq[s]
  {
    SumUpdate(freq, |freq|, s, 0);
    SumOfZeros(freq[s := 0], |freq|);
  }

  lemma {:induction false} FibonacciSum(m: nat, last: nat)
    requires m <= last == LAST
    ensures var freq := Fibonacci(m); Sum(freq, |freq|) == LeastCount(last)
    decreases last - m
  {
    if m < last {
      NextFibonacci(m);
      NextEntry(m, 0);
      MergedLive(Fibonacci(m), First(m), Second(m));
      FibonacciSum(m + 1, last);
    } else {
      SumAlone(Fibonacci(last), RESERVED - last);
    }
  }

  lemma {:induction false} SumOfZeros(freq: seq<nat>, n: nat)
    requires n <= |freq| && forall i :: 0 <= i < n ==> freq[i] == 0
    ensures Sum(freq, n) == 0
  {
    if n > 0 {
      SumOfZeros(freq, n - 1);
    }
  }

  lemma {:induction false} FibonacciDeepens(counted: seq<nat>, m: nat, last: nat)
    requires counted == Fibonacci(m) && m == 0 && last == LAST
    ensures HuffmanLengths(counted)[RESERVED] == last
  {
    FirstPicked();
    NextFibonacci(m);
    var owner, size := Single(counted).owner, seq(|counted|, s => 0);
    LengthsStep(counted, owner, size, First(m), Second(m));
    ReservedDeepens(m + 1, last, MergedOwner(owner, First(m), Second(m)), Deepened(owner, size, First(m), Second(m)));
  }

  lemma AlreadyReserved()
    ensures WithReserved(Fibonacci(0)) == Fibonacci(0)
  {
  }

  /** The least total that can give a code of 33 bits does give one. */
  lemma {:induction false} LeastCountOverflows(counted: seq<nat>, d: nat)
    requires counted == Fibonacci(0) && d == MAX_CLEN + 1
    ensures counted == WithReserved(counted) && Sum(counted, |counted|) == LeastCount(d)
    ensures HuffmanLengths(counted)[RESERVED] == d
  {
    AlreadyReserved();
    FibonacciSum(0, d);
    FibonacciDeepens(counted, 0, d);
  }
}
