/**
 What length each symbol finally has: its own from Huffman's procedure, if none is longer than 16 bits.
 */
module HuffmanFinalTable {
  import opened Numbers
  import opened HuffmanTable
  import opened HuffmanOptimal
  import opened HuffmanDeepest
  import opened HuffmanLimit

  lemma {:induction false} NoneOfLength(size: seq<nat>, l: nat, n: nat)
    requires n <= |size| && forall s :: 0 <= s < n ==> size[s] != l
    ensures OfLength(size, l, n) == 0
  {
    if n > 0 {
      NoneOfLength(size, l, n - 1);
    }
  }

  lemma {:induction false} SomeOfLength(size: seq<nat>, s: nat, n: nat)
    requires s < n <= |size|
    ensures OfLength(size, size[s], n) > 0
  {
    if s < n - 1 {
      SomeOfLength(size, s, n - 1);
    }
  }

  /** Nothing is to be repaired. */
  lemma NoRepair(size: seq<nat>, steps: seq<seq<nat>>)
    requires |size| == SYMBOLS && (forall s :: 0 <= s < SYMBOLS ==> size[s] <= MAX_BITS)
    requires Repair(steps) && steps[0] == LengthCounts(size)
    ensures |steps| == 1
  {
    if |steps| > 1 {
      assert RepairStep(steps[0], steps[0 + 1]);
      var i, j :| 16 < i < |steps[0]| && Exchanged(steps[0], steps[1], i, j);
      NoneOfLength(size, i, SYMBOLS);
    }
  }

  /** Giving up one of the longest codes takes away that of the reserved symbol. */
  lemma {:induction false} CountsWithoutReserved(bits: seq<nat>, size: seq<nat>)
    requires |size| == SYMBOLS && BitsOf(bits, size) && (forall s :: 0 <= s < SYMBOLS ==> size[s] <= MAX_BITS)
    requires forall s :: 0 <= s < SYMBOLS ==> size[s] <= size[RESERVED]
    ensures |bits| == MAX_BITS + 1 && forall l :: 1 <= l <= MAX_BITS ==> bits[l] == OfLength(size, l, RESERVED)
  {
    var steps, l :| MadeBy(bits, size, steps, l);
    NoRepair(size, steps);
    var counts := steps[0];
    assert counts == LengthCounts(size);
    if size[RESERVED] > 0 {
      SomeOfLength(size, RESERVED, SYMBOLS);
      assert counts[size[RESERVED]] > 0;
    }
    if size[RESERVED] != l {
      NoneOfLength(size, l, SYMBOLS);
    }
    forall k | 1 <= k <= MAX_BITS ensures bits[k] == OfLength(size, k, RESERVED) {
      assert OfLength(size, k, SYMBOLS) == OfLength(size, k, RESERVED) + if size[RESERVED] == k then 1 else 0;
    }
  }

  lemma {:induction false} CountIsListed(bits: seq<nat>, size: seq<nat>, l: nat)
    requires |size| == SYMBOLS && l < |bits| && forall k :: 1 <= k <= l ==> bits[k] == OfLength(size, k, RESERVED)
    ensures CodeCount(bits, l) == Listed(size, l, RESERVED)
  {
    if l > 0 {
      CountIsListed(bits, size, l - 1);
    }
  }

  /** The entries of length k come after all shorter ones. */
  lemma {:induction false} SizeAtPlace(bits: seq<nat>, l: Length, k: nat, p: nat)
    requires |bits| == MAX_BITS + 1 && 1 <= k <= l && CodeCount(bits, k - 1) <= p < CodeCount(bits, k)
    ensures p < |Sizes(bits, l)| == CodeCount(bits, l) && Sizes(bits, l)[p] == k
    decreases l
  {
    SizesCounted(bits, l);
    SizesCounted(bits, l - 1);
    if k < l {
      SizeAtPlace(bits, l - 1, k, p);
    }
  }

  lemma {:induction false} SizesCounted(bits: seq<nat>, l: Length)
    requires |bits| == MAX_BITS + 1
    ensures |Sizes(bits, l)| == CodeCount(bits, l)
  {
    if l > 0 {
      SizesCounted(bits, l - 1);
    }
  }

  /** If no code of Huffman's procedure is longer than 16 bits, every symbol in the table has the length
      that the procedure gives it. */
  lemma {:induction false} LengthsAreHuffmans(t: HuffTable, counted: seq<nat>, p: nat)
    requires IsTable(t, counted, HuffmanLengths(counted)) && |counted| == SYMBOLS && counted[RESERVED] == 1
    requires forall s :: 0 <= s < SYMBOLS ==> HuffmanLengths(counted)[s] <= MAX_BITS
    requires |t.bits| == MAX_BITS + 1 && p < |Sizes(t.bits, MAX_BITS)| <= |t.huffval|
    ensures Sizes(t.bits, MAX_BITS)[p] == HuffmanLengths(counted)[t.huffval[p]]
  {
    assert Expand(0);
    var size, list := HuffmanLengths(counted), t.huffval[..|Sizes(t.bits, MAX_BITS)|];
    var k := size[list[p]];
    assert PlacedAt(size, list[p], p);
    ReservedIsDeepest(counted);
    CountsWithoutReserved(t.bits, size);
    CountIsListed(t.bits, size, k);
    CountIsListed(t.bits, size, k - 1);
    SizeAtPlace(t.bits, MAX_BITS, k, p);
  }

  /** The same for the code that a counted symbol gets. */
  lemma CodeLengthsAreHuffmans(t: HuffTable, counted: seq<nat>, ehufco: seq<nat>, ehufsi: seq<nat>, v: Symbol)
    requires IsTable(t, counted, HuffmanLengths(counted)) && |counted| == SYMBOLS && counted[RESERVED] == 1
    requires forall s :: 0 <= s < SYMBOLS ==> HuffmanLengths(counted)[s] <= MAX_BITS
    requires t.Shaped() && |Sizes(t.bits, MAX_BITS)| <= 256 && Derived(t, ehufco, ehufsi) && counted[v] > 0
    ensures ehufsi[v] == HuffmanLengths(counted)[v]
  {
    assert Expand(0);
    var s := Sizes(t.bits, MAX_BITS);
    var p :| 0 <= p < |s| && t.huffval[..|s|][p] == v;
    LengthsAreHuffmans(t, counted, p);
    assert t.huffval[p] == v;
  }
}
