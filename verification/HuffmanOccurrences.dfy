/**
 What the statistics pass counts: each symbol as often as it stands among the items, which is as often
 as its code is written.
 */
module HuffmanOccurrences {
  import opened HuffmanTable
  import opened HuffmanModel
  import opened HuffmanGather

  /** The symbols of one table among the items, in order. */
  function SymbolsOf(p: Items, dc: bool, tbl: nat): (s: seq<Symbol>)
    decreases p
  {
    match p
    case NoItem => []
    case Symbol(d, t, symbol, rest) => (if d == dc && t == tbl then [symbol] else []) + SymbolsOf(rest, dc, tbl)
    case Raw(_, _, rest) => SymbolsOf(rest, dc, tbl)
    case Restart(rest) => SymbolsOf(rest, dc, tbl)
  }

  /** Each symbol is counted once for each time it stands there. */
  lemma {:induction false} TallyIsOccurrences(c: Counts, p: Items, dc: bool, tbl: nat, symbol: Symbol)
    requires tbl < NUM_HUFF_TBLS
    ensures Tally(c, p).At(dc, tbl)[symbol] == c.At(dc, tbl)[symbol] + multiset(SymbolsOf(p, dc, tbl))[symbol]
    decreases p
  {
    match p
    case NoItem =>
    case Symbol(d, t, s, rest) =>
      TallyIsOccurrences(if t < NUM_HUFF_TBLS then c.Add(d, t, s) else c, rest, dc, tbl, symbol);
    case Raw(_, _, rest) => TallyIsOccurrences(c, rest, dc, tbl, symbol);
    case Restart(rest) => TallyIsOccurrences(c, rest, dc, tbl, symbol);
  }
}
