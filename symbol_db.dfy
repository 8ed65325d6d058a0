/**
 * The parts of the symbol database that resolution changes: each symbol's definition, the
 * chains of alternative definitions of one name, and symbols added for __start_/__stop_ names.
 */
module SymbolDatabase {
  import opened Wrappers
  import opened LinkTypes
  import opened SymbolSelection

  /** Every link of the alternatives chains leads to a symbol that has a link itself. */
  predicate ChainsInRange(next: seq<SymbolId>) {
    forall k :: 0 <= k < |next| ==> next[k] < |next|
  }

  /**
   * The alternatives of `id`: the symbols reached by following `next` from `id` up to, and not
   * including, the undefined symbol; None when that takes more than `fuel` steps.
   */
  function Walk(next: seq<SymbolId>, id: SymbolId, fuel: nat): (r: Option<seq<SymbolId>>)
    requires ChainsInRange(next) && id < |next|
    ensures r.Some? ==> forall k :: 0 <= k < |r.value| ==> UNDEFINED_SYMBOL < r.value[k] < |next|
    ensures r.Some? && r.value != [] ==> r.value[0] == next[id]
    decreases fuel
  {
    if fuel == 0 then None
    else if next[id] == UNDEFINED_SYMBOL then Some([])
    else
      match Walk(next, next[id], fuel - 1)
      case None => None
      case Some(rest) => Some([next[id]] + rest)
  }

  /** Consecutive alternatives are linked, and the last one links to the undefined symbol. */
  lemma {:induction false} WalkFollowsLinks(next: seq<SymbolId>, id: SymbolId, fuel: nat)
    requires ChainsInRange(next) && id < |next| && Walk(next, id, fuel).Some?
    ensures var alts := Walk(next, id, fuel).value;
            && (alts == [] <==> next[id] == UNDEFINED_SYMBOL)
            && (forall k :: 0 <= k < |alts| - 1 ==> next[alts[k]] == alts[k + 1])
            && (alts != [] ==> next[alts[|alts| - 1]] == UNDEFINED_SYMBOL)
    decreases fuel
  {
    if next[id] != UNDEFINED_SYMBOL {
      WalkFollowsLinks(next, next[id], fuel - 1);
      var rest := Walk(next, next[id], fuel - 1).value;
      assert Walk(next, id, fuel).value == [next[id]] + rest;
    }
  }

  /** One step of a successful walk: it ends at the undefined symbol, or goes on from the next link. */
  lemma WalkStep(next: seq<SymbolId>, id: SymbolId, fuel: nat)
    requires ChainsInRange(next) && id < |next| && Walk(next, id, fuel).Some?
    ensures next[id] == UNDEFINED_SYMBOL ==> Walk(next, id, fuel).value == []
    ensures next[id] != UNDEFINED_SYMBOL ==>
              && fuel > 0 && Walk(next, next[id], fuel - 1).Some?
              && Walk(next, id, fuel).value == [next[id]] + Walk(next, next[id], fuel - 1).value
  {
  }

  /**
   * The chain walk of resolve_alternative_symbol_definitions: follows the links from `first`,
   * collecting every symbol met before the undefined one.
   */
  method CollectAlternatives(next: seq<SymbolId>, first: SymbolId) returns (alternatives: seq<SymbolId>)
    requires ChainsInRange(next) && first < |next| && Walk(next, first, |next|).Some?
    ensures alternatives == Walk(next, first, |next|).value
  {
    alternatives := [];
    var symbolId: SymbolId := first;
    ghost var fuel: nat := |next|;
    ghost var rest := Walk(next, first, |next|).value;
    while next[symbolId] != UNDEFINED_SYMBOL
      invariant symbolId < |next| && Walk(next, symbolId, fuel).Some? && Walk(next, symbolId, fuel).value == rest
      invariant alternatives + rest == Walk(next, first, |next|).value
      decreases fuel
    {
      var following := next[symbolId];
      WalkStep(next, symbolId, fuel);
      ghost var w := Walk(next, following, fuel - 1).value;
      assert alternatives + rest == (alternatives + [following]) + w;
      alternatives := alternatives + [following];
      symbolId := following;
      fuel := fuel - 1;
      rest := w;
    }
    WalkStep(next, symbolId, fuel);
  }

  /** `d` with every id of `ids` pointing at `target`. */
  function Repoint(d: seq<SymbolId>, ids: seq<SymbolId>, target: SymbolId): (r: seq<SymbolId>)
    ensures |r| == |d|
    ensures forall x :: 0 <= x < |d| ==> r[x] == if x in ids then target else d[x]
  {
    RepointUpTo(d, ids, target, |ids|)
  }

  /** `d` with the first `n` ids of `ids` pointing at `target`. */
  function RepointUpTo(d: seq<SymbolId>, ids: seq<SymbolId>, target: SymbolId, n: nat): (r: seq<SymbolId>)
    requires n <= |ids|
    ensures |r| == |d|
    ensures forall x :: 0 <= x < |d| ==> r[x] == if x in ids[..n] then target else d[x]
  {
    if n == 0 then d
    else
      var r := RepointUpTo(d, ids, target, n - 1);
      assert ids[..n] == ids[..n - 1] + [ids[n - 1]];
      if ids[n - 1] < |r| then r[ids[n - 1] := target] else r
  }

  /** The chains can be walked, and they stay within the symbols. */
  predicate ChainsWellFormed(next: seq<SymbolId>, firsts: seq<SymbolId>, symbols: seq<SymbolInfo>) {
    && ChainsInRange(next)
    && |next| <= |symbols|
    && forall k :: 0 <= k < |firsts| ==> firsts[k] < |next| && Walk(next, firsts[k], |next|).Some?
  }

  /** A symbol with alternatives followed by its alternatives. */
  function Chain(next: seq<SymbolId>, first: SymbolId): (c: seq<SymbolId>)
    requires ChainsInRange(next) && first < |next| && Walk(next, first, |next|).Some?
    ensures forall k :: 0 <= k < |c| ==> c[k] < |next|
  {
    [first] + Walk(next, first, |next|).value
  }

  /** The definition the whole chain of `first` is pointed at. */
  function Winner(next: seq<SymbolId>, first: SymbolId, symbols: seq<SymbolInfo>, resolved: seq<ResolvedFile>): (w: SymbolId)
    requires ChainsInRange(next) && |next| <= |symbols| && first < |next| && Walk(next, first, |next|).Some?
    requires WellFormed(symbols, resolved)
    ensures w in Chain(next, first)
  {
    SelectedCorrected(symbols, resolved, first, Walk(next, first, |next|).value)
  }

  /**
   * The winner is what select_symbol returns as written, except in one case: a common first
   * definition is kept over the common alternative select_symbol picks when that one is smaller.
   */
  lemma WinnerAgainstSelectSymbol(next: seq<SymbolId>, first: SymbolId, symbols: seq<SymbolInfo>, resolved: seq<ResolvedFile>)
    requires ChainsInRange(next) && |next| <= |symbols| && first < |next| && Walk(next, first, |next|).Some?
    requires WellFormed(symbols, resolved)
    ensures var alts := Walk(next, first, |next|).value;
            var asWritten := Selected(symbols, resolved, first, alts);
            var w := Winner(next, first, symbols, resolved);
            && (w == asWritten || w == first)
            && (w != asWritten <==>
                  && StrengthOf(symbols, resolved, first).Common?
                  && asWritten != first
                  && StrengthOf(symbols, resolved, asWritten).Common?
                  && StrengthOf(symbols, resolved, asWritten).size < StrengthOf(symbols, resolved, first).size)
  {
  }

  /** Every id of every chain is below `n`. */
  predicate ChainsBelow(chains: seq<seq<SymbolId>>, n: nat) {
    forall k, j :: 0 <= k < |chains| && 0 <= j < |chains[k]| ==> chains[k][j] < n
  }

  /** `d` after the chains `chains[..n]` have been pointed at their winners, one after the other. */
  function RepointChains(d: seq<SymbolId>, chains: seq<seq<SymbolId>>, winners: seq<SymbolId>, n: nat): (r: seq<SymbolId>)
    requires n <= |chains| && n <= |winners|
    ensures |r| == |d|
  {
    if n == 0 then d
    else Repoint(RepointChains(d, chains, winners, n - 1), chains[n - 1], winners[n - 1])
  }

  /** The index of the last chain among `chains[..n]` that holds `x`, if any. */
  function LastChain(chains: seq<seq<SymbolId>>, x: SymbolId, n: nat): (r: Option<nat>)
    requires n <= |chains|
    ensures r.Some? ==> r.value < n && x in chains[r.value]
    ensures r.None? ==> forall k :: 0 <= k < n ==> x !in chains[k]
  {
    if n == 0 then None
    else if x in chains[n - 1] then Some(n - 1)
    else LastChain(chains, x, n - 1)
  }

  /** Symbol `x` ends up defined by the winner of the last chain holding it, or keeps its definition. */
  lemma {:induction false} RepointChainsAt(d: seq<SymbolId>, chains: seq<seq<SymbolId>>, winners: seq<SymbolId>, n: nat, x: SymbolId)
    requires n <= |chains| && n <= |winners| && x < |d|
    ensures LastChain(chains, x, n).None? ==> RepointChains(d, chains, winners, n)[x] == d[x]
    ensures LastChain(chains, x, n).Some? ==> RepointChains(d, chains, winners, n)[x] == winners[LastChain(chains, x, n).value]
  {
    if n > 0 {
      RepointChainsAt(d, chains, winners, n - 1, x);
    }
  }

  /** The chains of `firsts`, in order. */
  function Chains(next: seq<SymbolId>, firsts: seq<SymbolId>, symbols: seq<SymbolInfo>): (r: seq<seq<SymbolId>>)
    requires ChainsWellFormed(next, firsts, symbols)
    ensures |r| == |firsts| && forall k :: 0 <= k < |firsts| ==> r[k] == Chain(next, firsts[k])
  {
    seq(|firsts|, k requires 0 <= k < |firsts| => Chain(next, firsts[k]))
  }

  /** The winners of the chains of `firsts`, in order. */
  function Winners(next: seq<SymbolId>, firsts: seq<SymbolId>, symbols: seq<SymbolInfo>, resolved: seq<ResolvedFile>): (r: seq<SymbolId>)
    requires ChainsWellFormed(next, firsts, symbols) && WellFormed(symbols, resolved)
    ensures |r| == |firsts| && forall k :: 0 <= k < |firsts| ==> r[k] == Winner(next, firsts[k], symbols, resolved)
  {
    seq(|firsts|, k requires 0 <= k < |firsts| => Winner(next, firsts[k], symbols, resolved))
  }

  /** No symbol lies on two of the chains. */
  predicate DisjointChains(chains: seq<seq<SymbolId>>) {
    forall a, b, x :: 0 <= a < b < |chains| && x in chains[a] ==> x !in chains[b]
  }

  /**
   * With disjoint chains, every symbol of every chain ends up defined by that chain's winner,
   * and every symbol on no chain keeps its definition.
   */
  lemma RepointChainsPointAtWinners(d: seq<SymbolId>, chains: seq<seq<SymbolId>>, winners: seq<SymbolId>, n: nat)
    requires ChainsBelow(chains, |d|) && n <= |chains| && n <= |winners|
    requires DisjointChains(chains)
    ensures forall k, x :: 0 <= k < n && x in chains[k] ==> RepointChains(d, chains, winners, n)[x] == winners[k]
    ensures forall x :: 0 <= x < |d| && (forall k :: 0 <= k < n ==> x !in chains[k]) ==>
              RepointChains(d, chains, winners, n)[x] == d[x]
  {
    forall k, x | 0 <= k < n && x in chains[k]
      ensures RepointChains(d, chains, winners, n)[x] == winners[k]
    {
      var j :| 0 <= j < |chains[k]| && chains[k][j] == x;
      RepointChainsAt(d, chains, winners, n, x);
      assert LastChain(chains, x, n) == Some(k);
    }
    forall x | 0 <= x < |d| && (forall k :: 0 <= k < n ==> x !in chains[k])
      ensures RepointChains(d, chains, winners, n)[x] == d[x]
    {
      RepointChainsAt(d, chains, winners, n, x);
    }
  }

  /** Every id of `d` is below `n`. */
  predicate InRange(d: seq<SymbolId>, n: nat) {
    forall k :: 0 <= k < |d| ==> d[k] < n
  }

  /** replace_definition for every id of `ids` in turn: each of them ends up defined by `target`. */
  method RepointEach(d: seq<SymbolId>, ids: seq<SymbolId>, target: SymbolId) returns (r: seq<SymbolId>)
    requires forall k :: 0 <= k < |ids| ==> ids[k] < |d|
    ensures r == Repoint(d, ids, target)
  {
    r := d;
    var k := 0;
    while k < |ids|
      invariant 0 <= k <= |ids|
      invariant r == RepointUpTo(d, ids, target, k)
    {
      r := r[ids[k] := target];
      k := k + 1;
    }
  }

  /** Pointing chain `i` at its winner takes RepointChains from `i` chains to `i + 1`. */
  lemma RepointChainsStep(d: seq<SymbolId>, next: seq<SymbolId>, firsts: seq<SymbolId>, symbols: seq<SymbolInfo>,
                          resolved: seq<ResolvedFile>, i: nat)
    requires ChainsWellFormed(next, firsts, symbols) && WellFormed(symbols, resolved) && i < |firsts|
    ensures RepointChains(d, Chains(next, firsts, symbols), Winners(next, firsts, symbols, resolved), i + 1)
            == Repoint(RepointChains(d, Chains(next, firsts, symbols), Winners(next, firsts, symbols, resolved), i),
                       Chain(next, firsts[i]), Winner(next, firsts[i], symbols, resolved))
  {
  }

  /** One turn of resolve_alternative_symbol_definitions: points the chain of `first` at its winner. */
  method ResolveChain(d: seq<SymbolId>, symbols: seq<SymbolInfo>, previous: seq<SymbolId>, first: SymbolId,
                      resolved: seq<ResolvedFile>) returns (r: seq<SymbolId>)
    requires |d| == |symbols| && InRange(d, |symbols|) && WellFormed(symbols, resolved)
    requires ChainsInRange(previous) && |previous| <= |symbols| && first < |previous| && Walk(previous, first, |previous|).Some?
    ensures InRange(r, |symbols|)
    ensures r == Repoint(d, Chain(previous, first), Winner(previous, first, symbols, resolved))
  {
    var alternatives := CollectAlternatives(previous, first);
    var selected := SelectSymbolCorrected(symbols, resolved, first, alternatives);
    r := RepointEach(d, [first] + alternatives, selected);
  }

  /**
   * The loop of resolve_alternative_symbol_definitions over the definitions table `d0`: the
   * chains of `firsts` are pointed at their winners, one after the other.
   */
  method ResolveChains(d0: seq<SymbolId>, symbols: seq<SymbolInfo>, previous: seq<SymbolId>, firsts: seq<SymbolId>,
                       resolved: seq<ResolvedFile>) returns (d: seq<SymbolId>)
    requires |d0| == |symbols| && InRange(d0, |symbols|) && WellFormed(symbols, resolved)
    requires ChainsWellFormed(previous, firsts, symbols)
    ensures |d| == |symbols| && InRange(d, |symbols|)
    ensures d == RepointChains(d0, Chains(previous, firsts, symbols), Winners(previous, firsts, symbols, resolved), |firsts|)
  {
    d := d0;
    var i := 0;
    while i < |firsts|
      invariant 0 <= i <= |firsts|
      invariant InRange(d, |symbols|)
      invariant d == RepointChains(d0, Chains(previous, firsts, symbols), Winners(previous, firsts, symbols, resolved), i)
    {
      RepointChainsStep(d0, previous, firsts, symbols, resolved, i);
      d := ResolveChain(d, symbols, previous, firsts[i], resolved);
      i := i + 1;
    }
  }

  /** The symbol database: symbol information, current definitions and the alternatives chains. */
  class SymbolDb {
    var symbols: seq<SymbolInfo>
    /** For each symbol, the symbol that defines it (itself for a symbol that defines itself). */
    var definitions: seq<SymbolId>
    /** For each symbol with another definition of its name, the next one; 0 ends a chain. */
    var alternativeDefinitions: seq<SymbolId>
    /** The first symbol of each chain of alternative definitions. */
    var symbolsWithAlternatives: seq<SymbolId>
    /** The file that owns the symbols the linker adds. */
    const syntheticFile: FileId

    ghost predicate Valid()
      reads this
    {
      && |definitions| == |symbols|
      && forall k :: 0 <= k < |definitions| ==> definitions[k] < |symbols|
    }

    constructor (symbols: seq<SymbolInfo>, definitions: seq<SymbolId>, alternativeDefinitions: seq<SymbolId>,
                 symbolsWithAlternatives: seq<SymbolId>, syntheticFile: FileId)
      requires |definitions| == |symbols| && forall k :: 0 <= k < |definitions| ==> definitions[k] < |symbols|
      ensures Valid()
      ensures this.symbols == symbols && this.definitions == definitions
      ensures this.alternativeDefinitions == alternativeDefinitions && this.symbolsWithAlternatives == symbolsWithAlternatives
      ensures this.syntheticFile == syntheticFile
    {
      this.symbols := symbols;
      this.definitions := definitions;
      this.alternativeDefinitions := alternativeDefinitions;
      this.symbolsWithAlternatives := symbolsWithAlternatives;
      this.syntheticFile := syntheticFile;
    }

    /** Makes `target` the definition of `id`. */
    method ReplaceDefinition(id: SymbolId, target: SymbolId)
      requires Valid() && id < |symbols| && target < |symbols|
      modifies this
      ensures Valid()
      ensures definitions == old(definitions)[id := target]
      ensures symbols == old(symbols)
      ensures alternativeDefinitions == old(alternativeDefinitions)
      ensures symbolsWithAlternatives == old(symbolsWithAlternatives)
    {
      definitions := definitions[id := target];
    }

    /** Adds a symbol for a __start_/__stop_ name; it is its own definition. */
    method AddStartStopSymbol(name: Name) returns (id: SymbolId)
      requires Valid()
      modifies this
      ensures Valid()
      ensures id == |old(symbols)|
      ensures symbols == old(symbols) + [SymbolInfo(name, syntheticFile, None, 0)]
      ensures definitions == old(definitions) + [id]
      ensures alternativeDefinitions == old(alternativeDefinitions)
      ensures symbolsWithAlternatives == old(symbolsWithAlternatives)
    {
      id := |symbols|;
      symbols := symbols + [SymbolInfo(name, syntheticFile, None, 0)];
      definitions := definitions + [id];
    }

    /**
     * resolve_alternative_symbol_definitions: takes the chains out of the database and points
     * every symbol of each chain, the first included, at the definition selected for it.
     */
    method ResolveAlternativeSymbolDefinitions(resolved: seq<ResolvedFile>)
      requires Valid() && WellFormed(symbols, resolved)
      requires ChainsWellFormed(alternativeDefinitions, symbolsWithAlternatives, symbols)
      modifies this
      ensures Valid()
      ensures symbols == old(symbols)
      ensures alternativeDefinitions == [] && symbolsWithAlternatives == []
      ensures definitions == RepointChains(old(definitions), Chains(old(alternativeDefinitions), old(symbolsWithAlternatives), symbols),
                                           Winners(old(alternativeDefinitions), old(symbolsWithAlternatives), symbols, resolved),
                                           |old(symbolsWithAlternatives)|)
    {
      var previous := alternativeDefinitions;
      var firsts := symbolsWithAlternatives;
      alternativeDefinitions := [];
      symbolsWithAlternatives := [];
      definitions := ResolveChains(definitions, symbols, previous, firsts, resolved);
    }
  }
}
