/**
 * Choosing among several definitions of one symbol name: the strength of each definition
 * (symbol_strength) and the choice of the winner (select_symbol).
 */
module SymbolSelection {
  import opened Wrappers
  import opened LinkTypes
  import opened ValueFlagsModel

  /** The symbol-table entry of a definition, as the object file states it. */
  datatype ElfSymbol = ElfSymbol(weak: bool, common: bool, size: nat)

  /**
   * What the symbol database knows about one symbol id: its name, the file that defines it, its
   * entry in that file's symbol table (None when the entry cannot be read) and its value flags.
   */
  datatype SymbolInfo = SymbolInfo(name: Name, file: FileId, entry: Option<ElfSymbol>, flags: ValueFlags)

  /** What became of each input file during resolution. */
  datatype ResolvedFile = NotLoaded | ResolvedPrelude | ResolvedObject | ResolvedEpilogue

  /** Every symbol belongs to a file that resolution knows about. */
  predicate WellFormed(symbols: seq<SymbolInfo>, resolved: seq<ResolvedFile>) {
    forall id :: 0 <= id < |symbols| ==> symbols[id].file < |resolved|
  }

  datatype SymbolStrength = Undefined | Weak | Strong | Common(size: nat)

  /**
   * SymbolDb::symbol_strength: a definition only counts when its object was loaded and its
   * entry readable; then it is weak, common (with its size) or strong.
   */
  function StrengthOf(symbols: seq<SymbolInfo>, resolved: seq<ResolvedFile>, id: SymbolId): (s: SymbolStrength)
    requires WellFormed(symbols, resolved) && id < |symbols|
    ensures s != Undefined <==> resolved[symbols[id].file].ResolvedObject? && symbols[id].entry.Some?
  {
    var info := symbols[id];
    if !resolved[info.file].ResolvedObject? then Undefined
    else
      match info.entry
      case None => Undefined
      case Some(e) => if e.weak then Weak else if e.common then Common(e.size) else Strong
  }

  /** All ids are symbols of the database. */
  predicate ValidIds(symbols: seq<SymbolInfo>, ids: seq<SymbolId>) {
    forall k :: 0 <= k < |ids| ==> ids[k] < |symbols|
  }

  /** A dynamic definition, even a strong one, cannot override a non-dynamic one. */
  predicate Eligible(symbols: seq<SymbolInfo>, id: SymbolId)
    requires id < |symbols|
  {
    !Contains(symbols[id].flags, DYNAMIC)
  }

  predicate IsStrongAlternative(symbols: seq<SymbolInfo>, resolved: seq<ResolvedFile>, id: SymbolId)
    requires WellFormed(symbols, resolved) && id < |symbols|
  {
    Eligible(symbols, id) && StrengthOf(symbols, resolved, id) == Strong
  }

  predicate IsCommonAlternative(symbols: seq<SymbolInfo>, resolved: seq<ResolvedFile>, id: SymbolId)
    requires WellFormed(symbols, resolved) && id < |symbols|
  {
    Eligible(symbols, id) && StrengthOf(symbols, resolved, id).Common?
  }

  /** The first strong eligible alternative met when scanning `alts[k..]` from last to first. */
  function ScanStrong(symbols: seq<SymbolInfo>, resolved: seq<ResolvedFile>, alts: seq<SymbolId>, k: nat): (r: Option<SymbolId>)
    requires WellFormed(symbols, resolved) && ValidIds(symbols, alts) && k <= |alts|
    ensures r.Some? ==> r.value in alts[k..]
    decreases |alts| - k
  {
    if k == |alts| then None
    else
      match ScanStrong(symbols, resolved, alts, k + 1)
      case Some(x) => Some(x)
      case None => if IsStrongAlternative(symbols, resolved, alts[k]) then Some(alts[k]) else None
  }

  /**
   * The value of max_common after scanning `alts[k..]` from last to first: a common eligible
   * alternative replaces the one held only when strictly larger.
   */
  function ScanCommon(symbols: seq<SymbolInfo>, resolved: seq<ResolvedFile>, alts: seq<SymbolId>, k: nat): (r: Option<(nat, SymbolId)>)
    requires WellFormed(symbols, resolved) && ValidIds(symbols, alts) && k <= |alts|
    ensures r.Some? ==> r.value.1 in alts[k..]
    decreases |alts| - k
  {
    if k == |alts| then None
    else
      var held := ScanCommon(symbols, resolved, alts, k + 1);
      var alt := alts[k];
      if IsCommonAlternative(symbols, resolved, alt)
         && (held.None? || StrengthOf(symbols, resolved, alt).size > held.value.0)
      then Some((StrengthOf(symbols, resolved, alt).size, alt))
      else held
  }

  /** The first alternative of any strength but Undefined met when scanning `alts[k..]` from last to first. */
  function ScanDefined(symbols: seq<SymbolInfo>, resolved: seq<ResolvedFile>, alts: seq<SymbolId>, k: nat): (r: Option<SymbolId>)
    requires WellFormed(symbols, resolved) && ValidIds(symbols, alts) && k <= |alts|
    ensures r.Some? ==> r.value in alts[k..]
    decreases |alts| - k
  {
    if k == |alts| then None
    else
      match ScanDefined(symbols, resolved, alts, k + 1)
      case Some(x) => Some(x)
      case None => if StrengthOf(symbols, resolved, alts[k]) != Undefined then Some(alts[k]) else None
  }

  /** The definition select_symbol picks for `first`, whose other definitions are `alts`. */
  function Selected(symbols: seq<SymbolInfo>, resolved: seq<ResolvedFile>, first: SymbolId, alts: seq<SymbolId>): (r: SymbolId)
    requires WellFormed(symbols, resolved) && first < |symbols| && ValidIds(symbols, alts)
    ensures r == first || r in alts
    ensures r < |symbols|
  {
    if StrengthOf(symbols, resolved, first) == Strong then first
    else if ScanStrong(symbols, resolved, alts, 0).Some? then ScanStrong(symbols, resolved, alts, 0).value
    else if ScanCommon(symbols, resolved, alts, 0).Some? then ScanCommon(symbols, resolved, alts, 0).value.1
    else if StrengthOf(symbols, resolved, first) != Undefined then first
    else if ScanDefined(symbols, resolved, alts, 0).Some? then ScanDefined(symbols, resolved, alts, 0).value
    else first
  }

  /** Once found, the scan result does not change as the scan goes on towards index 0. */
  lemma {:induction false} ScanStrongFound(symbols: seq<SymbolInfo>, resolved: seq<ResolvedFile>, alts: seq<SymbolId>, j: nat, k: nat)
    requires WellFormed(symbols, resolved) && ValidIds(symbols, alts) && j <= k <= |alts|
    requires ScanStrong(symbols, resolved, alts, k).Some?
    ensures ScanStrong(symbols, resolved, alts, j) == ScanStrong(symbols, resolved, alts, k)
    decreases k - j
  {
    if j < k { ScanStrongFound(symbols, resolved, alts, j + 1, k); }
  }

  lemma {:induction false} ScanDefinedFound(symbols: seq<SymbolInfo>, resolved: seq<ResolvedFile>, alts: seq<SymbolId>, j: nat, k: nat)
    requires WellFormed(symbols, resolved) && ValidIds(symbols, alts) && j <= k <= |alts|
    requires ScanDefined(symbols, resolved, alts, k).Some?
    ensures ScanDefined(symbols, resolved, alts, j) == ScanDefined(symbols, resolved, alts, k)
    decreases k - j
  {
    if j < k { ScanDefinedFound(symbols, resolved, alts, j + 1, k); }
  }

  /**
   * select_symbol: returns the first definition if it is strong; otherwise scans the alternatives
   * from last to first, skipping dynamic ones, returning the first strong one and remembering the
   * largest common one; then falls back to the first definition unless it is undefined, then to
   * the last alternative that is not undefined, and finally to the first definition.
   */
  method SelectSymbol(symbols: seq<SymbolInfo>, resolved: seq<ResolvedFile>, first: SymbolId, alts: seq<SymbolId>)
    returns (r: SymbolId)
    requires WellFormed(symbols, resolved) && first < |symbols| && ValidIds(symbols, alts)
    ensures r == Selected(symbols, resolved, first, alts)
  {
    var firstStrength := StrengthOf(symbols, resolved, first);
    if firstStrength == Strong {
      return first;
    }
    var maxCommon: Option<(nat, SymbolId)> := None;
    var i := |alts|;
    while i > 0
      invariant 0 <= i <= |alts|
      invariant ScanStrong(symbols, resolved, alts, i).None?
      invariant maxCommon == ScanCommon(symbols, resolved, alts, i)
    {
      var alt := alts[i - 1];
      if Contains(symbols[alt].flags, DYNAMIC) {
        i := i - 1;
        continue;
      }
      var strength := StrengthOf(symbols, resolved, alt);
      if strength == Strong {
        ScanStrongFound(symbols, resolved, alts, 0, i - 1);
        return alt;
      }
      if strength.Common? {
        if maxCommon.None? || strength.size > maxCommon.value.0 {
          maxCommon := Some((strength.size, alt));
        }
      }
      i := i - 1;
    }
    if maxCommon.Some? {
      return maxCommon.value.1;
    }
    if firstStrength != Undefined {
      return first;
    }
    i := |alts|;
    while i > 0
      invariant 0 <= i <= |alts|
      invariant ScanDefined(symbols, resolved, alts, i).None?
    {
      var alt := alts[i - 1];
      if StrengthOf(symbols, resolved, alt) != Undefined {
        ScanDefinedFound(symbols, resolved, alts, 0, i - 1);
        return alt;
      }
      i := i - 1;
    }
    return first;
  }

  /** The strong scan finds the strong eligible alternative of largest index in `alts[k..]`. */
  lemma {:induction false} ScanStrongIsLast(symbols: seq<SymbolInfo>, resolved: seq<ResolvedFile>, alts: seq<SymbolId>, k: nat)
    requires WellFormed(symbols, resolved) && ValidIds(symbols, alts) && k <= |alts|
    ensures ScanStrong(symbols, resolved, alts, k).None? <==>
              forall j :: k <= j < |alts| ==> !IsStrongAlternative(symbols, resolved, alts[j])
    ensures ScanStrong(symbols, resolved, alts, k).Some? ==>
              exists j :: && k <= j < |alts|
                          && alts[j] == ScanStrong(symbols, resolved, alts, k).value
                          && IsStrongAlternative(symbols, resolved, alts[j])
                          && forall j' :: j < j' < |alts| ==> !IsStrongAlternative(symbols, resolved, alts[j'])
    decreases |alts| - k
  {
    if k < |alts| {
      ScanStrongIsLast(symbols, resolved, alts, k + 1);
    }
  }

  /**
   * `alts[j]` is `x`, a common eligible alternative of size `size`, no common eligible alternative of
   * `alts[k..]` is larger, and every one after index `j` is smaller.
   */
  ghost predicate LargestCommonAt(symbols: seq<SymbolInfo>, resolved: seq<ResolvedFile>, alts: seq<SymbolId>, k: nat, j: int, size: nat, x: SymbolId)
    requires WellFormed(symbols, resolved) && ValidIds(symbols, alts)
  {
    && k <= j < |alts|
    && alts[j] == x
    && IsCommonAlternative(symbols, resolved, alts[j])
    && StrengthOf(symbols, resolved, alts[j]).size == size
    && (forall j' :: k <= j' < |alts| && IsCommonAlternative(symbols, resolved, alts[j']) ==>
          StrengthOf(symbols, resolved, alts[j']).size <= size)
    && (forall j' :: j < j' < |alts| && IsCommonAlternative(symbols, resolved, alts[j']) ==>
          StrengthOf(symbols, resolved, alts[j']).size < size)
  }

  /** The common scan of `alts[k..]` holds nothing exactly when it has no common eligible alternative. */
  lemma {:induction false} ScanCommonNone(symbols: seq<SymbolInfo>, resolved: seq<ResolvedFile>, alts: seq<SymbolId>, k: nat)
    requires WellFormed(symbols, resolved) && ValidIds(symbols, alts) && k <= |alts|
    ensures ScanCommon(symbols, resolved, alts, k).None? <==>
              forall j :: k <= j < |alts| ==> !IsCommonAlternative(symbols, resolved, alts[j])
    decreases |alts| - k
  {
    if k < |alts| {
      ScanCommonNone(symbols, resolved, alts, k + 1);
    }
  }

  /** What the common scan holds is the largest common eligible alternative of `alts[k..]`, the last of the largest. */
  lemma {:induction false} ScanCommonHoldsLargest(symbols: seq<SymbolInfo>, resolved: seq<ResolvedFile>, alts: seq<SymbolId>, k: nat)
    requires WellFormed(symbols, resolved) && ValidIds(symbols, alts) && k <= |alts|
    ensures ScanCommon(symbols, resolved, alts, k).Some? ==>
              exists j :: LargestCommonAt(symbols, resolved, alts, k, j, ScanCommon(symbols, resolved, alts, k).value.0,
                                          ScanCommon(symbols, resolved, alts, k).value.1)
    decreases |alts| - k
  {
    if k < |alts| {
      ScanCommonHoldsLargest(symbols, resolved, alts, k + 1);
      var held := ScanCommon(symbols, resolved, alts, k + 1);
      var alt := alts[k];
      if IsCommonAlternative(symbols, resolved, alt) && (held.None? || StrengthOf(symbols, resolved, alt).size > held.value.0) {
        if held.Some? {
          var j :| LargestCommonAt(symbols, resolved, alts, k + 1, j, held.value.0, held.value.1);
        }
        ScanCommonTakes(symbols, resolved, alts, k);
        assert ScanCommon(symbols, resolved, alts, k).value == (StrengthOf(symbols, resolved, alt).size, alt);
      } else if held.Some? {
        var j :| LargestCommonAt(symbols, resolved, alts, k + 1, j, held.value.0, held.value.1);
        assert ScanCommon(symbols, resolved, alts, k) == held;
        assert LargestCommonAt(symbols, resolved, alts, k, j, held.value.0, held.value.1);
      }
    }
  }

  /** When the alternative at `k` replaces what the scan of `alts[k + 1..]` holds, it is the largest. */
  lemma ScanCommonTakes(symbols: seq<SymbolInfo>, resolved: seq<ResolvedFile>, alts: seq<SymbolId>, k: nat)
    requires WellFormed(symbols, resolved) && ValidIds(symbols, alts) && k < |alts|
    requires ScanCommon(symbols, resolved, alts, k + 1).Some? ==>
               forall j' :: k < j' < |alts| && IsCommonAlternative(symbols, resolved, alts[j']) ==>
                 StrengthOf(symbols, resolved, alts[j']).size <= ScanCommon(symbols, resolved, alts, k + 1).value.0
    requires IsCommonAlternative(symbols, resolved, alts[k])
    requires var held := ScanCommon(symbols, resolved, alts, k + 1);
             held.None? || StrengthOf(symbols, resolved, alts[k]).size > held.value.0
    ensures LargestCommonAt(symbols, resolved, alts, k, k, StrengthOf(symbols, resolved, alts[k]).size, alts[k])
  {
    ScanCommonNone(symbols, resolved, alts, k + 1);
  }

  /**
   * The common scan holds the largest common eligible alternative of `alts[k..]`, and among the
   * largest the one of largest index; it holds nothing exactly when there is no such alternative.
   */
  lemma ScanCommonIsLargest(symbols: seq<SymbolInfo>, resolved: seq<ResolvedFile>, alts: seq<SymbolId>, k: nat)
    requires WellFormed(symbols, resolved) && ValidIds(symbols, alts) && k <= |alts|
    ensures ScanCommon(symbols, resolved, alts, k).None? <==>
              forall j :: k <= j < |alts| ==> !IsCommonAlternative(symbols, resolved, alts[j])
    ensures ScanCommon(symbols, resolved, alts, k).Some? ==>
              var (size, x) := ScanCommon(symbols, resolved, alts, k).value;
              exists j :: && k <= j < |alts| && alts[j] == x
                          && IsCommonAlternative(symbols, resolved, x)
                          && StrengthOf(symbols, resolved, x).size == size
                          && (forall j' :: k <= j' < |alts| && IsCommonAlternative(symbols, resolved, alts[j']) ==>
                                StrengthOf(symbols, resolved, alts[j']).size <= size)
                          && (forall j' :: j < j' < |alts| && IsCommonAlternative(symbols, resolved, alts[j']) ==>
                                StrengthOf(symbols, resolved, alts[j']).size < size)
  {
    ScanCommonNone(symbols, resolved, alts, k);
    ScanCommonHoldsLargest(symbols, resolved, alts, k);
  }

  /** The fallback scan finds the alternative of largest index that is not undefined. */
  lemma {:induction false} ScanDefinedIsLast(symbols: seq<SymbolInfo>, resolved: seq<ResolvedFile>, alts: seq<SymbolId>, k: nat)
    requires WellFormed(symbols, resolved) && ValidIds(symbols, alts) && k <= |alts|
    ensures ScanDefined(symbols, resolved, alts, k).None? <==>
              forall j :: k <= j < |alts| ==> StrengthOf(symbols, resolved, alts[j]) == Undefined
    ensures ScanDefined(symbols, resolved, alts, k).Some? ==>
              exists j :: && k <= j < |alts|
                          && alts[j] == ScanDefined(symbols, resolved, alts, k).value
                          && StrengthOf(symbols, resolved, alts[j]) != Undefined
                          && forall j' :: j < j' < |alts| ==> StrengthOf(symbols, resolved, alts[j']) == Undefined
    decreases |alts| - k
  {
    if k < |alts| {
      ScanDefinedIsLast(symbols, resolved, alts, k + 1);
    }
  }

  /**
   * The winner is the first definition or one of its alternatives; a strong first definition
   * always wins; otherwise a strong eligible alternative, if any, wins.
   */
  lemma SelectedIsCandidate(symbols: seq<SymbolInfo>, resolved: seq<ResolvedFile>, first: SymbolId, alts: seq<SymbolId>)
    requires WellFormed(symbols, resolved) && first < |symbols| && ValidIds(symbols, alts)
    ensures var r := Selected(symbols, resolved, first, alts);
            && (r == first || r in alts)
            && (StrengthOf(symbols, resolved, first) == Strong ==> r == first)
            && (StrengthOf(symbols, resolved, first) != Strong && (exists j :: 0 <= j < |alts| && IsStrongAlternative(symbols, resolved, alts[j])) ==>
                  IsStrongAlternative(symbols, resolved, r))
  {
    ScanStrongIsLast(symbols, resolved, alts, 0);
    ScanCommonIsLargest(symbols, resolved, alts, 0);
    ScanDefinedIsLast(symbols, resolved, alts, 0);
  }

  /**
   * The winner is undefined exactly when every candidate is: a definition in a loaded object is
   * never passed over for one in an object that was not loaded.
   */
  lemma SelectedUndefinedOnlyIfAllAre(symbols: seq<SymbolInfo>, resolved: seq<ResolvedFile>, first: SymbolId, alts: seq<SymbolId>)
    requires WellFormed(symbols, resolved) && first < |symbols| && ValidIds(symbols, alts)
    ensures StrengthOf(symbols, resolved, Selected(symbols, resolved, first, alts)) == Undefined <==>
              && StrengthOf(symbols, resolved, first) == Undefined
              && forall j :: 0 <= j < |alts| ==> StrengthOf(symbols, resolved, alts[j]) == Undefined
  {
    ScanStrongIsLast(symbols, resolved, alts, 0);
    ScanCommonIsLargest(symbols, resolved, alts, 0);
    ScanDefinedIsLast(symbols, resolved, alts, 0);
  }

  /**
   * Without a strong candidate, the common eligible alternative of largest size wins, ties going
   * to the one scanned first (the one of largest index).
   */
  lemma SelectedLargestCommonAlternative(symbols: seq<SymbolInfo>, resolved: seq<ResolvedFile>, first: SymbolId, alts: seq<SymbolId>, j: nat)
    requires WellFormed(symbols, resolved) && first < |symbols| && ValidIds(symbols, alts)
    requires StrengthOf(symbols, resolved, first) != Strong
    requires forall j' :: 0 <= j' < |alts| ==> !IsStrongAlternative(symbols, resolved, alts[j'])
    requires j < |alts| && IsCommonAlternative(symbols, resolved, alts[j])
    ensures var r := Selected(symbols, resolved, first, alts);
            && r in alts && IsCommonAlternative(symbols, resolved, r)
            && StrengthOf(symbols, resolved, alts[j]).size <= StrengthOf(symbols, resolved, r).size
            && exists i :: && 0 <= i < |alts| && alts[i] == r
                           && forall j' :: i < j' < |alts| && IsCommonAlternative(symbols, resolved, alts[j']) ==>
                                StrengthOf(symbols, resolved, alts[j']).size < StrengthOf(symbols, resolved, r).size
  {
    ScanStrongIsLast(symbols, resolved, alts, 0);
    ScanCommonIsLargest(symbols, resolved, alts, 0);
  }

  /**
   * Without strong or common eligible candidates, the first definition wins unless it is
   * undefined; then the alternative of largest index that is not undefined, dynamic or not; and
   * when every candidate is undefined, the first definition.
   */
  lemma SelectedFallback(symbols: seq<SymbolInfo>, resolved: seq<ResolvedFile>, first: SymbolId, alts: seq<SymbolId>)
    requires WellFormed(symbols, resolved) && first < |symbols| && ValidIds(symbols, alts)
    requires StrengthOf(symbols, resolved, first) != Strong
    requires forall j :: 0 <= j < |alts| ==>
               !IsStrongAlternative(symbols, resolved, alts[j]) && !IsCommonAlternative(symbols, resolved, alts[j])
    ensures var r := Selected(symbols, resolved, first, alts);
            && (StrengthOf(symbols, resolved, first) != Undefined ==> r == first)
            && ((StrengthOf(symbols, resolved, first) == Undefined
                 && forall j :: 0 <= j < |alts| ==> StrengthOf(symbols, resolved, alts[j]) == Undefined) ==>
                  r == first)
            && ((StrengthOf(symbols, resolved, first) == Undefined
                 && exists j :: 0 <= j < |alts| && StrengthOf(symbols, resolved, alts[j]) != Undefined) ==>
                  exists i :: && 0 <= i < |alts| && alts[i] == r && StrengthOf(symbols, resolved, r) != Undefined
                              && forall j' :: i < j' < |alts| ==> StrengthOf(symbols, resolved, alts[j']) == Undefined)
  {
    ScanStrongIsLast(symbols, resolved, alts, 0);
    ScanCommonIsLargest(symbols, resolved, alts, 0);
    ScanDefinedIsLast(symbols, resolved, alts, 0);
  }

  /**
   * As written, the size of a common first definition takes no part in the comparison: a first
   * definition Common(100) loses to a single alternative Common(10).
   */
  lemma SelectedIgnoresFirstCommonSize()
    ensures var symbols := [
              SymbolInfo([], PRELUDE_FILE_ID, None, 0),
              SymbolInfo([120], 1, Some(ElfSymbol(false, true, 100)), 0),
              SymbolInfo([120], 2, Some(ElfSymbol(false, true, 10)), 0)];
            var resolved := [ResolvedPrelude, ResolvedObject, ResolvedObject];
            && WellFormed(symbols, resolved)
            && StrengthOf(symbols, resolved, 1) == Common(100)
            && Selected(symbols, resolved, 1, [2]) == 2
            && StrengthOf(symbols, resolved, 2) == Common(10)
  {
    var symbols := [
      SymbolInfo([], PRELUDE_FILE_ID, None, 0),
      SymbolInfo([120], 1, Some(ElfSymbol(false, true, 100)), 0),
      SymbolInfo([120], 2, Some(ElfSymbol(false, true, 10)), 0)];
    var resolved := [ResolvedPrelude, ResolvedObject, ResolvedObject];
    assert ScanStrong(symbols, resolved, [2], 1) == None;
    assert ScanCommon(symbols, resolved, [2], 1) == None;
  }

  /**
   * The choice the documentation of resolve_alternative_symbol_definitions describes: as
   * written, except that a common first definition strictly larger than the winning common
   * alternative is kept.
   */
  function SelectedCorrected(symbols: seq<SymbolInfo>, resolved: seq<ResolvedFile>, first: SymbolId, alts: seq<SymbolId>): (r: SymbolId)
    requires WellFormed(symbols, resolved) && first < |symbols| && ValidIds(symbols, alts)
    ensures r == first || r in alts
    ensures r < |symbols|
  {
    var r := Selected(symbols, resolved, first, alts);
    var firstStrength := StrengthOf(symbols, resolved, first);
    var chosen := StrengthOf(symbols, resolved, r);
    if firstStrength.Common? && r != first && chosen.Common? && chosen.size < firstStrength.size then first else r
  }

  /**
   * With the correction, when no candidate is strong and some candidate is common, the winner is
   * common and at least as large as every common candidate, the first definition included; and
   * the winner is still a candidate.
   */
  lemma SelectedCorrectedPicksLargestCommon(symbols: seq<SymbolInfo>, resolved: seq<ResolvedFile>, first: SymbolId, alts: seq<SymbolId>)
    requires WellFormed(symbols, resolved) && first < |symbols| && ValidIds(symbols, alts)
    requires StrengthOf(symbols, resolved, first) != Strong
    requires forall j :: 0 <= j < |alts| ==> !IsStrongAlternative(symbols, resolved, alts[j])
    requires StrengthOf(symbols, resolved, first).Common? || exists j :: 0 <= j < |alts| && IsCommonAlternative(symbols, resolved, alts[j])
    ensures var r := SelectedCorrected(symbols, resolved, first, alts);
            && (r == first || r in alts)
            && StrengthOf(symbols, resolved, r).Common?
            && (StrengthOf(symbols, resolved, first).Common? ==>
                  StrengthOf(symbols, resolved, first).size <= StrengthOf(symbols, resolved, r).size)
            && forall j :: 0 <= j < |alts| && IsCommonAlternative(symbols, resolved, alts[j]) ==>
                 StrengthOf(symbols, resolved, alts[j]).size <= StrengthOf(symbols, resolved, r).size
  {
    ScanStrongIsLast(symbols, resolved, alts, 0);
    ScanCommonIsLargest(symbols, resolved, alts, 0);
    SelectedIsCandidate(symbols, resolved, first, alts);
  }

  /** select_symbol with the correction applied. */
  method SelectSymbolCorrected(symbols: seq<SymbolInfo>, resolved: seq<ResolvedFile>, first: SymbolId, alts: seq<SymbolId>)
    returns (r: SymbolId)
    requires WellFormed(symbols, resolved) && first < |symbols| && ValidIds(symbols, alts)
    ensures r == SelectedCorrected(symbols, resolved, first, alts)
  {
    r := SelectSymbol(symbols, resolved, first, alts);
    SelectedIsCandidate(symbols, resolved, first, alts);
    var firstStrength := StrengthOf(symbols, resolved, first);
    var chosen := StrengthOf(symbols, resolved, r);
    if firstStrength.Common? && r != first && chosen.Common? && chosen.size < firstStrength.size {
      r := first;
    }
  }
}
