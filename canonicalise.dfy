/**
 * Canonicalisation of undefined symbols: after all files are resolved, every name that nothing
 * defined gets one canonical symbol, either a linker-made __start_/__stop_ symbol for a custom
 * section or the first symbol that referred to the name.
 */
module Canonicalise {
  import opened Wrappers
  import opened LinkTypes
  import opened SymbolSelection
  import opened SymbolDatabase

  /** A reference that found no definition during symbol resolution. */
  datatype UndefinedSymbol = UndefinedSymbol(
    /** The archive member that would define the name; when it got loaded, the record is moot. */
    ignoreIfLoaded: Option<FileId>,
    name: Name,
    symbolId: SymbolId)

  /** How a linker-made start/stop symbol gets its value. */
  datatype InternalSymDefInfo = SectionStart(section: OutputSectionId) | SectionEnd(section: OutputSectionId)

  /** "__start_" */
  const START_PREFIX: Name := [95, 95, 115, 116, 97, 114, 116, 95]
  /** "__stop_" */
  const STOP_PREFIX: Name := [95, 95, 115, 116, 111, 112, 95]

  /**
   * The definition a start/stop name stands for: "__start_" or "__stop_" followed by the name of a
   * custom output section; None for any other name.
   */
  function StartStopDef(name: Name, customNameToId: map<Name, OutputSectionId>): (r: Option<InternalSymDefInfo>)
    ensures r.Some? && r.value.SectionStart? ==>
              StartsWith(name, START_PREFIX) && name[|START_PREFIX|..] in customNameToId
              && customNameToId[name[|START_PREFIX|..]] == r.value.section
    ensures r.Some? && r.value.SectionEnd? ==>
              StartsWith(name, STOP_PREFIX) && name[|STOP_PREFIX|..] in customNameToId
              && customNameToId[name[|STOP_PREFIX|..]] == r.value.section
    ensures !StartsWith(name, START_PREFIX) && !StartsWith(name, STOP_PREFIX) ==> r.None?
  {
    if StartsWith(name, START_PREFIX) then
      var section := name[|START_PREFIX|..];
      if section in customNameToId then Some(SectionStart(customNameToId[section])) else None
    else if StartsWith(name, STOP_PREFIX) then
      var section := name[|STOP_PREFIX|..];
      if section in customNameToId then Some(SectionEnd(customNameToId[section])) else None
    else None
  }

  /** "__start_" followed by a section name refers to the start of exactly that section. */
  lemma StartStopDefStart(section: Name, customNameToId: map<Name, OutputSectionId>)
    ensures StartStopDef(START_PREFIX + section, customNameToId)
            == if section in customNameToId then Some(SectionStart(customNameToId[section])) else None
  {
    var name := START_PREFIX + section;
    assert name[..|START_PREFIX|] == START_PREFIX;
    assert name[|START_PREFIX|..] == section;
  }

  /** "__stop_" followed by a section name refers to the end of exactly that section. */
  lemma StartStopDefStop(section: Name, customNameToId: map<Name, OutputSectionId>)
    ensures StartStopDef(STOP_PREFIX + section, customNameToId)
            == if section in customNameToId then Some(SectionEnd(customNameToId[section])) else None
  {
    var name := STOP_PREFIX + section;
    assert name[4] != START_PREFIX[4];
    assert name[..|STOP_PREFIX|] == STOP_PREFIX;
    assert name[|STOP_PREFIX|..] == section;
  }

  /**
   * allocate_start_stop_symbol_id: for a start/stop name of a custom section, adds a symbol for it
   * and records how its value is found; otherwise changes nothing.
   */
  method AllocateStartStopSymbolId(db: SymbolDb, name: Name, customNameToId: map<Name, OutputSectionId>,
                                   defs: seq<InternalSymDefInfo>)
    returns (id: Option<SymbolId>, defsOut: seq<InternalSymDefInfo>)
    requires db.Valid()
    modifies db
    ensures db.Valid()
    ensures StartStopDef(name, customNameToId).None? ==>
              id.None? && defsOut == defs && db.symbols == old(db.symbols) && db.definitions == old(db.definitions)
    ensures StartStopDef(name, customNameToId).Some? ==>
              && id == Some(|old(db.symbols)|)
              && defsOut == defs + [StartStopDef(name, customNameToId).value]
              && db.symbols == old(db.symbols) + [SymbolInfo(name, db.syntheticFile, None, 0)]
              && db.definitions == old(db.definitions) + [|old(db.symbols)|]
    ensures db.alternativeDefinitions == old(db.alternativeDefinitions)
    ensures db.symbolsWithAlternatives == old(db.symbolsWithAlternatives)
  {
    var isStart: bool;
    var sectionName: Name;
    if StartsWith(name, START_PREFIX) {
      sectionName, isStart := name[|START_PREFIX|..], true;
    } else if StartsWith(name, STOP_PREFIX) {
      sectionName, isStart := name[|STOP_PREFIX|..], false;
    } else {
      return None, defs;
    }
    if sectionName !in customNameToId {
      return None, defs;
    }
    var sectionId := customNameToId[sectionName];
    var symbolId := db.AddStartStopSymbol(name);
    var defInfo := if isStart then SectionStart(sectionId) else SectionEnd(sectionId);
    return Some(symbolId), defs + [defInfo];
  }

  // ---------------------------------------------------------------------------------------------
  // Ordering the records

  predicate SortedById(s: seq<UndefinedSymbol>) {
    forall i, j :: 0 <= i < j < |s| ==> s[i].symbolId <= s[j].symbolId
  }

  predicate StrictlySortedById(s: seq<UndefinedSymbol>) {
    forall i, j :: 0 <= i < j < |s| ==> s[i].symbolId < s[j].symbolId
  }

  predicate DistinctIds(s: seq<UndefinedSymbol>) {
    forall i, j :: 0 <= i < j < |s| ==> s[i].symbolId != s[j].symbolId
  }

  /** Inserts `u` before the first record whose id is not smaller. */
  function InsertById(u: UndefinedSymbol, s: seq<UndefinedSymbol>): (r: seq<UndefinedSymbol>)
    requires SortedById(s)
    ensures SortedById(r)
    ensures multiset(r) == multiset(s) + multiset{u}
    ensures forall k :: 0 <= k < |r| ==> r[k] == u || r[k] in s
  {
    if s == [] || u.symbolId <= s[0].symbolId then
      SortedCons(u, s);
      [u] + s
    else
      var rest := InsertById(u, s[1..]);
      InsertBehind(u, s, rest);
      [s[0]] + rest
  }

  /** The recursive case of InsertById: `u` goes behind the first record. */
  lemma InsertBehind(u: UndefinedSymbol, s: seq<UndefinedSymbol>, rest: seq<UndefinedSymbol>)
    requires SortedById(s) && s != [] && s[0].symbolId < u.symbolId
    requires SortedById(rest) && multiset(rest) == multiset(s[1..]) + multiset{u}
    requires forall k :: 0 <= k < |rest| ==> rest[k] == u || rest[k] in s[1..]
    ensures SortedById([s[0]] + rest)
    ensures multiset([s[0]] + rest) == multiset(s) + multiset{u}
    ensures forall k :: 0 <= k < |[s[0]] + rest| ==> ([s[0]] + rest)[k] == u || ([s[0]] + rest)[k] in s
  {
    assert s == [s[0]] + s[1..];
    forall k | 0 <= k < |rest|
      ensures s[0].symbolId <= rest[k].symbolId
    {
      if rest[k] != u {
        var j :| 0 <= j < |s[1..]| && s[1..][j] == rest[k];
        assert s[j + 1] == rest[k];
      }
    }
    SortedCons(s[0], rest);
    forall k | 0 <= k < |[s[0]] + rest|
      ensures ([s[0]] + rest)[k] == u || ([s[0]] + rest)[k] in s
    {
      if k > 0 && rest[k - 1] != u {
        var j :| 0 <= j < |s[1..]| && s[1..][j] == rest[k - 1];
        assert s[j + 1] == rest[k - 1];
      }
    }
  }

  lemma SortedCons(x: UndefinedSymbol, s: seq<UndefinedSymbol>)
    requires SortedById(s) && forall k :: 0 <= k < |s| ==> x.symbolId <= s[k].symbolId
    ensures SortedById([x] + s)
  {
    var r := [x] + s;
    forall i, j | 0 <= i < j < |r|
      ensures r[i].symbolId <= r[j].symbolId
    {
      assert r[j] == s[j - 1];
      if i > 0 {
        assert r[i] == s[i - 1];
      }
    }
  }

  /** The records in order of symbol id, like the stable sort by key of the linker. */
  function SortById(s: seq<UndefinedSymbol>): (r: seq<UndefinedSymbol>)
    ensures SortedById(r)
    ensures multiset(r) == multiset(s)
    ensures |r| == |s| && forall k :: 0 <= k < |r| ==> r[k] in s
  {
    if s == [] then []
    else
      assert s == [s[0]] + s[1..];
      var r := InsertById(s[0], SortById(s[1..]));
      assert |multiset(r)| == |multiset(s)|;
      forall k | 0 <= k < |r|
        ensures r[k] in s
      {
        assert r[k] in multiset(r);
      }
      r
  }

  lemma StrictCons(x: UndefinedSymbol, s: seq<UndefinedSymbol>)
    requires StrictlySortedById(s) && forall k :: 0 <= k < |s| ==> x.symbolId < s[k].symbolId
    ensures StrictlySortedById([x] + s)
  {
    var r := [x] + s;
    forall i, j | 0 <= i < j < |r|
      ensures r[i].symbolId < r[j].symbolId
    {
      assert r[j] == s[j - 1];
      if i > 0 {
        assert r[i] == s[i - 1];
      }
    }
  }

  /** Inserting an id not yet present into a strictly ordered sequence keeps it strictly ordered. */
  lemma {:induction false} InsertByIdStrict(u: UndefinedSymbol, s: seq<UndefinedSymbol>)
    requires StrictlySortedById(s) && forall k :: 0 <= k < |s| ==> s[k].symbolId != u.symbolId
    ensures StrictlySortedById(InsertById(u, s))
  {
    if s != [] && u.symbolId > s[0].symbolId {
      InsertByIdStrict(u, s[1..]);
      var rest := InsertById(u, s[1..]);
      assert InsertById(u, s) == [s[0]] + rest;
      forall k | 0 <= k < |rest|
        ensures s[0].symbolId < rest[k].symbolId
      {
        if rest[k] != u {
          var j :| 0 <= j < |s[1..]| && s[1..][j] == rest[k];
          assert s[j + 1] == rest[k];
        }
      }
      StrictCons(s[0], rest);
    } else {
      assert InsertById(u, s) == [u] + s;
      StrictCons(u, s);
    }
  }

  /** When no two records share a symbol, sorting orders them strictly. */
  lemma {:induction false} SortByIdStrict(s: seq<UndefinedSymbol>)
    requires DistinctIds(s)
    ensures StrictlySortedById(SortById(s))
  {
    if s != [] {
      DistinctTail(s);
      SortByIdStrict(s[1..]);
      var rest := SortById(s[1..]);
      forall k | 0 <= k < |rest|
        ensures rest[k].symbolId != s[0].symbolId
      {
        var j :| 0 <= j < |s[1..]| && s[1..][j] == rest[k];
        assert s[j + 1] == rest[k];
      }
      InsertByIdStrict(s[0], rest);
      assert SortById(s) == InsertById(s[0], rest);
    }
  }

  lemma DistinctTail(s: seq<UndefinedSymbol>)
    requires DistinctIds(s) && s != []
    ensures DistinctIds(s[1..])
  {
    forall i, j | 0 <= i < j < |s[1..]|
      ensures s[1..][i].symbolId != s[1..][j].symbolId
    {
      assert s[1..][i] == s[i + 1] && s[1..][j] == s[j + 1];
    }
  }

  // ---------------------------------------------------------------------------------------------
  // The canonicalisation pass, as a function of the state it changes

  /** What the pass consults: which files were loaded, the custom sections by name, the linker's own file. */
  datatype Context = Context(resolved: seq<ResolvedFile>, customNameToId: map<Name, OutputSectionId>, syntheticFile: FileId)

  /** The symbol information, the definitions, the canonical id of each name and the start/stop values. */
  datatype CanonState = CanonState(
    symbols: seq<SymbolInfo>,
    definitions: seq<SymbolId>,
    nameToId: map<Name, SymbolId>,
    defs: seq<InternalSymDefInfo>)

  predicate StateOk(st: CanonState) {
    && |st.definitions| == |st.symbols|
    && (forall x :: 0 <= x < |st.definitions| ==> st.definitions[x] < |st.symbols|)
    && (forall name :: name in st.nameToId ==> st.nameToId[name] < |st.symbols|)
  }

  /** Every record that names a file names an existing one. */
  predicate FilesFit(us: seq<UndefinedSymbol>, ctx: Context) {
    forall k :: 0 <= k < |us| ==> us[k].ignoreIfLoaded.Some? ==> us[k].ignoreIfLoaded.value < |ctx.resolved|
  }

  /** Every record names one of the first `count` symbols and fits the files. */
  predicate RecordsFit(us: seq<UndefinedSymbol>, ctx: Context, count: nat) {
    FilesFit(us, ctx) && forall k :: 0 <= k < |us| ==> us[k].symbolId < count
  }

  /** A record still stands unless the archive member that would define its name was loaded. */
  predicate Live(u: UndefinedSymbol, ctx: Context)
    requires u.ignoreIfLoaded.Some? ==> u.ignoreIfLoaded.value < |ctx.resolved|
  {
    !(u.ignoreIfLoaded.Some? && !ctx.resolved[u.ignoreIfLoaded.value].NotLoaded?)
  }

  /** One iteration of canonicalise_undefined_symbols. */
  function CanonStep(st: CanonState, u: UndefinedSymbol, ctx: Context): (r: CanonState)
    requires StateOk(st) && u.symbolId < |st.symbols|
    requires u.ignoreIfLoaded.Some? ==> u.ignoreIfLoaded.value < |ctx.resolved|
    ensures StateOk(r) && |st.symbols| <= |r.symbols|
  {
    if !Live(u, ctx) then st
    else if u.name in st.nameToId then
      st.(definitions := st.definitions[u.symbolId := st.nameToId[u.name]])
    else
      match StartStopDef(u.name, ctx.customNameToId)
      case Some(def) =>
        var id := |st.symbols|;
        CanonState(st.symbols + [SymbolInfo(u.name, ctx.syntheticFile, None, 0)],
                   (st.definitions + [id])[u.symbolId := id],
                   st.nameToId[u.name := id],
                   st.defs + [def])
      case None =>
        st.(definitions := st.definitions[u.symbolId := u.symbolId], nameToId := st.nameToId[u.name := u.symbolId])
  }

  /** The state after the first `n` records. */
  function CanonAll(st0: CanonState, us: seq<UndefinedSymbol>, ctx: Context, n: nat): (r: CanonState)
    requires StateOk(st0) && RecordsFit(us, ctx, |st0.symbols|) && n <= |us|
    ensures StateOk(r) && |st0.symbols| <= |r.symbols|
  {
    if n == 0 then st0 else CanonStep(CanonAll(st0, us, ctx, n - 1), us[n - 1], ctx)
  }

  /** The index of the first live record among `us[..n]` with the given name. */
  function FirstLive(us: seq<UndefinedSymbol>, name: Name, ctx: Context, n: nat): (r: Option<nat>)
    requires FilesFit(us, ctx) && n <= |us|
    ensures r.Some? ==> r.value < n && Live(us[r.value], ctx) && us[r.value].name == name
    ensures r.Some? ==> forall i :: 0 <= i < r.value ==> !(Live(us[i], ctx) && us[i].name == name)
    ensures r.None? ==> forall i :: 0 <= i < n ==> !(Live(us[i], ctx) && us[i].name == name)
  {
    if n == 0 then None
    else if FirstLive(us, name, ctx, n - 1).Some? then FirstLive(us, name, ctx, n - 1)
    else if Live(us[n - 1], ctx) && us[n - 1].name == name then Some(n - 1)
    else None
  }

  /** What the pass has added to `st0` in `r`: see CanonAllAddsStartStopSymbols. */
  ghost predicate AddsStartStop(st0: CanonState, r: CanonState, ctx: Context) {
    && |st0.symbols| <= |r.symbols| <= |r.definitions|
    && (forall x :: 0 <= x < |st0.symbols| ==> r.symbols[x] == st0.symbols[x])
    && |r.defs| == |st0.defs| + (|r.symbols| - |st0.symbols|)
    && (forall k :: 0 <= k < |st0.defs| ==> r.defs[k] == st0.defs[k])
    && (forall x :: |st0.symbols| <= x < |r.symbols| ==>
          && r.definitions[x] == x
          && r.symbols[x] == SymbolInfo(r.symbols[x].name, ctx.syntheticFile, None, 0)
          && StartStopDef(r.symbols[x].name, ctx.customNameToId) == Some(r.defs[|st0.defs| + x - |st0.symbols|]))
  }

  /** One record keeps AddsStartStop. */
  lemma AddsStartStopStep(st0: CanonState, st: CanonState, u: UndefinedSymbol, ctx: Context)
    requires StateOk(st) && u.symbolId < |st0.symbols|
    requires u.ignoreIfLoaded.Some? ==> u.ignoreIfLoaded.value < |ctx.resolved|
    requires AddsStartStop(st0, st, ctx)
    ensures AddsStartStop(st0, CanonStep(st, u, ctx), ctx)
  {
    if Live(u, ctx) && u.name !in st.nameToId && StartStopDef(u.name, ctx.customNameToId).Some? {
      var def := StartStopDef(u.name, ctx.customNameToId).value;
      var id := |st.symbols|;
      assert CanonStep(st, u, ctx) == CanonState(st.symbols + [SymbolInfo(u.name, ctx.syntheticFile, None, 0)],
        (st.definitions + [id])[u.symbolId := id], st.nameToId[u.name := id], st.defs + [def]);
      AddsOneSymbol(st0, st, u.symbolId, SymbolInfo(u.name, ctx.syntheticFile, None, 0), st.nameToId[u.name := id], def, ctx);
    } else if Live(u, ctx) {
      var r := CanonStep(st, u, ctx);
      assert r.symbols == st.symbols && r.defs == st.defs;
      assert forall x :: |st0.symbols| <= x < |r.symbols| ==> r.definitions[x] == st.definitions[x];
    }
  }

  /** Adding a self-defining start/stop symbol behind the others keeps AddsStartStop. */
  lemma AddsOneSymbol(st0: CanonState, st: CanonState, y: SymbolId, info: SymbolInfo,
                      nameToId: map<Name, SymbolId>, def: InternalSymDefInfo, ctx: Context)
    requires StateOk(st) && y < |st0.symbols| && AddsStartStop(st0, st, ctx)
    requires info == SymbolInfo(info.name, ctx.syntheticFile, None, 0)
    requires StartStopDef(info.name, ctx.customNameToId) == Some(def)
    ensures AddsStartStop(st0, CanonState(st.symbols + [info], (st.definitions + [|st.symbols|])[y := |st.symbols|],
                                          nameToId, st.defs + [def]), ctx)
  {
    var id := |st.symbols|;
    var r := CanonState(st.symbols + [info], (st.definitions + [id])[y := id], nameToId, st.defs + [def]);
    forall x | |st0.symbols| <= x < |r.symbols|
      ensures && r.definitions[x] == x
              && r.symbols[x] == SymbolInfo(r.symbols[x].name, ctx.syntheticFile, None, 0)
              && StartStopDef(r.symbols[x].name, ctx.customNameToId) == Some(r.defs[|st0.defs| + x - |st0.symbols|])
    {
      if x < id {
        assert r.symbols[x] == st.symbols[x] && r.definitions[x] == st.definitions[x];
        assert r.defs[|st0.defs| + x - |st0.symbols|] == st.defs[|st0.defs| + x - |st0.symbols|];
      }
    }
  }

  /**
   * What the pass adds: the old symbols stay, every added symbol is a start/stop symbol owned by
   * the linker that defines itself, and the value recorded for it is the start or end of the
   * section its name refers to.
   */
  lemma {:induction false} CanonAllAddsStartStopSymbols(st0: CanonState, us: seq<UndefinedSymbol>, ctx: Context, n: nat)
    requires StateOk(st0) && RecordsFit(us, ctx, |st0.symbols|) && n <= |us|
    ensures var r := CanonAll(st0, us, ctx, n);
            && (forall x :: 0 <= x < |st0.symbols| ==> r.symbols[x] == st0.symbols[x])
            && |r.defs| == |st0.defs| + (|r.symbols| - |st0.symbols|)
            && (forall k :: 0 <= k < |st0.defs| ==> r.defs[k] == st0.defs[k])
            && (forall x :: |st0.symbols| <= x < |r.symbols| ==>
                  && r.definitions[x] == x
                  && r.symbols[x] == SymbolInfo(r.symbols[x].name, ctx.syntheticFile, None, 0)
                  && StartStopDef(r.symbols[x].name, ctx.customNameToId) == Some(r.defs[|st0.defs| + x - |st0.symbols|]))
  {
    AddsStartStopInduct(st0, us, ctx, n);
  }

  lemma {:induction false} AddsStartStopInduct(st0: CanonState, us: seq<UndefinedSymbol>, ctx: Context, n: nat)
    requires StateOk(st0) && RecordsFit(us, ctx, |st0.symbols|) && n <= |us|
    ensures AddsStartStop(st0, CanonAll(st0, us, ctx, n), ctx)
  {
    if n > 0 {
      AddsStartStopInduct(st0, us, ctx, n - 1);
      AddsStartStopStep(st0, CanonAll(st0, us, ctx, n - 1), us[n - 1], ctx);
    }
  }

  /** The canonical ids after `n` records: see CanonAllNames. */
  ghost predicate NamesAfter(st0: CanonState, us: seq<UndefinedSymbol>, ctx: Context, n: nat, r: CanonState)
    requires FilesFit(us, ctx) && n <= |us|
  {
    && (forall name :: name in r.nameToId <==> FirstLive(us, name, ctx, n).Some?)
    && (forall name :: name in r.nameToId && StartStopDef(name, ctx.customNameToId).None? ==>
          r.nameToId[name] == us[FirstLive(us, name, ctx, n).value].symbolId)
    && (forall name :: name in r.nameToId && StartStopDef(name, ctx.customNameToId).Some? ==>
          |st0.symbols| <= r.nameToId[name] < |r.symbols| && r.symbols[r.nameToId[name]].name == name)
  }

  /** A record that is not live, or has another name, does not change where a name is first met. */
  lemma FirstLiveSkips(us: seq<UndefinedSymbol>, ctx: Context, n: nat)
    requires FilesFit(us, ctx) && 0 < n <= |us|
    ensures forall name :: name != us[n - 1].name || !Live(us[n - 1], ctx) ==>
              FirstLive(us, name, ctx, n) == FirstLive(us, name, ctx, n - 1)
  {
  }

  lemma NamesStep(st0: CanonState, us: seq<UndefinedSymbol>, ctx: Context, n: nat, prev: CanonState)
    requires StateOk(st0) && RecordsFit(us, ctx, |st0.symbols|) && 0 < n <= |us|
    requires StateOk(prev) && |st0.symbols| <= |prev.symbols|
    requires NamesAfter(st0, us, ctx, n - 1, prev)
    ensures NamesAfter(st0, us, ctx, n, CanonStep(prev, us[n - 1], ctx))
  {
    var u := us[n - 1];
    var r := CanonStep(prev, u, ctx);
    FirstLiveSkips(us, ctx, n);
    if !Live(u, ctx) {
      assert r == prev;
    } else if u.name in prev.nameToId {
      NamesStepKnown(st0, us, ctx, n, prev);
    } else {
      NamesStepClaim(st0, us, ctx, n, prev);
    }
  }

  /** The step in which a live record meets a name that already has its canonical id. */
  lemma NamesStepKnown(st0: CanonState, us: seq<UndefinedSymbol>, ctx: Context, n: nat, prev: CanonState)
    requires StateOk(st0) && RecordsFit(us, ctx, |st0.symbols|) && 0 < n <= |us|
    requires StateOk(prev) && |st0.symbols| <= |prev.symbols|
    requires NamesAfter(st0, us, ctx, n - 1, prev)
    requires Live(us[n - 1], ctx) && us[n - 1].name in prev.nameToId
    requires forall name :: name != us[n - 1].name ==> FirstLive(us, name, ctx, n) == FirstLive(us, name, ctx, n - 1)
    ensures NamesAfter(st0, us, ctx, n, CanonStep(prev, us[n - 1], ctx))
  {
    var u := us[n - 1];
    var r := CanonStep(prev, u, ctx);
    assert r.nameToId == prev.nameToId && r.symbols == prev.symbols;
    assert FirstLive(us, u.name, ctx, n - 1).Some?;
    assert FirstLive(us, u.name, ctx, n) == FirstLive(us, u.name, ctx, n - 1);
    assert forall name :: FirstLive(us, name, ctx, n) == FirstLive(us, name, ctx, n - 1);
  }

  /** The step in which the first live record of a name claims it. */
  lemma NamesStepClaim(st0: CanonState, us: seq<UndefinedSymbol>, ctx: Context, n: nat, prev: CanonState)
    requires StateOk(st0) && RecordsFit(us, ctx, |st0.symbols|) && 0 < n <= |us|
    requires StateOk(prev) && |st0.symbols| <= |prev.symbols|
    requires NamesAfter(st0, us, ctx, n - 1, prev)
    requires Live(us[n - 1], ctx) && us[n - 1].name !in prev.nameToId
    ensures NamesAfter(st0, us, ctx, n, CanonStep(prev, us[n - 1], ctx))
  {
    var u := us[n - 1];
    FirstLiveSkips(us, ctx, n);
    assert FirstLive(us, u.name, ctx, n) == Some(n - 1);
    if StartStopDef(u.name, ctx.customNameToId).Some? {
      NamesStepStartStop(st0, us, ctx, n, prev);
    } else {
      NamesStepPlain(st0, us, ctx, n, prev);
    }
  }

  /** The step in which any other name claims the symbol of its first live record. */
  lemma NamesStepPlain(st0: CanonState, us: seq<UndefinedSymbol>, ctx: Context, n: nat, prev: CanonState)
    requires StateOk(st0) && RecordsFit(us, ctx, |st0.symbols|) && 0 < n <= |us|
    requires StateOk(prev) && |st0.symbols| <= |prev.symbols|
    requires NamesAfter(st0, us, ctx, n - 1, prev)
    requires Live(us[n - 1], ctx) && us[n - 1].name !in prev.nameToId
    requires StartStopDef(us[n - 1].name, ctx.customNameToId).None?
    requires forall name :: name != us[n - 1].name ==> FirstLive(us, name, ctx, n) == FirstLive(us, name, ctx, n - 1)
    requires FirstLive(us, us[n - 1].name, ctx, n) == Some(n - 1)
    ensures NamesAfter(st0, us, ctx, n, CanonStep(prev, us[n - 1], ctx))
  {
    var u := us[n - 1];
    var r := CanonStep(prev, u, ctx);
    assert r.nameToId == prev.nameToId[u.name := u.symbolId] && r.symbols == prev.symbols;
    forall name
      ensures name in r.nameToId <==> FirstLive(us, name, ctx, n).Some?
    {
      if name != u.name {
        assert FirstLive(us, name, ctx, n) == FirstLive(us, name, ctx, n - 1);
      }
    }
    forall name | name in r.nameToId && StartStopDef(name, ctx.customNameToId).None?
      ensures r.nameToId[name] == us[FirstLive(us, name, ctx, n).value].symbolId
    {
      if name != u.name {
        assert FirstLive(us, name, ctx, n) == FirstLive(us, name, ctx, n - 1);
      }
    }
    forall name | name in r.nameToId && StartStopDef(name, ctx.customNameToId).Some?
      ensures |st0.symbols| <= r.nameToId[name] < |r.symbols| && r.symbols[r.nameToId[name]].name == name
    {
      assert name in prev.nameToId;
    }
  }

  /** The step in which a start/stop name claims a newly added symbol. */
  lemma NamesStepStartStop(st0: CanonState, us: seq<UndefinedSymbol>, ctx: Context, n: nat, prev: CanonState)
    requires StateOk(st0) && RecordsFit(us, ctx, |st0.symbols|) && 0 < n <= |us|
    requires StateOk(prev) && |st0.symbols| <= |prev.symbols|
    requires NamesAfter(st0, us, ctx, n - 1, prev)
    requires Live(us[n - 1], ctx) && us[n - 1].name !in prev.nameToId
    requires StartStopDef(us[n - 1].name, ctx.customNameToId).Some?
    requires forall name :: name != us[n - 1].name ==> FirstLive(us, name, ctx, n) == FirstLive(us, name, ctx, n - 1)
    requires FirstLive(us, us[n - 1].name, ctx, n) == Some(n - 1)
    ensures NamesAfter(st0, us, ctx, n, CanonStep(prev, us[n - 1], ctx))
  {
    var u := us[n - 1];
    var r := CanonStep(prev, u, ctx);
    assert r.nameToId == prev.nameToId[u.name := |prev.symbols|];
    assert r.symbols == prev.symbols + [SymbolInfo(u.name, ctx.syntheticFile, None, 0)];
    forall name | name in r.nameToId && StartStopDef(name, ctx.customNameToId).Some?
      ensures |st0.symbols| <= r.nameToId[name] < |r.symbols| && r.symbols[r.nameToId[name]].name == name
    {
      if name != u.name {
        assert r.symbols[prev.nameToId[name]] == prev.symbols[prev.nameToId[name]];
      }
    }
  }

  lemma {:induction false} NamesInduct(st0: CanonState, us: seq<UndefinedSymbol>, ctx: Context, n: nat)
    requires StateOk(st0) && RecordsFit(us, ctx, |st0.symbols|) && n <= |us| && st0.nameToId == map[]
    ensures NamesAfter(st0, us, ctx, n, CanonAll(st0, us, ctx, n))
  {
    if n > 0 {
      NamesInduct(st0, us, ctx, n - 1);
      NamesStep(st0, us, ctx, n, CanonAll(st0, us, ctx, n - 1));
    }
  }

  /**
   * Which names get a canonical id and which: the first live record of a name claims it; a
   * start/stop name of a custom section gets a newly added symbol of that name, any other name
   * the symbol of that first record, which on sorted records has the smallest id.
   */
  lemma CanonAllNames(st0: CanonState, us: seq<UndefinedSymbol>, ctx: Context, n: nat)
    requires StateOk(st0) && RecordsFit(us, ctx, |st0.symbols|) && n <= |us|
    requires st0.nameToId == map[] && SortedById(us)
    ensures var r := CanonAll(st0, us, ctx, n);
            && (forall name :: name in r.nameToId <==> FirstLive(us, name, ctx, n).Some?)
            && (forall name :: name in r.nameToId && StartStopDef(name, ctx.customNameToId).None? ==>
                  r.nameToId[name] == us[FirstLive(us, name, ctx, n).value].symbolId)
            && (forall name :: name in r.nameToId && StartStopDef(name, ctx.customNameToId).Some? ==>
                  |st0.symbols| <= r.nameToId[name] < |r.symbols| && r.symbols[r.nameToId[name]].name == name)
            && (forall i :: 0 <= i < n && Live(us[i], ctx) && StartStopDef(us[i].name, ctx.customNameToId).None? ==>
                  r.nameToId[us[i].name] <= us[i].symbolId)
  {
    NamesInduct(st0, us, ctx, n);
    forall i | 0 <= i < n && Live(us[i], ctx)
      ensures FirstLive(us, us[i].name, ctx, n).Some?
      ensures us[FirstLive(us, us[i].name, ctx, n).value].symbolId <= us[i].symbolId
    {
      FirstLiveSmallest(us, ctx, n, i);
    }
  }

  /** On sorted records, the first live record of a name has the smallest id among the live ones. */
  lemma FirstLiveSmallest(us: seq<UndefinedSymbol>, ctx: Context, n: nat, i: nat)
    requires FilesFit(us, ctx) && n <= |us| && SortedById(us) && i < n && Live(us[i], ctx)
    ensures FirstLive(us, us[i].name, ctx, n).Some?
    ensures us[FirstLive(us, us[i].name, ctx, n).value].symbolId <= us[i].symbolId
  {
    var j := FirstLive(us, us[i].name, ctx, n).value;
    assert j <= i;
  }

  /** Every live record among the first `n` points at the canonical id of its name: see CanonAllDefinitions. */
  ghost predicate ClaimedAfter(us: seq<UndefinedSymbol>, ctx: Context, n: nat, r: CanonState)
    requires FilesFit(us, ctx) && n <= |us|
  {
    forall i :: 0 <= i < n && Live(us[i], ctx) ==>
      us[i].symbolId < |r.definitions| && us[i].name in r.nameToId && r.definitions[us[i].symbolId] == r.nameToId[us[i].name]
  }

  /** Every symbol that no live record among the first `n` names keeps its definition. */
  ghost predicate KeptAfter(st0: CanonState, us: seq<UndefinedSymbol>, ctx: Context, n: nat, r: CanonState)
    requires FilesFit(us, ctx) && n <= |us| && |st0.definitions| <= |r.definitions|
  {
    forall x :: 0 <= x < |st0.definitions| && (forall i :: 0 <= i < n && Live(us[i], ctx) ==> us[i].symbolId != x) ==>
      r.definitions[x] == st0.definitions[x]
  }

  lemma ClaimedStep(us: seq<UndefinedSymbol>, ctx: Context, n: nat, prev: CanonState)
    requires FilesFit(us, ctx) && 0 < n <= |us| && StrictlySortedById(us)
    requires StateOk(prev) && us[n - 1].symbolId < |prev.symbols|
    requires ClaimedAfter(us, ctx, n - 1, prev)
    ensures ClaimedAfter(us, ctx, n, CanonStep(prev, us[n - 1], ctx))
  {
    var u := us[n - 1];
    var r := CanonStep(prev, u, ctx);
    assert Live(u, ctx) ==> u.name in r.nameToId && r.definitions[u.symbolId] == r.nameToId[u.name];
    forall i | 0 <= i < n - 1 && Live(us[i], ctx)
      ensures us[i].symbolId < |r.definitions| && us[i].name in r.nameToId && r.definitions[us[i].symbolId] == r.nameToId[us[i].name]
    {
      assert us[i].symbolId < u.symbolId;
      assert us[i].name in prev.nameToId;
      assert r.nameToId[us[i].name] == prev.nameToId[us[i].name];
    }
  }

  lemma KeptStep(st0: CanonState, us: seq<UndefinedSymbol>, ctx: Context, n: nat, prev: CanonState)
    requires FilesFit(us, ctx) && 0 < n <= |us|
    requires StateOk(prev) && us[n - 1].symbolId < |prev.symbols| && |st0.definitions| <= |prev.definitions|
    requires KeptAfter(st0, us, ctx, n - 1, prev)
    ensures KeptAfter(st0, us, ctx, n, CanonStep(prev, us[n - 1], ctx))
  {
    var u := us[n - 1];
    var r := CanonStep(prev, u, ctx);
    forall x | 0 <= x < |st0.definitions| && (forall i :: 0 <= i < n && Live(us[i], ctx) ==> us[i].symbolId != x)
      ensures r.definitions[x] == st0.definitions[x]
    {
      assert forall i :: 0 <= i < n - 1 && Live(us[i], ctx) ==> us[i].symbolId != x;
      assert prev.definitions[x] == st0.definitions[x];
      assert Live(u, ctx) ==> u.symbolId != x;
    }
  }

  lemma {:induction false} DefinitionsInduct(st0: CanonState, us: seq<UndefinedSymbol>, ctx: Context, n: nat)
    requires StateOk(st0) && RecordsFit(us, ctx, |st0.symbols|) && n <= |us| && StrictlySortedById(us)
    ensures ClaimedAfter(us, ctx, n, CanonAll(st0, us, ctx, n))
    ensures KeptAfter(st0, us, ctx, n, CanonAll(st0, us, ctx, n))
  {
    if n > 0 {
      DefinitionsInduct(st0, us, ctx, n - 1);
      var prev := CanonAll(st0, us, ctx, n - 1);
      ClaimedStep(us, ctx, n, prev);
      KeptStep(st0, us, ctx, n, prev);
    }
  }

  /**
   * Where each symbol's definition ends up: every symbol of a live record is defined by the
   * canonical id of its name, and every symbol that no live record names keeps its definition.
   * The records must have distinct ids. Resolution gives them that: an object leaves at most
   * one record per symbol (SymbolResolver.RecordsAreReferences), objects own disjoint ranges of
   * symbol ids, and no file is loaded twice; SortByIdStrict then makes the sorted order strict.
   */
  lemma CanonAllDefinitions(st0: CanonState, us: seq<UndefinedSymbol>, ctx: Context, n: nat)
    requires StateOk(st0) && RecordsFit(us, ctx, |st0.symbols|) && n <= |us| && StrictlySortedById(us)
    ensures var r := CanonAll(st0, us, ctx, n);
            && (forall i :: 0 <= i < n && Live(us[i], ctx) ==>
                  us[i].name in r.nameToId && r.definitions[us[i].symbolId] == r.nameToId[us[i].name])
            && (forall x :: 0 <= x < |st0.symbols| && (forall i :: 0 <= i < n && Live(us[i], ctx) ==> us[i].symbolId != x) ==>
                  r.definitions[x] == st0.definitions[x])
  {
    DefinitionsInduct(st0, us, ctx, n);
  }

  /** One iteration of the loop of canonicalise_undefined_symbols. */
  method CanonicaliseOne(db: SymbolDb, undefined: UndefinedSymbol, ctx: Context,
                         nameToId: map<Name, SymbolId>, defs: seq<InternalSymDefInfo>)
    returns (nameToIdOut: map<Name, SymbolId>, defsOut: seq<InternalSymDefInfo>)
    requires db.Valid() && ctx.syntheticFile == db.syntheticFile
    requires StateOk(CanonState(db.symbols, db.definitions, nameToId, defs))
    requires undefined.symbolId < |db.symbols|
    requires undefined.ignoreIfLoaded.Some? ==> undefined.ignoreIfLoaded.value < |ctx.resolved|
    modifies db
    ensures db.Valid()
    ensures CanonState(db.symbols, db.definitions, nameToIdOut, defsOut)
            == CanonStep(CanonState(old(db.symbols), old(db.definitions), nameToId, defs), undefined, ctx)
    ensures db.alternativeDefinitions == old(db.alternativeDefinitions)
    ensures db.symbolsWithAlternatives == old(db.symbolsWithAlternatives)
  {
    nameToIdOut, defsOut := nameToId, defs;
    var isDefined := undefined.ignoreIfLoaded.Some? && !ctx.resolved[undefined.ignoreIfLoaded.value].NotLoaded?;
    if isDefined {
      return;
    }
    if undefined.name !in nameToId {
      var startStopId: Option<SymbolId>;
      startStopId, defsOut := AllocateStartStopSymbolId(db, undefined.name, ctx.customNameToId, defs);
      var symbolId := if startStopId.Some? then startStopId.value else undefined.symbolId;
      nameToIdOut := nameToId[undefined.name := symbolId];
      db.ReplaceDefinition(undefined.symbolId, symbolId);
    } else {
      db.ReplaceDefinition(undefined.symbolId, nameToId[undefined.name]);
    }
  }

  /**
   * canonicalise_undefined_symbols: orders the records by symbol id, then gives each live record's
   * symbol the canonical definition of its name, and returns how the added start/stop symbols get
   * their values.
   */
  method CanonicaliseUndefinedSymbols(db: SymbolDb, undefinedSymbols: seq<UndefinedSymbol>,
                                      resolved: seq<ResolvedFile>, customNameToId: map<Name, OutputSectionId>)
    returns (customStartStopDefs: seq<InternalSymDefInfo>)
    requires db.Valid() && RecordsFit(undefinedSymbols, Context(resolved, customNameToId, db.syntheticFile), |db.symbols|)
    modifies db
    ensures db.Valid()
    ensures var final := CanonAll(CanonState(old(db.symbols), old(db.definitions), map[], []),
                                  SortById(undefinedSymbols), Context(resolved, customNameToId, db.syntheticFile),
                                  |undefinedSymbols|);
            db.symbols == final.symbols && db.definitions == final.definitions && customStartStopDefs == final.defs
    ensures db.alternativeDefinitions == old(db.alternativeDefinitions)
    ensures db.symbolsWithAlternatives == old(db.symbolsWithAlternatives)
  {
    var ctx := Context(resolved, customNameToId, db.syntheticFile);
    ghost var st0 := CanonState(db.symbols, db.definitions, map[], []);
    customStartStopDefs := [];
    var nameToId: map<Name, SymbolId> := map[];
    var sorted := SortById(undefinedSymbols);
    assert RecordsFit(sorted, ctx, |st0.symbols|);
    var i := 0;
    while i < |sorted|
      invariant 0 <= i <= |sorted|
      invariant db.Valid()
      invariant CanonAll(st0, sorted, ctx, i) == CanonState(db.symbols, db.definitions, nameToId, customStartStopDefs)
      invariant db.alternativeDefinitions == old(db.alternativeDefinitions)
      invariant db.symbolsWithAlternatives == old(db.symbolsWithAlternatives)
    {
      nameToId, customStartStopDefs := CanonicaliseOne(db, sorted[i], ctx, nameToId, customStartStopDefs);
      i := i + 1;
    }
  }
}
