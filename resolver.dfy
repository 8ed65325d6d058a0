/**
 * Symbol resolution over the input files: a worklist of object files, each of which resolves its
 * undefined references against the global symbol table and asks for the files that define them,
 * so that archive members are loaded only when something needs them.
 */
module SymbolResolver {
  import opened Wrappers
  import opened LinkTypes
  import opened SymbolSelection
  import opened SectionSlots
  import opened Canonicalise

  /** A symbol of an object's symbol table, as resolution sees it. */
  datatype LocalSymbol = LocalSymbol(name: Name, weak: bool)

  /** A parsed input object; its symbols have global ids `symbolStart + local index`. */
  datatype ParsedObject = ParsedObject(
    optional: bool,   // an archive member, loaded only when one of its symbols is needed
    dynamic: bool,    // a shared object
    symbolStart: SymbolId,
    symbols: seq<LocalSymbol>,
    sections: seq<InputSection>)

  datatype InputFile = PreludeFile | ObjectFile(obj: ParsedObject) | EpilogueFile

  /** The global names and the file that owns each symbol. */
  datatype SymbolTable = SymbolTable(globalNames: map<Name, SymbolId>, symbolFile: seq<FileId>)

  predicate NamesOk(t: SymbolTable) {
    forall name :: name in t.globalNames ==> t.globalNames[name] < |t.symbolFile|
  }

  /** What resolving one symbol does: its new definition, a file it asks for, a record it leaves. */
  datatype SymbolOutcome = SymbolOutcome(definition: SymbolId, request: Option<FileId>, undefined: Option<UndefinedSymbol>)

  /**
   * resolve_symbol for local symbol `index` of object file `fileId`, whose definition currently
   * is `definition`.
   */
  function ResolveSymbol(obj: ParsedObject, fileId: FileId, index: nat, definition: SymbolId, t: SymbolTable): (r: SymbolOutcome)
    requires NamesOk(t) && index < |obj.symbols|
    // symbols already defined, and the null symbol, are left alone
    ensures definition != UNDEFINED_SYMBOL || index == 0 ==> r == SymbolOutcome(definition, None, None)
    // a known name becomes the definition
    ensures definition == UNDEFINED_SYMBOL && index != 0 && obj.symbols[index].name in t.globalNames ==>
              r.definition == t.globalNames[obj.symbols[index].name]
    // a request is for the other file that owns the definition, and only for a strong reference
    ensures r.request.Some? ==>
              && !obj.symbols[index].weak
              && obj.symbols[index].name in t.globalNames
              && r.definition == t.globalNames[obj.symbols[index].name]
              && r.request.value == t.symbolFile[r.definition] != fileId
    // a strong reference to another file's symbol always asks for that file
    ensures definition == UNDEFINED_SYMBOL && index != 0 && obj.symbols[index].name in t.globalNames
            && !obj.symbols[index].weak && t.symbolFile[t.globalNames[obj.symbols[index].name]] != fileId ==>
              r.request == Some(t.symbolFile[t.globalNames[obj.symbols[index].name]])
    // a record names the referencing symbol; it names the defining file unless nothing defines the name
    ensures r.undefined.Some? ==>
              && r.undefined.value.symbolId == obj.symbolStart + index
              && r.undefined.value.name == obj.symbols[index].name
              && (r.undefined.value.ignoreIfLoaded.None? <==> obj.symbols[index].name !in t.globalNames)
              && (r.undefined.value.ignoreIfLoaded.Some? ==>
                    r.undefined.value.ignoreIfLoaded.value == t.symbolFile[t.globalNames[obj.symbols[index].name]] != PRELUDE_FILE_ID)
    ensures !(r.request.Some? && r.undefined.Some?)
    // an unknown name stays undefined, asks for nothing and leaves a record without an owner,
    // whether or not the reference is weak
    ensures definition == UNDEFINED_SYMBOL && index != 0 && obj.symbols[index].name !in t.globalNames ==>
              && r.definition == UNDEFINED_SYMBOL && r.request.None?
              && r.undefined == Some(UndefinedSymbol(None, obj.symbols[index].name, obj.symbolStart + index))
    // a weak or same-file reference to a name owned outside the prelude leaves a record that is
    // ignored once the owner is loaded
    ensures definition == UNDEFINED_SYMBOL && index != 0 && obj.symbols[index].name in t.globalNames
            && (obj.symbols[index].weak || t.symbolFile[t.globalNames[obj.symbols[index].name]] == fileId)
            && t.symbolFile[t.globalNames[obj.symbols[index].name]] != PRELUDE_FILE_ID ==>
              && r.request.None?
              && r.undefined == Some(UndefinedSymbol(Some(t.symbolFile[t.globalNames[obj.symbols[index].name]]),
                                                     obj.symbols[index].name, obj.symbolStart + index))
    // such a reference to a name the prelude owns leaves neither a request nor a record
    ensures definition == UNDEFINED_SYMBOL && index != 0 && obj.symbols[index].name in t.globalNames
            && (obj.symbols[index].weak || t.symbolFile[t.globalNames[obj.symbols[index].name]] == fileId)
            && t.symbolFile[t.globalNames[obj.symbols[index].name]] == PRELUDE_FILE_ID ==>
              r.request.None? && r.undefined.None?
  {
    if definition != UNDEFINED_SYMBOL || index == 0 then SymbolOutcome(definition, None, None)
    else
      var sym := obj.symbols[index];
      var symbolId := obj.symbolStart + index;
      if sym.name in t.globalNames then
        var global := t.globalNames[sym.name];
        var symbolFileId := t.symbolFile[global];
        if symbolFileId != fileId && !sym.weak then SymbolOutcome(global, Some(symbolFileId), None)
        else if symbolFileId != PRELUDE_FILE_ID then
          SymbolOutcome(global, None, Some(UndefinedSymbol(Some(symbolFileId), sym.name, symbolId)))
        else SymbolOutcome(global, None, None)
      else SymbolOutcome(definition, None, Some(UndefinedSymbol(None, sym.name, symbolId)))
  }

  /** Resolving a symbol again, once it has a definition, does nothing. */
  lemma ResolveSymbolSettles(obj: ParsedObject, fileId: FileId, index: nat, definition: SymbolId, t: SymbolTable)
    requires NamesOk(t) && index < |obj.symbols|
    requires ResolveSymbol(obj, fileId, index, definition, t).definition != UNDEFINED_SYMBOL
    ensures var d := ResolveSymbol(obj, fileId, index, definition, t).definition;
            ResolveSymbol(obj, fileId, index, d, t) == SymbolOutcome(d, None, None)
  {
  }

  /** The definitions, requests and records after resolving local symbols `..n` of a file. */
  datatype SymbolsOutcome = SymbolsOutcome(definitions: seq<SymbolId>, requests: seq<FileId>, undefined: seq<UndefinedSymbol>)

  /** resolve_symbols over the first `n` local symbols, given the definitions the file started with. */
  function ResolveSymbolsUpTo(obj: ParsedObject, fileId: FileId, defs: seq<SymbolId>, t: SymbolTable, n: nat): (r: SymbolsOutcome)
    requires NamesOk(t) && |defs| == |obj.symbols| && n <= |defs|
    ensures |r.definitions| == |defs|
    ensures forall k :: n <= k < |defs| ==> r.definitions[k] == defs[k]
  {
    if n == 0 then SymbolsOutcome(defs, [], [])
    else
      var prev := ResolveSymbolsUpTo(obj, fileId, defs, t, n - 1);
      var o := ResolveSymbol(obj, fileId, n - 1, defs[n - 1], t);
      SymbolsOutcome(prev.definitions[n - 1 := o.definition],
                     prev.requests + OptionToSeq(o.request),
                     prev.undefined + OptionToSeq(o.undefined))
  }

  /** Each of the first `n` symbols gets the definition resolving it yields; the rest keep theirs. */
  lemma {:induction false} ResolvedDefinitions(obj: ParsedObject, fileId: FileId, defs: seq<SymbolId>, t: SymbolTable, n: nat)
    requires NamesOk(t) && |defs| == |obj.symbols| && n <= |defs|
    ensures forall k :: 0 <= k < n ==>
              ResolveSymbolsUpTo(obj, fileId, defs, t, n).definitions[k] == ResolveSymbol(obj, fileId, k, defs[k], t).definition
  {
    if n > 0 {
      ResolvedDefinitions(obj, fileId, defs, t, n - 1);
    }
  }

  /** A file asks for exactly the files that its symbols' references ask for. */
  lemma {:induction false} RequestsAreReferences(obj: ParsedObject, fileId: FileId, defs: seq<SymbolId>, t: SymbolTable, n: nat)
    requires NamesOk(t) && |defs| == |obj.symbols| && n <= |defs|
    ensures forall g :: g in ResolveSymbolsUpTo(obj, fileId, defs, t, n).requests <==>
              exists k :: 0 <= k < n && ResolveSymbol(obj, fileId, k, defs[k], t).request == Some(g)
  {
    if n > 0 {
      RequestsAreReferences(obj, fileId, defs, t, n - 1);
      var o := ResolveSymbol(obj, fileId, n - 1, defs[n - 1], t);
      assert ResolveSymbolsUpTo(obj, fileId, defs, t, n).requests
             == ResolveSymbolsUpTo(obj, fileId, defs, t, n - 1).requests + OptionToSeq(o.request);
    }
  }

  /** The records a file leaves are exactly those its symbols leave, in symbol order. */
  lemma RecordsAreReferences(obj: ParsedObject, fileId: FileId, defs: seq<SymbolId>, t: SymbolTable, n: nat)
    requires NamesOk(t) && |defs| == |obj.symbols| && n <= |defs|
    ensures var us := ResolveSymbolsUpTo(obj, fileId, defs, t, n).undefined;
            && |us| <= n
            && (forall i :: 0 <= i < |us| ==> obj.symbolStart <= us[i].symbolId < obj.symbolStart + n)
            && (forall i, j :: 0 <= i < j < |us| ==> us[i].symbolId < us[j].symbolId)
            && (forall k :: 0 <= k < n && ResolveSymbol(obj, fileId, k, defs[k], t).undefined.Some? ==>
                  ResolveSymbol(obj, fileId, k, defs[k], t).undefined.value in us)
            // and nothing else: each record is the one its own symbol leaves
            && (forall i :: 0 <= i < |us| ==>
                  ResolveSymbol(obj, fileId, us[i].symbolId - obj.symbolStart, defs[us[i].symbolId - obj.symbolStart], t).undefined
                  == Some(us[i]))
  {
    RecordsInduct(obj, fileId, defs, t, n);
    RecordsOwnInduct(obj, fileId, defs, t, n);
  }

  /** What RecordsAreReferences states of the records `us` of the first `n` symbols. */
  ghost predicate RecordsUpTo(obj: ParsedObject, fileId: FileId, defs: seq<SymbolId>, t: SymbolTable, n: nat,
                              us: seq<UndefinedSymbol>)
    requires NamesOk(t) && |defs| == |obj.symbols| && n <= |defs|
  {
    && |us| <= n
    && (forall i :: 0 <= i < |us| ==> obj.symbolStart <= us[i].symbolId < obj.symbolStart + n)
    && (forall i, j :: 0 <= i < j < |us| ==> us[i].symbolId < us[j].symbolId)
    && (forall k :: 0 <= k < n && ResolveSymbol(obj, fileId, k, defs[k], t).undefined.Some? ==>
          ResolveSymbol(obj, fileId, k, defs[k], t).undefined.value in us)
  }

  /** Each record of `us` lies among the first `n` symbols and is the one its own symbol leaves. */
  ghost predicate RecordsOwnSymbols(obj: ParsedObject, fileId: FileId, defs: seq<SymbolId>, t: SymbolTable, n: nat,
                                    us: seq<UndefinedSymbol>)
    requires NamesOk(t) && |defs| == |obj.symbols| && n <= |defs|
  {
    forall i :: 0 <= i < |us| ==>
      && obj.symbolStart <= us[i].symbolId < obj.symbolStart + n
      && ResolveSymbol(obj, fileId, us[i].symbolId - obj.symbolStart, defs[us[i].symbolId - obj.symbolStart], t).undefined
         == Some(us[i])
  }

  lemma {:induction false} RecordsOwnInduct(obj: ParsedObject, fileId: FileId, defs: seq<SymbolId>, t: SymbolTable, n: nat)
    requires NamesOk(t) && |defs| == |obj.symbols| && n <= |defs|
    ensures RecordsOwnSymbols(obj, fileId, defs, t, n, ResolveSymbolsUpTo(obj, fileId, defs, t, n).undefined)
  {
    if n > 0 {
      RecordsOwnInduct(obj, fileId, defs, t, n - 1);
      var prev := ResolveSymbolsUpTo(obj, fileId, defs, t, n - 1).undefined;
      RecordsOwnStep(obj, fileId, defs, t, n, prev, ResolveSymbol(obj, fileId, n - 1, defs[n - 1], t).undefined);
    }
  }

  lemma RecordsOwnStep(obj: ParsedObject, fileId: FileId, defs: seq<SymbolId>, t: SymbolTable, n: nat,
                       prev: seq<UndefinedSymbol>, o: Option<UndefinedSymbol>)
    requires NamesOk(t) && |defs| == |obj.symbols| && 0 < n <= |defs|
    requires RecordsOwnSymbols(obj, fileId, defs, t, n - 1, prev)
    requires o == ResolveSymbol(obj, fileId, n - 1, defs[n - 1], t).undefined
    ensures RecordsOwnSymbols(obj, fileId, defs, t, n, prev + OptionToSeq(o))
  {
    var us := prev + OptionToSeq(o);
    forall i | 0 <= i < |us|
      ensures obj.symbolStart <= us[i].symbolId < obj.symbolStart + n
      ensures ResolveSymbol(obj, fileId, us[i].symbolId - obj.symbolStart, defs[us[i].symbolId - obj.symbolStart], t).undefined
              == Some(us[i])
    {
      if i < |prev| {
        assert us[i] == prev[i];
      } else {
        assert us[i] == o.value;
      }
    }
  }

  lemma {:induction false} RecordsInduct(obj: ParsedObject, fileId: FileId, defs: seq<SymbolId>, t: SymbolTable, n: nat)
    requires NamesOk(t) && |defs| == |obj.symbols| && n <= |defs|
    ensures RecordsUpTo(obj, fileId, defs, t, n, ResolveSymbolsUpTo(obj, fileId, defs, t, n).undefined)
  {
    if n > 0 {
      RecordsInduct(obj, fileId, defs, t, n - 1);
      var prev := ResolveSymbolsUpTo(obj, fileId, defs, t, n - 1).undefined;
      RecordsStep(obj, fileId, defs, t, n, prev);
    }
  }

  lemma RecordsStep(obj: ParsedObject, fileId: FileId, defs: seq<SymbolId>, t: SymbolTable, n: nat,
                    prev: seq<UndefinedSymbol>)
    requires NamesOk(t) && |defs| == |obj.symbols| && 0 < n <= |defs|
    requires RecordsUpTo(obj, fileId, defs, t, n - 1, prev)
    ensures RecordsUpTo(obj, fileId, defs, t, n, prev + OptionToSeq(ResolveSymbol(obj, fileId, n - 1, defs[n - 1], t).undefined))
  {
    var o := ResolveSymbol(obj, fileId, n - 1, defs[n - 1], t).undefined;
    var us := prev + OptionToSeq(o);
    RecordsSnoc(prev, o, obj.symbolStart, n);
    forall k | 0 <= k < n - 1 && ResolveSymbol(obj, fileId, k, defs[k], t).undefined.Some?
      ensures ResolveSymbol(obj, fileId, k, defs[k], t).undefined.value in us
    {
      assert ResolveSymbol(obj, fileId, k, defs[k], t).undefined.value in prev;
    }
  }

  /** Appending the record of symbol `lo + n - 1`, if any, to the records of the symbols before it. */
  lemma RecordsSnoc(prev: seq<UndefinedSymbol>, o: Option<UndefinedSymbol>, lo: nat, n: nat)
    requires 0 < n && |prev| <= n - 1
    requires forall i :: 0 <= i < |prev| ==> lo <= prev[i].symbolId < lo + n - 1
    requires forall i, j :: 0 <= i < j < |prev| ==> prev[i].symbolId < prev[j].symbolId
    requires o.Some? ==> o.value.symbolId == lo + n - 1
    ensures var us := prev + OptionToSeq(o);
            && |us| <= n
            && (forall i :: 0 <= i < |us| ==> lo <= us[i].symbolId < lo + n)
            && (forall i, j :: 0 <= i < j < |us| ==> us[i].symbolId < us[j].symbolId)
            && (forall x :: x in prev ==> x in us)
            && (o.Some? ==> o.value in us)
  {
    var us := prev + OptionToSeq(o);
    if o.Some? {
      assert us == prev + [o.value];
      assert us[|prev|] == o.value;
      forall i, j | 0 <= i < j < |us|
        ensures us[i].symbolId < us[j].symbolId
      {
        assert us[i] == prev[i];
        if j < |prev| {
          assert us[j] == prev[j];
        }
      }
    } else {
      assert us == prev;
    }
  }

  // ---------------------------------------------------------------------------------------------
  // Requesting files

  /** request_file_id on the cells (is a file's definitions slice still unclaimed) and the queue. */
  function EnqueueOne(cells: seq<bool>, queue: seq<FileId>, g: FileId): (seq<bool>, seq<FileId>)
    requires g < |cells|
  {
    if cells[g] then (cells[g := false], queue + [g]) else (cells, queue)
  }

  /** request_file_id for each of the first `n` requests, in order. */
  function EnqueueUpTo(cells: seq<bool>, queue: seq<FileId>, requests: seq<FileId>, n: nat): (r: (seq<bool>, seq<FileId>))
    requires n <= |requests| && forall k :: 0 <= k < |requests| ==> requests[k] < |cells|
    ensures |r.0| == |cells|
  {
    if n == 0 then (cells, queue)
    else
      var prev := EnqueueUpTo(cells, queue, requests, n - 1);
      EnqueueOne(prev.0, prev.1, requests[n - 1])
  }

  /** request_file_id for every request, in order. */
  function EnqueueAll(cells: seq<bool>, queue: seq<FileId>, requests: seq<FileId>): (r: (seq<bool>, seq<FileId>))
    requires forall k :: 0 <= k < |requests| ==> requests[k] < |cells|
    ensures |r.0| == |cells|
  {
    EnqueueUpTo(cells, queue, requests, |requests|)
  }

  /** Later requests do not change what the earlier ones did. */
  lemma {:induction false} EnqueuePrefix(cells: seq<bool>, queue: seq<FileId>, a: seq<FileId>, b: seq<FileId>, n: nat)
    requires n <= |a| && forall k :: 0 <= k < |a + b| ==> (a + b)[k] < |cells|
    ensures forall k :: 0 <= k < |a| ==> a[k] < |cells|
    ensures EnqueueUpTo(cells, queue, a + b, n) == EnqueueUpTo(cells, queue, a, n)
  {
    assert forall k :: 0 <= k < |a| ==> a[k] == (a + b)[k];
    if n > 0 {
      EnqueuePrefix(cells, queue, a, b, n - 1);
    }
  }

  /**
   * After the first `n` requests, each of them has its file's slice claimed, no claimed slice
   * comes back, and the queue grew by requested files whose slices were still unclaimed.
   */
  lemma {:induction false} EnqueueClaims(cells: seq<bool>, queue: seq<FileId>, requests: seq<FileId>, n: nat)
    requires n <= |requests| && forall k :: 0 <= k < |requests| ==> requests[k] < |cells|
    ensures var (c, q) := EnqueueUpTo(cells, queue, requests, n);
            && (forall k :: 0 <= k < n ==> !c[requests[k]])
            && (forall g :: 0 <= g < |cells| && !cells[g] ==> !c[g])
            && |queue| <= |q| && q[..|queue|] == queue
            && (forall i :: |queue| <= i < |q| ==> q[i] in requests && cells[q[i]])
  {
    if n > 0 {
      EnqueueClaims(cells, queue, requests, n - 1);
      var prev := EnqueueUpTo(cells, queue, requests, n - 1);
      var g := requests[n - 1];
      if prev.0[g] {
        assert (prev.1 + [g])[..|queue|] == prev.1[..|queue|];
      }
    }
  }

  // ---------------------------------------------------------------------------------------------
  // The files and what processing each one yields

  /** What resolution keeps of a loaded object: its sections' slots unless it is a shared object. */
  datatype LoadedObject = LoadedObject(fileId: FileId, sections: Option<Resolved>)

  /** Every symbol belongs to an existing file, and each object has one definition per symbol. */
  predicate InputOk(files: seq<InputFile>, t: SymbolTable, init: seq<seq<SymbolId>>) {
    && NamesOk(t)
    && (forall s :: 0 <= s < |t.symbolFile| ==> t.symbolFile[s] < |files|)
    && |init| == |files|
    && (forall f :: 0 <= f < |files| && files[f].ObjectFile? ==> |init[f]| == |files[f].obj.symbols|)
  }

  /** A non-optional object: loaded whatever else happens. */
  predicate Initial(file: InputFile) {
    file.ObjectFile? && !file.obj.optional
  }

  /** An object whose symbols get resolved once it is processed: its sections classify, unless it is shared. */
  predicate Resolves(file: InputFile, config: SectionConfig) {
    file.ObjectFile? && (file.obj.dynamic || ResolveAll(file.obj.sections, |file.obj.sections|, config).Ok?)
  }

  /** The error processing a file yields: only a non-shared object's sections can fail. */
  function ErrorOf(file: InputFile, config: SectionConfig): (e: Option<Error>)
    ensures e.Some? <==> file.ObjectFile? && !Resolves(file, config)
  {
    if file.ObjectFile? && !file.obj.dynamic && ResolveAll(file.obj.sections, |file.obj.sections|, config).Err? then
      Some(ResolveAll(file.obj.sections, |file.obj.sections|, config).error)
    else None
  }

  /** The outcome of resolving all symbols of object file `f`. */
  function SymbolsOf(files: seq<InputFile>, t: SymbolTable, init: seq<seq<SymbolId>>, f: FileId): (r: SymbolsOutcome)
    requires InputOk(files, t, init) && f < |files| && files[f].ObjectFile?
    ensures forall k :: 0 <= k < |r.requests| ==> r.requests[k] < |files|
  {
    var r := ResolveSymbolsUpTo(files[f].obj, f, init[f], t, |init[f]|);
    RequestsInRange(files[f].obj, f, init[f], t, |init[f]|);
    r
  }

  lemma {:induction false} RequestsInRange(obj: ParsedObject, fileId: FileId, defs: seq<SymbolId>, t: SymbolTable, n: nat)
    requires NamesOk(t) && |defs| == |obj.symbols| && n <= |defs|
    ensures forall k :: 0 <= k < |ResolveSymbolsUpTo(obj, fileId, defs, t, n).requests| ==>
              ResolveSymbolsUpTo(obj, fileId, defs, t, n).requests[k] in t.symbolFile
  {
    if n > 0 {
      RequestsInRange(obj, fileId, defs, t, n - 1);
      var prev := ResolveSymbolsUpTo(obj, fileId, defs, t, n - 1).requests;
      var o := ResolveSymbol(obj, fileId, n - 1, defs[n - 1], t);
      var rs := ResolveSymbolsUpTo(obj, fileId, defs, t, n).requests;
      assert rs == prev + OptionToSeq(o.request);
      forall k | 0 <= k < |rs|
        ensures rs[k] in t.symbolFile
      {
        if k < |prev| {
          assert rs[k] == prev[k];
        } else {
          assert rs[k] == o.request.value;
        }
      }
    }
  }

  /** What resolution keeps of file `f` once processed. */
  function Entry(files: seq<InputFile>, config: SectionConfig, f: FileId): seq<LoadedObject>
    requires f < |files|
  {
    if !Resolves(files[f], config) then []
    else if files[f].obj.dynamic then [LoadedObject(f, None)]
    else [LoadedObject(f, Some(ResolveAll(files[f].obj.sections, |files[f].obj.sections|, config).value))]
  }

  predicate InFiles(files: seq<InputFile>, p: seq<FileId>) {
    forall k :: 0 <= k < |p| ==> p[k] < |files|
  }

  /** The loaded objects after processing the files of `p` in order. */
  function LoadedOf(files: seq<InputFile>, config: SectionConfig, p: seq<FileId>): (r: seq<LoadedObject>)
    requires InFiles(files, p)
    ensures forall k :: 0 <= k < |r| ==> r[k].fileId in p && Resolves(files[r[k].fileId], config)
  {
    if p == [] then [] else LoadedOf(files, config, p[..|p| - 1]) + Entry(files, config, p[|p| - 1])
  }

  /** The records the loaded objects leave, in the order they were loaded. */
  function UndefinedOf(files: seq<InputFile>, t: SymbolTable, init: seq<seq<SymbolId>>, config: SectionConfig,
                       loaded: seq<LoadedObject>): seq<UndefinedSymbol>
    requires InputOk(files, t, init)
    requires forall k :: 0 <= k < |loaded| ==> loaded[k].fileId < |files| && files[loaded[k].fileId].ObjectFile?
  {
    if loaded == [] then []
    else UndefinedOf(files, t, init, config, loaded[..|loaded| - 1])
         + SymbolsOf(files, t, init, loaded[|loaded| - 1].fileId).undefined
  }

  /** The first error met processing the files of `p` in order. */
  function FirstErrorOf(files: seq<InputFile>, config: SectionConfig, p: seq<FileId>): (e: Option<Error>)
    requires InFiles(files, p)
    ensures e.None? <==> forall k :: 0 <= k < |p| ==> ErrorOf(files[p[k]], config).None?
    ensures e.Some? ==> exists k :: 0 <= k < |p| && ErrorOf(files[p[k]], config) == e
  {
    if p == [] then None
    else
      var init := FirstErrorOf(files, config, p[..|p| - 1]);
      assert forall k :: 0 <= k < |p| - 1 ==> p[..|p| - 1][k] == p[k];
      if init.Some? then init else ErrorOf(files[p[|p| - 1]], config)
  }

  /** No two loaded objects are the same file. */
  predicate DistinctFiles(r: seq<LoadedObject>) {
    forall i, j :: 0 <= i < j < |r| ==> r[i].fileId != r[j].fileId
  }

  /** Each loaded object is loaded once. */
  lemma {:induction false} LoadedOfDistinct(files: seq<InputFile>, config: SectionConfig, p: seq<FileId>)
    requires InFiles(files, p) && NoDuplicates(p)
    ensures DistinctFiles(LoadedOf(files, config, p))
  {
    if p != [] {
      var init := p[..|p| - 1];
      assert forall k :: 0 <= k < |init| ==> init[k] == p[k];
      assert NoDuplicates(init);
      LoadedOfDistinct(files, config, init);
      var prev := LoadedOf(files, config, init);
      var r := LoadedOf(files, config, p);
      assert r == prev + Entry(files, config, p[|p| - 1]);
      assert |Entry(files, config, p[|p| - 1])| <= 1;
      forall i, j | 0 <= i < j < |r|
        ensures r[i].fileId != r[j].fileId
      {
        assert r[i] == prev[i];
        if j == |prev| {
          assert prev[i].fileId in init;
          assert r[j].fileId == p[|p| - 1];
          assert p[|p| - 1] !in init;
        } else {
          assert r[j] == prev[j];
        }
      }
    }
  }

  /** Every processed object that resolves is loaded, with what processing it yields. */
  lemma {:induction false} LoadedOfComplete(files: seq<InputFile>, config: SectionConfig, p: seq<FileId>)
    requires InFiles(files, p)
    ensures var r := LoadedOf(files, config, p);
            && (forall f :: f in p && Resolves(files[f], config) ==> exists k :: 0 <= k < |r| && r[k].fileId == f)
            && (forall k :: 0 <= k < |r| ==> [r[k]] == Entry(files, config, r[k].fileId))
  {
    if p != [] {
      var init := p[..|p| - 1];
      assert forall k :: 0 <= k < |init| ==> init[k] == p[k];
      LoadedOfComplete(files, config, init);
      var prev := LoadedOf(files, config, init);
      var r := LoadedOf(files, config, p);
      assert r == prev + Entry(files, config, p[|p| - 1]);
      assert p == init + [p[|p| - 1]];
      forall f | f in p && Resolves(files[f], config)
        ensures exists k :: 0 <= k < |r| && r[k].fileId == f
      {
        if f in init {
          var k :| 0 <= k < |prev| && prev[k].fileId == f;
          assert r[k] == prev[k];
        } else {
          assert r[|prev|].fileId == f;
        }
      }
      forall k | 0 <= k < |r|
        ensures [r[k]] == Entry(files, config, r[k].fileId)
      {
        if k < |prev| {
          assert r[k] == prev[k];
        }
      }
    }
  }

  /** A prefix of a prefix is a prefix. */
  lemma PrefixTransitive(a: seq<FileId>, b: seq<FileId>, c: seq<FileId>)
    requires a <= b && b <= c
    ensures a <= c
  {
    assert c[..|b|] == b;
    assert c[..|a|] == b[..|a|];
  }

  /** No sequence of distinct numbers below `n` is longer than `n`. */
  lemma {:induction false} DistinctBounded(s: seq<nat>, n: nat)
    requires NoDuplicates(s) && forall k :: 0 <= k < |s| ==> s[k] < n
    ensures |s| <= n
    decreases n
  {
    if |s| == 0 {
    } else if n - 1 in s {
      var j :| 0 <= j < |s| && s[j] == n - 1;
      var rest := s[..j] + s[j + 1..];
      assert forall k :: 0 <= k < |rest| ==> rest[k] == if k < j then s[k] else s[k + 1];
      DistinctBounded(rest, n - 1);
    } else {
      DistinctBounded(s, n - 1);
    }
  }

  lemma UpToStep(obj: ParsedObject, fileId: FileId, defs: seq<SymbolId>, t: SymbolTable, i: nat)
    requires NamesOk(t) && |defs| == |obj.symbols| && i < |defs|
    ensures var prev := ResolveSymbolsUpTo(obj, fileId, defs, t, i);
            var o := ResolveSymbol(obj, fileId, i, defs[i], t);
            ResolveSymbolsUpTo(obj, fileId, defs, t, i + 1)
            == SymbolsOutcome(prev.definitions[i := o.definition], prev.requests + OptionToSeq(o.request),
                              prev.undefined + OptionToSeq(o.undefined))
  {
  }

  lemma EnqueueStep(cells: seq<bool>, queue: seq<FileId>, requests: seq<FileId>, request: Option<FileId>)
    requires forall k :: 0 <= k < |requests| ==> requests[k] < |cells|
    requires request.Some? ==> request.value < |cells|
    ensures var prev := EnqueueAll(cells, queue, requests);
            EnqueueAll(cells, queue, requests + OptionToSeq(request))
            == if request.Some? then EnqueueOne(prev.0, prev.1, request.value) else prev
  {
    EnqueuePrefix(cells, queue, requests, OptionToSeq(request), |requests|);
    if request.Some? {
      assert (requests + [request.value])[|requests|] == request.value;
    } else {
      assert requests + [] == requests;
    }
  }

  /** `d` with definition `i` of file `f` replaced by `v`. */
  function UpdateDefinition(d: seq<seq<SymbolId>>, f: nat, i: nat, v: SymbolId): (r: seq<seq<SymbolId>>)
    requires f < |d| && i < |d[f]|
    ensures |r| == |d| && r[f] == d[f][i := v]
    ensures forall g :: 0 <= g < |d| && g != f ==> r[g] == d[g]
  {
    var row: seq<SymbolId> := d[f][i := v];
    d[f := row]
  }

  /**
   * A set of files that holds every non-optional object and, with every object in it that
   * resolves, every file that object asks for.
   */
  ghost predicate Closed(files: seq<InputFile>, t: SymbolTable, init: seq<seq<SymbolId>>, config: SectionConfig, s: set<FileId>)
    requires InputOk(files, t, init)
  {
    && (forall f :: 0 <= f < |files| && Initial(files[f]) ==> f in s)
    && (forall g, h :: (g in s && g < |files| && Resolves(files[g], config)
                        && h in SymbolsOf(files, t, init, g).requests) ==> h in s)
  }

  /** The files resolution reaches: the least closed set. */
  ghost predicate LeastClosed(files: seq<InputFile>, t: SymbolTable, init: seq<seq<SymbolId>>, config: SectionConfig, s: set<FileId>)
    requires InputOk(files, t, init)
  {
    && (forall f :: f in s ==> f < |files|)
    && Closed(files, t, init, config, s)
    && (forall other :: Closed(files, t, init, config, other) ==> s <= other)
  }

  /** There is only one least closed set. */
  lemma LeastClosedUnique(files: seq<InputFile>, t: SymbolTable, init: seq<seq<SymbolId>>, config: SectionConfig,
                          s: set<FileId>, s': set<FileId>)
    requires InputOk(files, t, init)
    requires LeastClosed(files, t, init, config, s) && LeastClosed(files, t, init, config, s')
    ensures s == s'
  {
  }

  // ---------------------------------------------------------------------------------------------
  // The worklist state and what one round of it does

  /** The worklist's state: claimed slices, queue, per-file definitions and the outputs so far. */
  datatype WorkState = WorkState(
    cells: seq<bool>,
    queue: seq<FileId>,
    definitions: seq<seq<SymbolId>>,
    undefined: seq<UndefinedSymbol>,
    loaded: seq<LoadedObject>,
    firstError: Option<Error>,
    processed: seq<FileId>)  // the files taken off the queue so far, in order

  /** Each file is processed or queued at most once, and exactly those files have had their slice claimed. */
  ghost predicate WorkOk(files: seq<InputFile>, s: WorkState) {
    && |s.cells| == |files| && |s.definitions| == |files|
    && InFiles(files, s.processed) && InFiles(files, s.queue)
    && NoDuplicates(s.processed + s.queue)
    && (forall f :: 0 <= f < |files| ==> (!s.cells[f] <==> f in s.processed + s.queue))
  }

  /** The definitions of each file: resolved once it is processed and resolves, as given otherwise. */
  ghost predicate DefinitionsOk(files: seq<InputFile>, t: SymbolTable, init: seq<seq<SymbolId>>, config: SectionConfig, s: WorkState)
    requires InputOk(files, t, init) && WorkOk(files, s)
  {
    forall f :: 0 <= f < |files| ==>
      s.definitions[f] == if f in s.processed && Resolves(files[f], config)
                          then SymbolsOf(files, t, init, f).definitions
                          else init[f]
  }

  /** The outputs: what the processed files yield, in the order they were processed. */
  ghost predicate RecordsOk(files: seq<InputFile>, t: SymbolTable, init: seq<seq<SymbolId>>, config: SectionConfig, s: WorkState)
    requires InputOk(files, t, init) && WorkOk(files, s)
  {
    && s.loaded == LoadedOf(files, config, s.processed)
    && s.undefined == UndefinedOf(files, t, init, config, s.loaded)
    && s.firstError == FirstErrorOf(files, config, s.processed)
  }

  /** Which slices are claimed: enough for closure, and nothing outside any closed set. */
  ghost predicate ClaimsOk(files: seq<InputFile>, t: SymbolTable, init: seq<seq<SymbolId>>, config: SectionConfig, s: WorkState)
    requires InputOk(files, t, init) && WorkOk(files, s)
  {
    // every file a processed object asks for has been claimed
    && (forall g, h :: (g in s.processed && Resolves(files[g], config)
                        && h in SymbolsOf(files, t, init, g).requests) ==> !s.cells[h])
    // every non-optional object has been claimed
    && (forall f :: 0 <= f < |files| && Initial(files[f]) ==> !s.cells[f])
    // every claimed file lies in every closed set
    && (forall other :: Closed(files, t, init, config, other) ==>
          forall g :: g in s.processed + s.queue ==> g in other)
  }

  ghost predicate ReachedOk(files: seq<InputFile>, t: SymbolTable, init: seq<seq<SymbolId>>, config: SectionConfig, s: WorkState)
    requires InputOk(files, t, init) && WorkOk(files, s)
  {
    DefinitionsOk(files, t, init, config, s) && RecordsOk(files, t, init, config, s) && ClaimsOk(files, t, init, config, s)
  }

  /** One round: `s1` is `s0` after taking the front file off the queue and processing it. */
  ghost predicate StepsTo(files: seq<InputFile>, t: SymbolTable, init: seq<seq<SymbolId>>, config: SectionConfig,
                          s0: WorkState, s1: WorkState)
    requires InputOk(files, t, init) && WorkOk(files, s0) && s0.queue != []
  {
    var f := s0.queue[0];
    && s1.processed == s0.processed + [f]
    && s1.loaded == s0.loaded + Entry(files, config, f)
    && s1.firstError == (if s0.firstError.Some? then s0.firstError else ErrorOf(files[f], config))
    && (Resolves(files[f], config) ==>
          var o := SymbolsOf(files, t, init, f);
          && s1.definitions == s0.definitions[f := o.definitions]
          && s1.undefined == s0.undefined + o.undefined
          && (s1.cells, s1.queue) == EnqueueAll(s0.cells, s0.queue[1..], o.requests))
    && (!Resolves(files[f], config) ==>
          && s1.definitions == s0.definitions && s1.undefined == s0.undefined
          && s1.cells == s0.cells && s1.queue == s0.queue[1..])
  }

  /** The state after recording what resolving local symbol `i` of file `f` decided. */
  function Apply(s: WorkState, f: FileId, i: nat, outcome: SymbolOutcome): WorkState
    requires f < |s.definitions| && i < |s.definitions[f]|
    requires outcome.request.Some? ==> outcome.request.value < |s.cells|
  {
    var s' := s.(definitions := UpdateDefinition(s.definitions, f, i, outcome.definition),
                 undefined := s.undefined + OptionToSeq(outcome.undefined));
    if outcome.request.Some? then
      var (cells, queue) := EnqueueOne(s.cells, s.queue, outcome.request.value);
      s'.(cells := cells, queue := queue)
    else s'
  }

  /** The state after resolving local symbols `..n` of object file `f`, starting from `s`. */
  function AfterSymbols(files: seq<InputFile>, t: SymbolTable, init: seq<seq<SymbolId>>, s: WorkState, f: FileId, n: nat): (r: WorkState)
    requires InputOk(files, t, init) && f < |files| && files[f].ObjectFile? && n <= |init[f]|
    requires |s.cells| == |files| && |s.definitions| == |files|
    ensures |r.cells| == |files| && |r.definitions| == |files| && |r.definitions[f]| == |init[f]|
    ensures forall k :: n <= k < |init[f]| ==> r.definitions[f][k] == init[f][k]
  {
    var o := ResolveSymbolsUpTo(files[f].obj, f, init[f], t, n);
    RequestsInRange(files[f].obj, f, init[f], t, n);
    var (cells, queue) := EnqueueAll(s.cells, s.queue, o.requests);
    s.(definitions := s.definitions[f := o.definitions], undefined := s.undefined + o.undefined,
       cells := cells, queue := queue)
  }

  /** Before any local symbol is resolved, the state is unchanged. */
  lemma AfterNoSymbols(files: seq<InputFile>, t: SymbolTable, init: seq<seq<SymbolId>>, s: WorkState, f: FileId)
    requires InputOk(files, t, init) && f < |files| && files[f].ObjectFile?
    requires |s.cells| == |files| && |s.definitions| == |files| && s.definitions[f] == init[f]
    ensures AfterSymbols(files, t, init, s, f, 0) == s
  {
    assert s.definitions[f := init[f]] == s.definitions;
  }

  /** Resolving one more local symbol is one more Apply. */
  lemma AfterSymbolsStep(files: seq<InputFile>, t: SymbolTable, init: seq<seq<SymbolId>>, s: WorkState, f: FileId, i: nat)
    requires InputOk(files, t, init) && f < |files| && files[f].ObjectFile? && i < |init[f]|
    requires |s.cells| == |files| && |s.definitions| == |files|
    ensures var before := AfterSymbols(files, t, init, s, f, i);
            var outcome := ResolveSymbol(files[f].obj, f, i, before.definitions[f][i], t);
            && (outcome.request.Some? ==> outcome.request.value < |files|)
            && AfterSymbols(files, t, init, s, f, i + 1) == Apply(before, f, i, outcome)
  {
    var obj := files[f].obj;
    var prev := ResolveSymbolsUpTo(obj, f, init[f], t, i);
    RequestsInRange(obj, f, init[f], t, i);
    RequestsInRange(obj, f, init[f], t, i + 1);
    UpToStep(obj, f, init[f], t, i);
    var outcome := ResolveSymbol(obj, f, i, init[f][i], t);
    EnqueueStep(s.cells, s.queue, prev.requests, outcome.request);
    var before := AfterSymbols(files, t, init, s, f, i);
    assert before.definitions[f][i] == init[f][i];
    var row: seq<SymbolId> := prev.definitions[i := outcome.definition];
    var after := AfterSymbols(files, t, init, s, f, i + 1);
    assert after.definitions == UpdateDefinition(before.definitions, f, i, outcome.definition) == s.definitions[f := row];
    assert after.undefined == before.undefined + OptionToSeq(outcome.undefined);
  }

  /** Requesting a file keeps each file processed or queued at most once, and the claims in step. */
  lemma EnqueueOneKeepsWork(files: seq<InputFile>, s: WorkState, g: FileId)
    requires WorkOk(files, s) && g < |files|
    ensures var (c, q) := EnqueueOne(s.cells, s.queue, g);
            WorkOk(files, s.(cells := c, queue := q))
  {
    if s.cells[g] {
      NoDuplicatesAppend(s.processed + s.queue, g);
      assert s.processed + (s.queue + [g]) == s.processed + s.queue + [g];
    }
  }

  lemma {:induction false} EnqueueKeepsWork(files: seq<InputFile>, s: WorkState, requests: seq<FileId>, n: nat)
    requires WorkOk(files, s) && n <= |requests| && forall k :: 0 <= k < |requests| ==> requests[k] < |files|
    ensures var (c, q) := EnqueueUpTo(s.cells, s.queue, requests, n);
            WorkOk(files, s.(cells := c, queue := q))
  {
    if n > 0 {
      EnqueueKeepsWork(files, s, requests, n - 1);
      var (c, q) := EnqueueUpTo(s.cells, s.queue, requests, n - 1);
      EnqueueOneKeepsWork(files, s.(cells := c, queue := q), requests[n - 1]);
    }
  }

  /** Resolving a file's symbols keeps the worklist well formed. */
  lemma AfterSymbolsKeepsWork(files: seq<InputFile>, t: SymbolTable, init: seq<seq<SymbolId>>, s: WorkState, f: FileId, n: nat)
    requires InputOk(files, t, init) && f < |files| && files[f].ObjectFile? && n <= |init[f]|
    requires WorkOk(files, s)
    ensures WorkOk(files, AfterSymbols(files, t, init, s, f, n))
  {
    var o := ResolveSymbolsUpTo(files[f].obj, f, init[f], t, n);
    RequestsInRange(files[f].obj, f, init[f], t, n);
    EnqueueKeepsWork(files, s, o.requests, |o.requests|);
  }

  /** Taking the front file off the queue: it is not yet processed, so its definitions are as given. */
  lemma PopFront(files: seq<InputFile>, t: SymbolTable, init: seq<seq<SymbolId>>, config: SectionConfig, s: WorkState)
    requires InputOk(files, t, init) && WorkOk(files, s) && s.queue != [] && DefinitionsOk(files, t, init, config, s)
    ensures s.queue[0] < |files| && s.definitions[s.queue[0]] == init[s.queue[0]]
    ensures WorkOk(files, s.(queue := s.queue[1..], processed := s.processed + [s.queue[0]]))
  {
    var f := s.queue[0];
    assert (s.processed + s.queue)[|s.processed|] == f;
    assert forall k :: 0 <= k < |s.processed| ==> (s.processed + s.queue)[k] == s.processed[k];
    assert f !in s.processed;
    assert (s.processed + [f]) + s.queue[1..] == s.processed + s.queue;
  }

  lemma StepDefinitions(files: seq<InputFile>, t: SymbolTable, init: seq<seq<SymbolId>>, config: SectionConfig,
                        s0: WorkState, s1: WorkState)
    requires InputOk(files, t, init) && WorkOk(files, s0) && s0.queue != [] && WorkOk(files, s1)
    requires DefinitionsOk(files, t, init, config, s0) && StepsTo(files, t, init, config, s0, s1)
    ensures DefinitionsOk(files, t, init, config, s1)
  {
    var f := s0.queue[0];
    assert (s0.processed + s0.queue)[|s0.processed|] == f;
    forall g | 0 <= g < |files|
      ensures s1.definitions[g] == if g in s1.processed && Resolves(files[g], config)
                                   then SymbolsOf(files, t, init, g).definitions
                                   else init[g]
    {
      if g != f {
        assert g in s1.processed <==> g in s0.processed;
      }
    }
  }

  lemma StepRecords(files: seq<InputFile>, t: SymbolTable, init: seq<seq<SymbolId>>, config: SectionConfig,
                    s0: WorkState, s1: WorkState, f: FileId)
    requires InputOk(files, t, init) && WorkOk(files, s0) && WorkOk(files, s1) && f < |files|
    requires RecordsOk(files, t, init, config, s0)
    requires s1.processed == s0.processed + [f]
    requires s1.loaded == s0.loaded + Entry(files, config, f)
    requires s1.firstError == (if s0.firstError.Some? then s0.firstError else ErrorOf(files[f], config))
    requires Resolves(files[f], config) ==> s1.undefined == s0.undefined + SymbolsOf(files, t, init, f).undefined
    requires !Resolves(files[f], config) ==> s1.undefined == s0.undefined
    ensures RecordsOk(files, t, init, config, s1)
  {
    StepLoaded(files, config, s0.processed, f);
    StepUndefined(files, t, init, config, s0.loaded, f);
    StepFirstError(files, config, s0.processed, f);
  }

  /** Processing one more file appends its entry to the loaded objects. */
  lemma StepLoaded(files: seq<InputFile>, config: SectionConfig, p: seq<FileId>, f: FileId)
    requires InFiles(files, p) && f < |files|
    ensures InFiles(files, p + [f])
    ensures LoadedOf(files, config, p + [f]) == LoadedOf(files, config, p) + Entry(files, config, f)
  {
    assert (p + [f])[..|p|] == p;
  }

  /** Loading one more object appends its undefined-symbol records. */
  lemma StepUndefined(files: seq<InputFile>, t: SymbolTable, init: seq<seq<SymbolId>>, config: SectionConfig,
                      loaded: seq<LoadedObject>, f: FileId)
    requires InputOk(files, t, init) && f < |files|
    requires forall k :: 0 <= k < |loaded| ==> loaded[k].fileId < |files| && files[loaded[k].fileId].ObjectFile?
    ensures var l := loaded + Entry(files, config, f);
            && (forall k :: 0 <= k < |l| ==> l[k].fileId < |files| && files[l[k].fileId].ObjectFile?)
            && UndefinedOf(files, t, init, config, l)
               == UndefinedOf(files, t, init, config, loaded)
                  + if Resolves(files[f], config) then SymbolsOf(files, t, init, f).undefined else []
  {
    var l := loaded + Entry(files, config, f);
    if Resolves(files[f], config) {
      assert l[..|loaded|] == loaded;
    } else {
      assert l == loaded;
    }
  }

  /** Processing one more file keeps an earlier error, or takes the file's own. */
  lemma StepFirstError(files: seq<InputFile>, config: SectionConfig, p: seq<FileId>, f: FileId)
    requires InFiles(files, p) && f < |files|
    ensures InFiles(files, p + [f])
    ensures FirstErrorOf(files, config, p + [f])
            == if FirstErrorOf(files, config, p).Some? then FirstErrorOf(files, config, p) else ErrorOf(files[f], config)
  {
    assert (p + [f])[..|p|] == p;
  }

  lemma StepClaims(files: seq<InputFile>, t: SymbolTable, init: seq<seq<SymbolId>>, config: SectionConfig,
                   s0: WorkState, s1: WorkState)
    requires InputOk(files, t, init) && WorkOk(files, s0) && s0.queue != [] && WorkOk(files, s1)
    requires ClaimsOk(files, t, init, config, s0) && StepsTo(files, t, init, config, s0, s1)
    ensures ClaimsOk(files, t, init, config, s1)
    ensures s0.processed + s0.queue <= s1.processed + s1.queue
  {
    if Resolves(files[s0.queue[0]], config) {
      StepClaimsGrow(files, t, init, config, s0, s1);
      StepClaimsRequests(files, t, init, config, s0, s1);
      StepClaimsClosed(files, t, init, config, s0, s1);
    } else {
      StepClaimsUnresolved(files, t, init, config, s0, s1);
    }
  }

  /** A step whose file does not resolve claims nothing more. */
  lemma StepClaimsUnresolved(files: seq<InputFile>, t: SymbolTable, init: seq<seq<SymbolId>>, config: SectionConfig,
                             s0: WorkState, s1: WorkState)
    requires InputOk(files, t, init) && WorkOk(files, s0) && s0.queue != [] && WorkOk(files, s1)
    requires ClaimsOk(files, t, init, config, s0) && StepsTo(files, t, init, config, s0, s1)
    requires !Resolves(files[s0.queue[0]], config)
    ensures ClaimsOk(files, t, init, config, s1)
    ensures s0.processed + s0.queue <= s1.processed + s1.queue
  {
    assert s1.processed + s1.queue == s0.processed + s0.queue;
  }

  /** After a step whose file resolves, the claimed files only grow, at the back. */
  lemma StepClaimsGrow(files: seq<InputFile>, t: SymbolTable, init: seq<seq<SymbolId>>, config: SectionConfig,
                       s0: WorkState, s1: WorkState)
    requires InputOk(files, t, init) && WorkOk(files, s0) && s0.queue != [] && WorkOk(files, s1)
    requires ClaimsOk(files, t, init, config, s0) && StepsTo(files, t, init, config, s0, s1)
    requires Resolves(files[s0.queue[0]], config)
    ensures forall f :: 0 <= f < |files| && Initial(files[f]) ==> !s1.cells[f]
    ensures s0.processed + s0.queue <= s1.processed + s1.queue
  {
    var o := SymbolsOf(files, t, init, s0.queue[0]);
    var before := s0.processed + s0.queue;
    assert s1.processed + s0.queue[1..] == before;
    EnqueueClaims(s0.cells, s0.queue[1..], o.requests, |o.requests|);
    assert (s1.processed + s1.queue)[..|before|] == before;
  }

  /** After a step whose file resolves, every file a processed object asks for is claimed. */
  lemma StepClaimsRequests(files: seq<InputFile>, t: SymbolTable, init: seq<seq<SymbolId>>, config: SectionConfig,
                           s0: WorkState, s1: WorkState)
    requires InputOk(files, t, init) && WorkOk(files, s0) && s0.queue != [] && WorkOk(files, s1)
    requires ClaimsOk(files, t, init, config, s0) && StepsTo(files, t, init, config, s0, s1)
    requires Resolves(files[s0.queue[0]], config)
    ensures forall g, h :: (g in s1.processed && Resolves(files[g], config)
                            && h in SymbolsOf(files, t, init, g).requests) ==> !s1.cells[h]
  {
    var f := s0.queue[0];
    var o := SymbolsOf(files, t, init, f);
    EnqueueClaims(s0.cells, s0.queue[1..], o.requests, |o.requests|);
    forall g, h | g in s1.processed && Resolves(files[g], config) && h in SymbolsOf(files, t, init, g).requests
      ensures !s1.cells[h]
    {
      if g != f {
        assert g in s0.processed;
      } else {
        var k :| 0 <= k < |o.requests| && o.requests[k] == h;
      }
    }
  }

  /** After a step whose file resolves, every claimed file still lies in every closed set. */
  lemma StepClaimsClosed(files: seq<InputFile>, t: SymbolTable, init: seq<seq<SymbolId>>, config: SectionConfig,
                         s0: WorkState, s1: WorkState)
    requires InputOk(files, t, init) && WorkOk(files, s0) && s0.queue != [] && WorkOk(files, s1)
    requires ClaimsOk(files, t, init, config, s0) && StepsTo(files, t, init, config, s0, s1)
    requires Resolves(files[s0.queue[0]], config)
    ensures forall other :: Closed(files, t, init, config, other) ==>
              forall g :: g in s1.processed + s1.queue ==> g in other
  {
    var f := s0.queue[0];
    var o := SymbolsOf(files, t, init, f);
    var before := s0.processed + s0.queue;
    var all := s1.processed + s1.queue;
    assert s1.processed + s0.queue[1..] == before;
    EnqueueClaims(s0.cells, s0.queue[1..], o.requests, |o.requests|);
    assert all[..|before|] == before;
    forall other | Closed(files, t, init, config, other)
      ensures forall g :: g in all ==> g in other
    {
      assert f in other by { assert before[|s0.processed|] == f; }
      forall g | g in all
        ensures g in other
      {
        var i :| 0 <= i < |all| && all[i] == g;
        if i >= |before| {
          assert g in o.requests;
        } else {
          assert g == before[i];
        }
      }
    }
  }

  // ---------------------------------------------------------------------------------------------
  // The worklist

  /** The state resolution threads share, run here by one worker. */
  class ResolutionResources {
    const files: seq<InputFile>
    const table: SymbolTable
    const config: SectionConfig
    /** The definitions each file starts with. */
    const initialDefinitions: seq<seq<SymbolId>>
    /** Whether each file's definitions slice is still unclaimed. */
    var cells: seq<bool>
    var workQueue: seq<FileId>
    var definitions: seq<seq<SymbolId>>
    var undefinedSymbols: seq<UndefinedSymbol>
    var loaded: seq<LoadedObject>
    /** Only the first error is kept. */
    var firstError: Option<Error>
    /** The files taken off the queue so far, in order. */
    ghost var processed: seq<FileId>

    /** The state of the worklist as a value. */
    ghost function State(): WorkState
      reads this
    {
      WorkState(cells, workQueue, definitions, undefinedSymbols, loaded, firstError, processed)
    }

    ghost predicate Valid()
      reads this
    {
      InputOk(files, table, initialDefinitions) && WorkOk(files, State())
    }

    /** The state after the files of `processed` have been processed in order. */
    ghost predicate Processed()
      requires Valid()
      reads this
    {
      ReachedOk(files, table, initialDefinitions, config, State())
    }

    constructor (files: seq<InputFile>, table: SymbolTable, config: SectionConfig, init: seq<seq<SymbolId>>,
                 cells: seq<bool>, queue: seq<FileId>)
      requires InputOk(files, table, init) && |cells| == |files| && InFiles(files, queue) && NoDuplicates(queue)
      requires forall f :: 0 <= f < |files| ==> (!cells[f] <==> f in queue)
      requires forall f :: 0 <= f < |files| ==> (f in queue <==> Initial(files[f]))
      ensures Valid() && Processed()
      ensures this.files == files && this.table == table && this.config == config && initialDefinitions == init
      ensures this.cells == cells && workQueue == queue && processed == []
    {
      this.files := files;
      this.table := table;
      this.config := config;
      initialDefinitions := init;
      this.cells := cells;
      workQueue := queue;
      definitions := init;
      undefinedSymbols := [];
      loaded := [];
      firstError := None;
      processed := [];
      new;
      assert processed + workQueue == queue;
    }

    /** request_file_id: queues `g` unless its definitions slice was already claimed. */
    method RequestFileId(g: FileId)
      requires g < |cells|
      modifies this
      ensures var (c, q) := EnqueueOne(old(cells), old(workQueue), g);
              State() == old(State()).(cells := c, queue := q)
    {
      if cells[g] {
        cells := cells[g := false];
        workQueue := workQueue + [g];
      }
    }

    /** resolve_symbols: resolves every local symbol of object file `f`. */
    method ResolveSymbols(f: FileId)
      requires InputOk(files, table, initialDefinitions) && |cells| == |files| && |definitions| == |files|
      requires f < |files| && files[f].ObjectFile? && definitions[f] == initialDefinitions[f]
      modifies this
      ensures State() == AfterSymbols(files, table, initialDefinitions, old(State()), f, |files[f].obj.symbols|)
    {
      var obj := files[f].obj;
      ghost var s0 := State();
      AfterNoSymbols(files, table, initialDefinitions, s0, f);
      var i := 0;
      while i < |obj.symbols|
        invariant 0 <= i <= |obj.symbols|
        invariant State() == AfterSymbols(files, table, initialDefinitions, s0, f, i)
        decreases |obj.symbols| - i
      {
        ResolveLocal(f, i, s0);
        i := i + 1;
      }
    }

    /** One turn of resolve_symbols' loop: resolves local symbol `i` of object file `f`. */
    method ResolveLocal(f: FileId, i: nat, ghost s0: WorkState)
      requires InputOk(files, table, initialDefinitions) && |s0.cells| == |files| && |s0.definitions| == |files|
      requires f < |files| && files[f].ObjectFile? && i < |files[f].obj.symbols|
      requires State() == AfterSymbols(files, table, initialDefinitions, s0, f, i)
      modifies this
      ensures State() == AfterSymbols(files, table, initialDefinitions, s0, f, i + 1)
    {
      AfterSymbolsStep(files, table, initialDefinitions, s0, f, i);
      var outcome := ResolveSymbol(files[f].obj, f, i, definitions[f][i], table);
      ApplyOutcome(f, i, outcome);
    }

    /** Records what resolving local symbol `i` of file `f` decided. */
    method ApplyOutcome(f: FileId, i: nat, outcome: SymbolOutcome)
      requires f < |definitions| && i < |definitions[f]|
      requires outcome.request.Some? ==> outcome.request.value < |cells|
      modifies this
      ensures State() == Apply(old(State()), f, i, outcome)
    {
      definitions := UpdateDefinition(definitions, f, i, outcome.definition);
      if outcome.request.Some? {
        RequestFileId(outcome.request.value);
      }
      if outcome.undefined.Some? {
        undefinedSymbols := undefinedSymbols + [outcome.undefined.value];
      }
    }

    /** process_object: an object's sections, then its symbols; any other file yields nothing. */
    method ProcessObject(f: FileId)
      requires Valid() && f < |files| && definitions[f] == initialDefinitions[f]
      modifies this
      ensures Valid()
      ensures processed == old(processed)
      ensures loaded == old(loaded) + Entry(files, config, f)
      ensures firstError == if old(firstError).Some? then old(firstError) else ErrorOf(files[f], config)
      ensures Resolves(files[f], config) ==>
                var o := SymbolsOf(files, table, initialDefinitions, f);
                && definitions == old(definitions)[f := o.definitions]
                && undefinedSymbols == old(undefinedSymbols) + o.undefined
                && (cells, workQueue) == EnqueueAll(old(cells), old(workQueue), o.requests)
      ensures !Resolves(files[f], config) ==>
                && definitions == old(definitions) && undefinedSymbols == old(undefinedSymbols)
                && cells == old(cells) && workQueue == old(workQueue)
    {
      if files[f].ObjectFile? {
        var obj := files[f].obj;
        if obj.dynamic {
          AfterSymbolsKeepsWork(files, table, initialDefinitions, State(), f, |obj.symbols|);
          ResolveSymbols(f);
          loaded := loaded + [LoadedObject(f, None)];
        } else {
          var sections := ResolveSections(obj.sections, config);
          if sections.Err? {
            if firstError.None? {
              firstError := Some(sections.error);
            }
          } else {
            AfterSymbolsKeepsWork(files, table, initialDefinitions, State(), f, |obj.symbols|);
            ResolveSymbols(f);
            loaded := loaded + [LoadedObject(f, Some(sections.value))];
          }
        }
      }
    }

    /** One round of the worker loop: takes the next file off the queue and processes it. */
    method Step()
      requires Valid() && Processed() && workQueue != []
      modifies this
      ensures Valid() && Processed()
      ensures processed == old(processed) + [old(workQueue)[0]]
      ensures old(processed + workQueue) <= processed + workQueue
    {
      ghost var s0 := State();
      var f := workQueue[0];
      PopFront(files, table, initialDefinitions, config, s0);
      workQueue := workQueue[1..];
      processed := processed + [f];
      ProcessObject(f);
      ghost var s1 := State();
      assert StepsTo(files, table, initialDefinitions, config, s0, s1);
      StepDefinitions(files, table, initialDefinitions, config, s0, s1);
      StepRecords(files, table, initialDefinitions, config, s0, s1, f);
      StepClaims(files, table, initialDefinitions, config, s0, s1);
    }

    /** The worker loop: processes files until the queue is empty. */
    method Run()
      requires Valid() && Processed()
      modifies this
      ensures Valid() && Processed() && workQueue == []
      ensures old(processed + workQueue) <= processed
    {
      ghost var start := processed + workQueue;
      assert InFiles(files, start);
      DistinctBounded(start, |files|);
      while workQueue != []
        invariant Valid() && Processed()
        invariant start <= processed + workQueue && |processed| <= |files|
        decreases |files| - |processed|
      {
        Round(start);
      }
      assert processed + workQueue == processed;
    }

    /** One turn of the worker loop; the files queued at `start` stay a prefix of the work order. */
    method Round(ghost start: seq<FileId>)
      requires Valid() && Processed() && workQueue != [] && start <= processed + workQueue
      modifies this
      ensures Valid() && Processed() && start <= processed + workQueue
      ensures |processed| == |old(processed)| + 1 && |processed| <= |files|
    {
      ghost var before := processed + workQueue;
      Step();
      PrefixTransitive(start, before, processed + workQueue);
      assert InFiles(files, processed + workQueue);
      DistinctBounded(processed + workQueue, |files|);
    }
  }

  // ---------------------------------------------------------------------------------------------
  // resolve_symbols_in_files

  /** The number of input objects, optional ones included. */
  function CountObjects(files: seq<InputFile>): nat {
    if files == [] then 0
    else CountObjects(files[..|files| - 1]) + if files[|files| - 1].ObjectFile? then 1 else 0
  }

  /** Linking fails for want of input exactly when there is no object at all. */
  lemma {:induction false} CountObjectsZero(files: seq<InputFile>)
    ensures CountObjects(files) == 0 <==> forall f :: 0 <= f < |files| ==> !files[f].ObjectFile?
  {
    if files != [] {
      var init := files[..|files| - 1];
      CountObjectsZero(init);
      assert forall f :: 0 <= f < |init| ==> init[f] == files[f];
    }
  }

  /** What a file resolves to before any object is loaded. */
  function Unloaded(file: InputFile): ResolvedFile {
    if file.EpilogueFile? then ResolvedEpilogue else NotLoaded
  }

  /**
   * The first pass over the inputs: every file starts out not loaded (the epilogue as itself), and
   * the non-optional objects have their slices claimed and are queued, in file order.
   */
  method ClassifyInputs(files: seq<InputFile>) returns (cells: seq<bool>, queue: seq<FileId>, numObjects: nat, resolved: seq<ResolvedFile>)
    ensures |cells| == |files| && forall f :: 0 <= f < |files| ==> (cells[f] <==> !Initial(files[f]))
    ensures InFiles(files, queue) && forall f :: 0 <= f < |files| ==> (f in queue <==> Initial(files[f]))
    ensures forall i, j :: 0 <= i < j < |queue| ==> queue[i] < queue[j]
    ensures numObjects == CountObjects(files)
    ensures |resolved| == |files| && forall f :: 0 <= f < |files| ==> resolved[f] == Unloaded(files[f])
  {
    cells, queue, numObjects, resolved := [], [], 0, [];
    var f := 0;
    while f < |files|
      invariant 0 <= f <= |files|
      invariant |cells| == f && forall g :: 0 <= g < f ==> (cells[g] <==> !Initial(files[g]))
      invariant forall k :: 0 <= k < |queue| ==> queue[k] < f
      invariant forall g :: 0 <= g < f ==> (g in queue <==> Initial(files[g]))
      invariant forall i, j :: 0 <= i < j < |queue| ==> queue[i] < queue[j]
      invariant numObjects == CountObjects(files[..f])
      invariant |resolved| == f && forall g :: 0 <= g < f ==> resolved[g] == Unloaded(files[g])
    {
      assert files[..f + 1][..f] == files[..f];
      match files[f] {
        case PreludeFile =>
          cells := cells + [true];
          resolved := resolved + [NotLoaded];
        case ObjectFile(obj) =>
          if !obj.optional {
            queue := queue + [f];
            cells := cells + [false];
          } else {
            cells := cells + [true];
          }
          numObjects := numObjects + 1;
          resolved := resolved + [NotLoaded];
        case EpilogueFile =>
          cells := cells + [true];
          resolved := resolved + [ResolvedEpilogue];
      }
      f := f + 1;
    }
    assert files[..f] == files;
  }

  /** What resolution returns on success. */
  datatype ResolutionOutput = ResolutionOutput(
    resolved: seq<ResolvedFile>,
    loaded: seq<LoadedObject>,
    definitions: seq<seq<SymbolId>>,
    undefined: seq<UndefinedSymbol>)

  /** Each file is loaded exactly when it is a reached object. */
  ghost predicate ResolvedOk(files: seq<InputFile>, reached: set<FileId>, resolved: seq<ResolvedFile>) {
    && |resolved| == |files|
    && forall f :: 0 <= f < |files| ==>
         resolved[f] == if f in reached && files[f].ObjectFile? then ResolvedObject else Unloaded(files[f])
  }

  /** The loaded objects are the reached objects, each once, each with what processing it yields. */
  ghost predicate LoadedOk(files: seq<InputFile>, config: SectionConfig, reached: set<FileId>, loaded: seq<LoadedObject>) {
    && DistinctFiles(loaded)
    && (forall k :: 0 <= k < |loaded| ==>
          && loaded[k].fileId in reached && loaded[k].fileId < |files| && files[loaded[k].fileId].ObjectFile?
          && [loaded[k]] == Entry(files, config, loaded[k].fileId))
    && (forall f :: f in reached && f < |files| && files[f].ObjectFile? ==>
          exists k :: 0 <= k < |loaded| && loaded[k].fileId == f)
  }

  /** The reached objects' symbols are resolved; every other file keeps the definitions it had. */
  ghost predicate ResolvedDefinitionsOk(files: seq<InputFile>, t: SymbolTable, init: seq<seq<SymbolId>>,
                                        reached: set<FileId>, definitions: seq<seq<SymbolId>>)
    requires InputOk(files, t, init)
  {
    && |definitions| == |files|
    && forall f :: 0 <= f < |files| ==>
         definitions[f] == if f in reached && files[f].ObjectFile?
                           then SymbolsOf(files, t, init, f).definitions
                           else init[f]
  }

  /** The output for the reached files `reached`: what loading exactly their objects yields. */
  ghost predicate OutputOk(files: seq<InputFile>, t: SymbolTable, init: seq<seq<SymbolId>>, config: SectionConfig,
                           reached: set<FileId>, out: ResolutionOutput)
    requires InputOk(files, t, init)
  {
    && ResolvedOk(files, reached, out.resolved)
    && LoadedOk(files, config, reached, out.loaded)
    && ResolvedDefinitionsOk(files, t, init, reached, out.definitions)
    && out.undefined == UndefinedOf(files, t, init, config, out.loaded)
  }

  /** The files of a sequence, as a set. */
  ghost function Members(p: seq<FileId>): set<FileId> {
    set f | f in p
  }

  /** Once the queue is empty, the processed files are the least closed set. */
  lemma FinishedReach(files: seq<InputFile>, t: SymbolTable, init: seq<seq<SymbolId>>, config: SectionConfig, s: WorkState)
    requires InputOk(files, t, init) && WorkOk(files, s) && ReachedOk(files, t, init, config, s) && s.queue == []
    ensures LeastClosed(files, t, init, config, Members(s.processed))
  {
    var reached := Members(s.processed);
    assert s.processed + s.queue == s.processed;
    forall g, h | g in reached && g < |files| && Resolves(files[g], config) && h in SymbolsOf(files, t, init, g).requests
      ensures h in reached
    {
      var k :| 0 <= k < |SymbolsOf(files, t, init, g).requests| && SymbolsOf(files, t, init, g).requests[k] == h;
      assert !s.cells[h];
    }
  }

  /** Once the queue is empty, the first error is that of some processed file, and there is one if any has one. */
  lemma FinishedErrors(files: seq<InputFile>, t: SymbolTable, init: seq<seq<SymbolId>>, config: SectionConfig, s: WorkState)
    requires InputOk(files, t, init) && WorkOk(files, s) && ReachedOk(files, t, init, config, s)
    ensures forall f :: f in Members(s.processed) ==> f < |files|
    ensures s.firstError.None? <==> forall f :: f in Members(s.processed) ==> ErrorOf(files[f], config).None?
    ensures s.firstError.Some? ==> exists f :: f in Members(s.processed) && ErrorOf(files[f], config) == s.firstError
  {
    if s.firstError.Some? {
      var k :| 0 <= k < |s.processed| && ErrorOf(files[s.processed[k]], config) == s.firstError;
      assert s.processed[k] in Members(s.processed);
    }
  }

  /** Without errors, every processed object resolves. */
  lemma FinishedResolves(files: seq<InputFile>, t: SymbolTable, init: seq<seq<SymbolId>>, config: SectionConfig, s: WorkState)
    requires InputOk(files, t, init) && WorkOk(files, s) && ReachedOk(files, t, init, config, s) && s.firstError.None?
    ensures forall f :: f in s.processed && files[f].ObjectFile? ==> Resolves(files[f], config)
  {
    FinishedErrors(files, t, init, config, s);
  }

  /** Once the queue is empty and there is no error, the loaded objects are the reached ones. */
  lemma FinishedLoaded(files: seq<InputFile>, t: SymbolTable, init: seq<seq<SymbolId>>, config: SectionConfig, s: WorkState)
    requires InputOk(files, t, init) && WorkOk(files, s) && ReachedOk(files, t, init, config, s) && s.queue == []
    requires s.firstError.None?
    ensures LoadedOk(files, config, Members(s.processed), s.loaded)
    ensures ResolvedDefinitionsOk(files, t, init, Members(s.processed), s.definitions)
  {
    FinishedLoadedObjects(files, t, init, config, s);
    FinishedDefinitions(files, t, init, config, s);
  }

  lemma FinishedLoadedObjects(files: seq<InputFile>, t: SymbolTable, init: seq<seq<SymbolId>>, config: SectionConfig, s: WorkState)
    requires InputOk(files, t, init) && WorkOk(files, s) && ReachedOk(files, t, init, config, s) && s.queue == []
    requires s.firstError.None?
    ensures LoadedOk(files, config, Members(s.processed), s.loaded)
  {
    assert s.processed + s.queue == s.processed;
    FinishedResolves(files, t, init, config, s);
    LoadedOfOk(files, config, s.processed);
  }

  /** Loading each of distinct files whose objects all resolve loads each of their objects once. */
  lemma LoadedOfOk(files: seq<InputFile>, config: SectionConfig, p: seq<FileId>)
    requires InFiles(files, p) && NoDuplicates(p)
    requires forall f :: f in p && files[f].ObjectFile? ==> Resolves(files[f], config)
    ensures LoadedOk(files, config, Members(p), LoadedOf(files, config, p))
  {
    LoadedOfDistinct(files, config, p);
    LoadedOfComplete(files, config, p);
  }

  lemma FinishedDefinitions(files: seq<InputFile>, t: SymbolTable, init: seq<seq<SymbolId>>, config: SectionConfig, s: WorkState)
    requires InputOk(files, t, init) && WorkOk(files, s) && ReachedOk(files, t, init, config, s)
    requires s.firstError.None?
    ensures ResolvedDefinitionsOk(files, t, init, Members(s.processed), s.definitions)
  {
    FinishedResolves(files, t, init, config, s);
  }

  /** Records each loaded object in the per-file results, which are otherwise left as they were. */
  method MarkLoaded(base: seq<ResolvedFile>, loaded: seq<LoadedObject>) returns (resolved: seq<ResolvedFile>)
    requires forall k :: 0 <= k < |loaded| ==> loaded[k].fileId < |base|
    ensures |resolved| == |base|
    ensures forall f :: 0 <= f < |base| ==>
              resolved[f] == if exists k :: 0 <= k < |loaded| && loaded[k].fileId == f then ResolvedObject else base[f]
  {
    resolved := base;
    var k := 0;
    while k < |loaded|
      invariant 0 <= k <= |loaded| && |resolved| == |base|
      invariant forall f :: 0 <= f < |base| ==>
                  resolved[f] == if exists j :: 0 <= j < k && loaded[j].fileId == f then ResolvedObject else base[f]
    {
      resolved := resolved[loaded[k].fileId := ResolvedObject];
      k := k + 1;
    }
  }

  /** Marking the loaded objects in the per-file results marks exactly the reached objects. */
  lemma FinishedResolved(files: seq<InputFile>, config: SectionConfig, reached: set<FileId>, loaded: seq<LoadedObject>,
                         resolved: seq<ResolvedFile>)
    requires LoadedOk(files, config, reached, loaded) && |resolved| == |files|
    requires forall f :: 0 <= f < |files| ==>
               resolved[f] == if exists k :: 0 <= k < |loaded| && loaded[k].fileId == f
                              then ResolvedObject else Unloaded(files[f])
    ensures ResolvedOk(files, reached, resolved)
  {
  }

  /**
   * resolve_symbols_in_files: starting from the non-optional objects, loads every object that a
   * loaded object needs, resolving the symbols of each. `reached` is the set of files processed.
   */
  method ResolveSymbolsInFiles(files: seq<InputFile>, table: SymbolTable, config: SectionConfig, init: seq<seq<SymbolId>>)
    returns (r: Result<ResolutionOutput, Error>, ghost reached: set<FileId>)
    requires InputOk(files, table, init)
    ensures LeastClosed(files, table, init, config, reached)
    ensures CountObjects(files) == 0 ==> r == Err(NoInputFiles)
    ensures CountObjects(files) != 0 ==> (r.Ok? <==> forall f :: f in reached ==> ErrorOf(files[f], config).None?)
    ensures CountObjects(files) != 0 && r.Err? ==> exists f :: f in reached && ErrorOf(files[f], config) == Some(r.error)
    ensures r.Ok? ==> OutputOk(files, table, init, config, reached, r.value)
  {
    var cells, queue, numObjects, resolved := ClassifyInputs(files);
    if numObjects == 0 {
      CountObjectsZero(files);
      reached := {};
      return Err(NoInputFiles), reached;
    }
    forall i, j | 0 <= i < j < |queue|
      ensures queue[i] != queue[j]
    {
    }
    var resources := new ResolutionResources(files, table, config, init, cells, queue);
    resources.Run();
    r, reached := FinishResolution(files, table, config, init, resolved, resources.firstError, resources.loaded,
                                   resources.definitions, resources.undefinedSymbols, resources.State());
  }

  /** The end of resolve_symbols_in_files, once the worklist is empty: the first error, or the output. */
  method FinishResolution(files: seq<InputFile>, table: SymbolTable, config: SectionConfig, init: seq<seq<SymbolId>>,
                          resolved: seq<ResolvedFile>, firstError: Option<Error>, loaded: seq<LoadedObject>,
                          definitions: seq<seq<SymbolId>>, undefinedSymbols: seq<UndefinedSymbol>, ghost s: WorkState)
    returns (r: Result<ResolutionOutput, Error>, ghost reached: set<FileId>)
    requires InputOk(files, table, init) && WorkOk(files, s) && ReachedOk(files, table, init, config, s) && s.queue == []
    requires s.firstError == firstError && s.loaded == loaded && s.definitions == definitions
    requires s.undefined == undefinedSymbols
    requires |resolved| == |files| && forall f :: 0 <= f < |files| ==> resolved[f] == Unloaded(files[f])
    ensures LeastClosed(files, table, init, config, reached)
    ensures r.Ok? <==> forall f :: f in reached ==> ErrorOf(files[f], config).None?
    ensures r.Err? ==> exists f :: f in reached && ErrorOf(files[f], config) == Some(r.error)
    ensures r.Ok? ==> OutputOk(files, table, init, config, reached, r.value)
  {
    FinishedReach(files, table, init, config, s);
    FinishedErrors(files, table, init, config, s);
    reached := Members(s.processed);
    if firstError.Some? {
      return Err(firstError.value), reached;
    }
    FinishedLoaded(files, table, init, config, s);
    var marked := MarkLoaded(resolved, loaded);
    FinishedResolved(files, config, reached, loaded, marked);
    var out := ResolutionOutput(marked, loaded, definitions, undefinedSymbols);
    return Ok(out), reached;
  }

  /**
   * The point of the worklist: when a reached object makes a strong reference to a name that
   * another file defines, that file is reached too, so an archive member is loaded whenever a
   * loaded object needs one of its symbols.
   */
  lemma StrongReferencesAreReached(files: seq<InputFile>, t: SymbolTable, init: seq<seq<SymbolId>>, config: SectionConfig,
                                   reached: set<FileId>, g: FileId, k: nat)
    requires InputOk(files, t, init) && LeastClosed(files, t, init, config, reached)
    requires g in reached && g < |files| && Resolves(files[g], config) && 0 < k < |init[g]|
    requires init[g][k] == UNDEFINED_SYMBOL
    requires var sym := files[g].obj.symbols[k];
             && sym.name in t.globalNames && !sym.weak && t.symbolFile[t.globalNames[sym.name]] != g
    ensures t.symbolFile[t.globalNames[files[g].obj.symbols[k].name]] in reached
  {
    var obj := files[g].obj;
    var h := t.symbolFile[t.globalNames[obj.symbols[k].name]];
    assert ResolveSymbol(obj, g, k, init[g][k], t).request == Some(h);
    RequestsAreReferences(obj, g, init[g], t, |init[g]|);
    assert h in SymbolsOf(files, t, init, g).requests;
  }
}
