# Symbol resolution and output-section part maps of the wild linker

This project models, in Dafny, two pieces of the `wild` ELF linker.

**Symbol resolution** (`wild_lib/src/resolution.rs`) decides which input files are loaded and which definition each symbol uses. The model covers these steps:
- The queue starts with the objects that are not archive members. The prelude, the epilogue and the archive members are not queued at the start. A strong reference to a symbol one of them owns queues it; processing the prelude or the epilogue does nothing.
- It works through a queue of files. Each object's global symbols are resolved against the symbol table.
- Resolving an undefined reference requests the file that defines the symbol. A file enters the queue at most once, because requesting it takes its definitions cell.
- References that nothing defines are recorded as undefined symbols.
- Each loaded object's sections are classified into section slots. String-merge sections are split into null-terminated strings and bucketed by hash.
- Undefined symbols are canonicalised. `__start_`/`__stop_` symbols of custom sections are given new synthetic symbols.
- Symbols with several definitions get a single winner, chosen by strength:
  - a strong first definition wins; otherwise the strong eligible alternative scanned first (from the last alternative back) wins
  - otherwise the largest common eligible alternative wins
  - otherwise the first definition, unless it is undefined; then the last alternative that is not undefined
  - as written, a common first definition takes no part in the size comparison (see "## Findings"); the model's chain resolution uses the corrected choice, which keeps a common first definition larger than the winning alternative
- The per-bucket string tables of a merged string section assign each distinct string one offset. The buckets are laid out one after the other.

**The output-section part map** (`src/output_section_part_map.rs`) holds one value per part of every output section:
- Each generated section (file headers, `.shstrtab`, `.symtab`, `.strtab`, `.got`, `.plt`, `.rela.plt`) has fixed parts.
- Each other ("regular") section has one value per alignment.

The map is sized, resized, merged part by part, and zipped with another map. It can be walked in output order or flattened into one value per section.

Modules, one per file:
- `Wrappers`: `Option` and `Result`.
- `LinkTypes`: ids, names, errors and sequence helpers.
- `ValueFlagsModel`: `ValueFlags::merge`.
- `MergeStrings`: `take_hashed`, `UnresolvedMergeStringsFileSection::new`, `MergeStringsSectionBucket`, `MergeStringsSection`.
- `SectionSlots`: `SectionSlot`, `resolve_sections`.
- `SymbolSelection`: `symbol_strength`, `select_symbol`.
- `SymbolDatabase`: the symbol database and `resolve_alternative_symbol_definitions`.
- `Canonicalise`: `canonicalise_undefined_symbols`, `allocate_start_stop_symbol_id`.
- `SymbolResolver`: `resolve_symbol`, `ResolvedObject::new`, `process_object`, `request_file_id`, `resolve_symbols_in_files`.
- `OutputSectionPartMaps`: the part map.

Stateful parts of the source are classes whose methods are proved against specification functions:
- the work queue with its definitions cells
- the string-merge buckets
- the symbol database
- the part map that `merge` and `resize` update in place

Pure parts are functions with lemmas.

Several values come from outside these two files; the model assumes them or takes them as parameters:
- **Generated section ids.** HEADERS=0, SHSTRTAB=1, SYMTAB=2, STRTAB=3, GOT=4, PLT=5 and RELA_PLT=6, with NUM_GENERATED_SECTIONS = 7. These follow from the order that `merge_parts` asserts.
- **Alignments.** Alignments are exponents `0..16` (NUM_ALIGNMENTS = 17), and the default alignment is exponent 0.
- **Parameters.** Section minimum alignments, the ids of the built-in regular sections, the hash function and the input files' parsed contents are all parameters.

## Model

| member | source | states |
|---|---|---|
| ValueFlagsModel.Merge | wild_lib/src/resolution.rs:1119-1123 | the merged flags carry CAN_BYPASS_GOT iff either side does; every other flag is exactly the receiver's; no flag of the receiver is lost |
| ValueFlagsModel.MergeIdempotent | wild_lib/src/resolution.rs:1119-1123 | merging the same flags twice is the same as merging them once |
| ValueFlagsModel.MergeKeepsOtherFlags | wild_lib/src/resolution.rs:1119-1123 | for any flag other than CAN_BYPASS_GOT, the merge contains it iff the receiver did |
| MergeStrings.FirstNull | wild_lib/src/resolution.rs:1060-1063 | no position iff the input has no null byte, otherwise the position of the first null |
| MergeStrings.TakeHashed | wild_lib/src/resolution.rs:1060-1068 | fails with a not-null-terminated error iff the input has no null byte; otherwise takes exactly the bytes up to and including the first null, hashes them, and leaves the rest |
| MergeStrings.SplitAtNullsPartitions | wild_lib/src/resolution.rs:1039-1068 | splitting section data succeeds iff it is empty or ends in a null; the pieces are null-terminated and concatenate back to the data |
| MergeStrings.BucketOf | wild_lib/src/resolution.rs:1049 | the bucket index, hash modulo 32, is below MERGE_STRING_BUCKETS |
| MergeStrings.InBucketMembership | wild_lib/src/resolution.rs:1047-1050 | a string is in bucket b iff it was among the split strings and its hash selects b |
| MergeStrings.UnresolvedMergeStringsFileSection.New | wild_lib/src/resolution.rs:1039-1055 | succeeds iff the section data splits at nulls; then each bucket holds, in input order, the strings whose hash selects it |
| MergeStrings.MergeStringsSectionBucket.AddString | wild_lib/src/resolution.rs:502-511 | a string already present returns its recorded offset and is not stored again; a new one is appended at the current end, which then grows by its length; the statistics always count it |
| MergeStrings.MergeStringsSectionBucket.AddStrings | wild_lib/src/resolution.rs:605-609 | the bucket's strings become the old ones followed by the new distinct ones, in first-seen order |
| MergeStrings.DedupOntoContents | wild_lib/src/resolution.rs:502-511 | adding strings keeps the bucket free of duplicates, keeps every earlier string at its place, and holds exactly the old and the added strings |
| MergeStrings.MergeStringsSectionBucket.Get | wild_lib/src/resolution.rs:513-515 | an offset is found iff the string was added |
| MergeStrings.MergeStringsSectionBucket.Len | wild_lib/src/resolution.rs:517-519 | the length is the total size of the distinct strings |
| MergeStrings.MergeStringsSectionBucket.GetLocatesString | wild_lib/src/resolution.rs:502-519 | the i-th stored string sits at the sum of the sizes of the strings before it and ends within the bucket |
| MergeStrings.MergeStringsSection.Merge | wild_lib/src/resolution.rs:596-614 | every bucket receives the strings of every input section in order, deduplicated, and the bucket offsets are then the running sums of the bucket sizes |
| MergeStrings.MergeStringsSection.ComputeOffsets | wild_lib/src/resolution.rs:613-616 | bucket i starts at the sum of the sizes of buckets 0..i-1 |
| MergeStrings.MergeStringsSection.Len | wild_lib/src/resolution.rs:539-542 | the section length is the sum of all bucket sizes |
| MergeStrings.MergeStringsSection.Get | wild_lib/src/resolution.rs:532-537 | an offset is found iff the string is in the bucket its hash selects |
| MergeStrings.MergeStringsSection.GetWithinSection | wild_lib/src/resolution.rs:532-542 | a string's section offset is its bucket's start plus its offset in the bucket, and the string ends within its bucket and within the section |
| SectionSlots.IsLoaded | wild_lib/src/resolution.rs:1021-1023 | a slot counts as loaded iff it is MustLoad, Loaded, EhFrameData, MergeStrings or debug info, loaded or not: false exactly for Discard and Unloaded |
| SectionSlots.ResolveSectionLoaded | wild_lib/src/resolution.rs:838-893 | after section resolution a slot counts as loaded iff the section has contents and is a string-merge or .eh_frame section, a retained section, or debug info that is not stripped |
| SectionSlots.SetPartId | wild_lib/src/resolution.rs:1025-1036 | refused exactly for the two kinds the source leaves as todo!(); otherwise the slot gets the new part id and keeps its loaded state |
| SectionSlots.SetPartIdOnlyChangesPartId | wild_lib/src/resolution.rs:1021-1036 | setting the old part id back restores the slot, and a second set overrides the first |
| SectionSlots.ResolveSections | wild_lib/src/resolution.rs:820-899 | the loop over the input sections computes the section-by-section resolution, stopping at the first error |
| SectionSlots.ResolveAllErrors | wild_lib/src/resolution.rs:820-899 | section resolution fails iff some section fails, and it then reports the error of the first failing section |
| SectionSlots.ResolveAllSlots | wild_lib/src/resolution.rs:820-899 | on success there is one slot per input section, slot i being the one computed for section i |
| SectionSlots.MergeRecordsNameMergeSlots | wild_lib/src/resolution.rs:838-862 | every recorded string-merge section names a slot that is a string-merge slot for that section |
| SectionSlots.MergeSlotsHaveRecords | wild_lib/src/resolution.rs:838-862 | every string-merge slot has its section's record |
| SectionSlots.ResolveSectionCustom | wild_lib/src/resolution.rs:863-893 | a section with a custom-section name is recorded as a custom section with its index, name, alignment, flags and type, unless it is debug info being stripped |
| SymbolSelection.StrengthOf | wild_lib/src/resolution.rs:1133-1152 | a symbol has a strength other than Undefined iff its file is a loaded object and its entry can be read |
| SymbolSelection.SelectSymbol | wild_lib/src/resolution.rs:327-374 | the loop chooses the same symbol as the specification of select_symbol |
| SymbolSelection.SelectedIsCandidate | wild_lib/src/resolution.rs:327-374 | the winner is the first definition or an alternative; a strong first definition always wins; otherwise a strong eligible alternative wins if there is one |
| SymbolSelection.SelectedUndefinedOnlyIfAllAre | wild_lib/src/resolution.rs:327-374 | the winner is undefined iff every candidate is |
| SymbolSelection.SelectedLargestCommonAlternative | wild_lib/src/resolution.rs:346-361 | with no strong candidate, the winning alternative is common and at least as large as every common eligible alternative; every common eligible alternative of larger index is strictly smaller, so ties go to the one scanned first |
| SymbolSelection.SelectedFallback | wild_lib/src/resolution.rs:362-373 | with no strong or common eligible candidate, the first definition wins unless it is undefined; then the alternative of largest index that is not undefined; if all are undefined, the first definition |
| SymbolSelection.SelectedIgnoresFirstCommonSize | wild_lib/src/resolution.rs:327-374 | as written: a first definition Common(100) loses to an alternative Common(10) |
| SymbolSelection.SelectedCorrected | wild_lib/src/resolution.rs:291-295 | the corrected choice is still a candidate |
| SymbolSelection.SelectedCorrectedPicksLargestCommon | wild_lib/src/resolution.rs:291-295 | corrected: with no strong candidate the winner is common and at least as large as every common candidate, the first definition included |
| SymbolSelection.SelectSymbolCorrected | wild_lib/src/resolution.rs:327-374 | the corrected selection loop chooses what the corrected specification chooses |
| SymbolDatabase.Walk | wild_lib/src/resolution.rs:309-316 | the walk of a symbol's alternative chain stays on defined symbol ids and starts at the symbol's first link |
| SymbolDatabase.WalkFollowsLinks | wild_lib/src/resolution.rs:309-316 | each id of the walked chain is the link of the one before it; the chain is empty exactly when the first link is undefined, and its last id links to the undefined symbol |
| SymbolDatabase.CollectAlternatives | wild_lib/src/resolution.rs:308-316 | the loop collects exactly the walked chain |
| SymbolDatabase.Repoint | wild_lib/src/resolution.rs:318-321 | every id of the chain now points at the target; every other definition is unchanged |
| SymbolDatabase.RepointEach | wild_lib/src/resolution.rs:318-321 | calling replace_definition for each id in turn gives the repointed table |
| SymbolDatabase.Winner | wild_lib/src/resolution.rs:317 | the definition selected for a chain, by the corrected selection, is one of the chain's own symbols |
| SymbolDatabase.WinnerAgainstSelectSymbol | wild_lib/src/resolution.rs:317 | the chain's winner is what select_symbol returns as written, except exactly when the first definition is common and select_symbol picks a smaller common alternative; then the first definition is kept |
| SymbolDatabase.ResolveChain | wild_lib/src/resolution.rs:308-321 | one turn of the loop points the first symbol and all its alternatives at the definition the corrected selection picks |
| SymbolDatabase.RepointChainsAt | wild_lib/src/resolution.rs:307-322 | after the chains have been processed in order, a symbol is defined by the winner of the last chain holding it, or keeps its definition when no chain holds it |
| SymbolDatabase.RepointChainsPointAtWinners | wild_lib/src/resolution.rs:307-322 | when no symbol lies on two chains, every symbol of chain k ends up defined by chain k's winner, and a symbol on no chain keeps its definition |
| SymbolDatabase.ResolveChains | wild_lib/src/resolution.rs:307-322 | the loop over the symbols with alternatives leaves the definitions table repointed chain by chain, in order, at each chain's winner |
| SymbolDatabase.SymbolDb.ReplaceDefinition | wild_lib/src/resolution.rs:318-320 | only the definition of the given symbol changes, to the given target |
| SymbolDatabase.SymbolDb.ResolveAlternativeSymbolDefinitions | wild_lib/src/resolution.rs:297-324 | the alternative lists are taken out and left empty, the symbols are unchanged, and the definitions become the old ones repointed along the old chains at their winners |
| Canonicalise.StartStopDef | wild_lib/src/resolution.rs:749-773 | a `__start_`/`__stop_` name of a known custom section yields that section's start or end; a name with neither prefix yields nothing |
| Canonicalise.StartStopDefStart | wild_lib/src/resolution.rs:756-769 | `__start_` + a custom section's name yields the section start, and an unknown section yields nothing |
| Canonicalise.StartStopDefStop | wild_lib/src/resolution.rs:756-769 | `__stop_` + a custom section's name yields the section end, and an unknown section yields nothing |
| Canonicalise.AllocateStartStopSymbolId | wild_lib/src/resolution.rs:749-773 | without a definition nothing changes; with one, a new synthetic symbol that defines itself is appended and its definition info recorded |
| Canonicalise.SortById | wild_lib/src/resolution.rs:713 | the undefined-symbol records are sorted by symbol id, and the result is a permutation of the input |
| Canonicalise.SortByIdStrict | wild_lib/src/resolution.rs:714 | records with distinct symbol ids sort into strictly increasing order |
| Canonicalise.FirstLive | wild_lib/src/resolution.rs:716-722 | finds the first live record of a name, or shows none exists |
| Canonicalise.CanonAllAddsStartStopSymbols | wild_lib/src/resolution.rs:716-746 | canonicalising only appends symbols and definition infos; each appended symbol is a synthetic one that defines itself, with the start/stop info of its name |
| Canonicalise.CanonAllNames | wild_lib/src/resolution.rs:716-746 | a name gets a canonical id iff some live record has it. A plain name's id is the symbol of its first live record, the smallest on sorted records; a start/stop name's id is a new symbol of that name |
| Canonicalise.CanonAllDefinitions | wild_lib/src/resolution.rs:716-746 | every live record's symbol is defined by its name's canonical id; a symbol no live record names keeps its definition |
| Canonicalise.CanonicaliseUndefinedSymbols | wild_lib/src/resolution.rs:702-747 | the symbol database and the start/stop definition infos end as the specification of canonicalisation computes, the alternatives untouched |
| SymbolResolver.ResolveSymbol | wild_lib/src/resolution.rs:951-1001 | an already-defined symbol or local index 0 is left alone. Otherwise a known name takes the global definition; a strong reference to a symbol in another file requests that file; a weak or same-file reference to a name owned outside the prelude leaves a record naming the owner, and one owned by the prelude leaves nothing; an unknown name stays undefined, requests nothing and is recorded without an owner, weak or not |
| SymbolResolver.ResolveSymbolSettles | wild_lib/src/resolution.rs:951-1001 | resolving a symbol again changes nothing |
| SymbolResolver.ResolvedDefinitions | wild_lib/src/resolution.rs:901-924 | after the first n symbols, each of them has the definition resolving it alone yields |
| SymbolResolver.RequestsAreReferences | wild_lib/src/resolution.rs:901-1001 | a file is requested iff some undefined strong non-local reference names a global symbol owned by that other file |
| SymbolResolver.RecordsAreReferences | wild_lib/src/resolution.rs:976-998 | a file's undefined-symbol records are exactly the records its symbols leave, one per symbol at most, in symbol order with increasing ids inside the file's id range |
| SymbolResolver.EnqueueClaims | wild_lib/src/resolution.rs:272-288 | after requests every requested cell is taken and taken cells stay taken; the queue only grows, by requested files whose cells were still present, each at most once |
| SymbolResolver.ErrorOf | wild_lib/src/resolution.rs:672-691 | processing a file fails iff it is an object whose sections do not resolve |
| SymbolResolver.LoadedOf | wild_lib/src/resolution.rs:672-691 | every loaded entry is an object that was processed and whose sections resolve |
| SymbolResolver.FirstErrorOf | wild_lib/src/resolution.rs:208-211 | there is no error iff no processed file fails, and a reported error is one of theirs |
| SymbolResolver.LoadedOfDistinct | wild_lib/src/resolution.rs:672-691 | no file is loaded twice when none is processed twice |
| SymbolResolver.LoadedOfComplete | wild_lib/src/resolution.rs:672-691 | every processed object whose sections resolve is loaded |
| SymbolResolver.LeastClosedUnique | wild_lib/src/resolution.rs:98-256 | the set of loaded files is uniquely determined: the least set containing the initial files and closed under requests |
| SymbolResolver.ResolutionResources.ResolveSymbols | wild_lib/src/resolution.rs:901-924 | resolving an object's symbols updates its definitions, undefined records and the queue as the symbol-by-symbol specification says |
| SymbolResolver.ResolutionResources.ProcessObject | wild_lib/src/resolution.rs:672-691 | a resolving object is loaded and its symbols resolved; a failing one records the error if it is the first; other files change nothing |
| SymbolResolver.ResolutionResources.Step | wild_lib/src/resolution.rs:200-211 | one work item is taken from the front of the queue and processed, keeping the worklist invariants |
| SymbolResolver.ResolutionResources.Run | wild_lib/src/resolution.rs:198-246 | the queue is drained with every invariant kept, so nothing is processed twice |
| SymbolResolver.CountObjectsZero | wild_lib/src/resolution.rs:155-173 | there are no objects iff no input file is an object |
| SymbolResolver.ClassifyInputs | wild_lib/src/resolution.rs:122-172 | exactly the initial files are queued, in file order, with their cells taken; the object count is the number of objects; every file starts in its unloaded state |
| SymbolResolver.MarkLoaded | wild_lib/src/resolution.rs:248-252 | each loaded object's slot becomes that object; every other slot is unchanged |
| SymbolResolver.FinishResolution | wild_lib/src/resolution.rs:242-255 | once the queue is empty, the reached set is the least closed set; a pending error is returned and belongs to a reached file; otherwise every reached object is recorded as loaded with its definitions and undefined records |
| SymbolResolver.ResolveSymbolsInFiles | wild_lib/src/resolution.rs:98-256 | no objects is an error. Otherwise resolution succeeds iff no reached file fails, a reported error belongs to a reached file, and the reached set is the least closed set. On success the output records exactly the reached objects with their resolved definitions and undefined records |
| SymbolResolver.StrongReferencesAreReached | wild_lib/src/resolution.rs:962-979 | an undefined strong reference to a symbol owned by another file brings that file into the reached set |
| OutputSectionPartMaps.WithSize | src/output_section_part_map.rs:28-42 | a map of `size` sections with every part default-valued |
| OutputSectionPartMaps.SetRegularOnlyChangesThatPart | src/output_section_part_map.rs:162-173 | writing regular section `id` at alignment `a` changes that one value and nothing else |
| OutputSectionPartMaps.BuiltInPartsInTheirSection | src/output_section_part_map.rs:246-260 | each built-in part is among the parts of its own generated section |
| OutputSectionPartMaps.HeadersOnlySums | src/output_section_part_map.rs:300-316 | a map holding 42 only in the file headers sums to 42 for HEADERS and 0 for every other section |
| OutputSectionPartMaps.MaxNonDefault | src/output_section_part_map.rs:222-226 | the highest alignment whose value is not the default, or none when all are default |
| OutputSectionPartMaps.ClampedAlignment | src/output_section_part_map.rs:234 | the passed alignment never exceeds the capped maximum; it is at least the section minimum and the alignment itself when the maximum allows |
| OutputSectionPartMaps.MapAlignmentMap | src/output_section_part_map.rs:215-242 | every entry is mapped with its alignment raised to the section minimum and capped at the highest alignment in use |
| OutputSectionPartMaps.MapAlignmentMapCapsAtLargestUsed | src/output_section_part_map.rs:215-242 | no entry is passed an alignment above the highest non-default one, which is at least every used alignment |
| OutputSectionPartMaps.EveryPartVisited | src/output_section_part_map.rs:75-146 | output order visits every built-in part |
| OutputSectionPartMaps.MapInOrder | src/output_section_part_map.rs:67-160 | visiting the parts and regular sections in a given order maps each visited built-in part with its section's minimum alignment and each visited regular section through map_alignment_map, leaves everything else default, and records the callback's section ids in visiting order |
| OutputSectionPartMaps.OutputOrderMap | src/output_section_part_map.rs:67-160 | the new map has the same number of regular sections; each built-in part is mapped with its section's minimum alignment; each regular section named by output order is mapped through map_alignment_map; the others stay default; the callback sees the ids in output order |
| OutputSectionPartMaps.MergedAdds | src/output_section_part_map.rs:271-286 | merging covers the longer of the two maps and adds them value by value, missing sections counting as default |
| OutputSectionPartMaps.MergedCommutes | src/output_section_part_map.rs:271-286 | merging is symmetric |
| OutputSectionPartMaps.MergedWithDefaults | src/output_section_part_map.rs:271-286 | merging in a default map no longer than this one changes nothing |
| OutputSectionPartMaps.MergedOnesAndTwos | src/output_section_part_map.rs:331-342 | ones merged with twos give threes |
| OutputSectionPartMaps.OutputSectionPartMap.RegularValue | src/output_section_part_map.rs:171-173 | reads regular section `id` at alignment `a` of the map's value |
| OutputSectionPartMaps.OutputSectionPartMap.SetRegularValue | src/output_section_part_map.rs:162-168 | the map becomes its old value with that one part replaced |
| OutputSectionPartMaps.OutputSectionPartMap.Resize | src/output_section_part_map.rs:209-212 | the map covers exactly `numSections` sections. Surviving alignment maps are kept, new ones are default, and the built-in parts are unchanged |
| OutputSectionPartMaps.OutputSectionPartMap.Merge | src/output_section_part_map.rs:271-286 | the map becomes the merge of its old value and `rhs` |
| OutputSectionPartMaps.OutputSectionPartMap.MergeParts | src/output_section_part_map.rs:246-267 | one value per output section, the one at index k computed from section k's parts |
| OutputSectionPartMaps.ZipWith | src/output_section_part_map.rs:178-205 | every pair of parts goes through the callback, giving this map's new value and the new map's value; regular sections pair up as far as both go, and this map's extra sections are untouched |
| OutputSectionPartMaps.OutputSectionPartMap.MutWithMap | src/output_section_part_map.rs:178-205 | the map and the returned map are the two halves of the zip of the old map with `other` |
| OutputSectionPartMaps.AddingTwosIntoOnes | src/output_section_part_map.rs:318-329 | adding twos into ones leaves threes |

## Left out

- Concurrency: the thread pool, the parking of idle threads and the concurrent queues are not modelled. The work queue is sequential and first in, first out. The error kept is the first error in that processing order, whereas the source keeps whichever error its one-slot queue received first. Processing continues after an error, as in the source.
- The definitions cells are modelled as one flag per file; the model does not move slices between threads.
- Groups and archive members are flattened into one file index. The prelude comes first and the epilogue marks the end.
- ELF parsing is left out. Objects arrive parsed, as parameters: symbol entries, names, flags and section data. Reading errors other than missing sections are not modelled.
- Hashing: `hash_bytes` is a parameter, and the model does not compute the hash.
- Integer widths: offsets, sizes and part-map values are unbounded naturals, so u64/usize overflow is not modelled.
- Logging, tracing, timing and the Display implementations are left out.
- The gathering of string lists per output section in `merge_strings` (wild_lib/src/resolution.rs:567-594) is left out. Its result is the `lists` parameter of MergeStringsSection.Merge, and the totals used for statistics are not modelled.
- `assign_section_ids`, `resolve_symbols_and_sections` and the eh_frame handling are outside this model. `resolve_dynamic_symbols` runs the same loop as `resolve_symbols`, so for a shared object ProcessObject uses ResolveSymbols.
- SymbolResolver.ResolveSymbolsUpTo: its own contract states only the shape. What it computes is stated by ResolvedDefinitions, RequestsAreReferences and RecordsAreReferences.
- `CUSTOM_PLACEHOLDER`: its value is not available, so it is a constructor of `PartId`.
- `todo!()` in `set_part_id` becomes a refusal (`None`).
- NUM_ALIGNMENTS, `Alignment::default` and `OutputSectionId::min_alignment`: their definitions are not part of this model. The model uses 17 alignment exponents, default exponent 0, and takes the minimum alignment as a parameter.
- `AlignmentMap::merge`: not part of this model; it is taken as adding alignment by alignment.
- OutputSectionPartMaps.OutputOrderMap: the callback is a pure function. A callback with state sees the same calls, and the model returns the section ids passed to it in call order. It does not return the alignments in call order.
- The ids of the built-in regular sections (`.rodata`, `.text`, `.data` and the others) are parameters. `OutputSections` is reduced to those ids and the custom section lists.
- `map` (src/output_section_part_map.rs:54-64) is output_order_map with the alignment dropped, and is not modelled separately.
- SymbolDatabase.ChainsWellFormed: the alternative chains are assumed to end in UNDEFINED_SYMBOL within as many steps as there are symbols, so they have no cycle. The symbol database builds them that way outside this model; on a cycle the loop at wild_lib/src/resolution.rs:309-315 would not end.
- SymbolDatabase.Winner: it uses the corrected selection (SymbolSelection.SelectedCorrected), not select_symbol as written. The two differ only in the case of "## Findings", as SymbolDatabase.WinnerAgainstSelectSymbol states.
- SymbolDatabase.ResolveChain: it calls SymbolSelection.SelectSymbolCorrected where the source calls select_symbol as written; the result differs only as SymbolDatabase.WinnerAgainstSelectSymbol states.
- SymbolDatabase.RepointChainsAt: its winners are the corrected ones (SymbolDatabase.Winner), not select_symbol's as written.
- SymbolDatabase.RepointChainsPointAtWinners: its winners are the corrected ones, not select_symbol's as written.
- SymbolDatabase.ResolveChains: the table is repointed at the corrected winners, not at select_symbol's as written.
- SymbolDatabase.SymbolDb.ResolveAlternativeSymbolDefinitions: the new definitions use the corrected winners, not select_symbol's as written.
- Panics are not modelled. The `debug_assert_bail!` that only global symbols are undefined and the `assert!` that an undefined symbol is not a definition (wild_lib/src/resolution.rs:965-970) check facts about the symbol table that the model's symbols do not carry.
- OutputSectionPartMaps.WithSize and OutputSectionPartMaps.OutputSectionPartMap.Resize require at least NUM_GENERATED_SECTIONS sections; below that the source's `size - NUM_GENERATED_SECTIONS` underflows, which panics in a debug build.
- `prelude.unwrap()` (wild_lib/src/resolution.rs:254) panics when no prelude was seen; the model does not return the prelude, so that panic is not modelled.
- SymbolDatabase.SymbolDb.ResolveAlternativeSymbolDefinitions: the loop runs on a copy of the definitions table, which is stored back once at the end, rather than calling `replace_definition` on the database for each symbol; the result is the same.
- `take_mut` (src/output_section_part_map.rs:289-297) splits byte buffers by part size and is left out.
- OutputSectionPartMaps.OutputSectionPartMap: the class holds counts (naturals). Other element types appear only as values of the datatype `PartMap`.

## Findings

| source | as written | input that shows it | evidently intended | confidence | as-written member | corrected member |
|---|---|---|---|---|---|---|
| wild_lib/src/resolution.rs:327-374 | when the first definition is common, its size takes no part in the comparison: any common eligible alternative replaces it, however small | the first definition is Common(100) in a loaded object and one alternative is Common(10): the alternative wins | the documentation at wild_lib/src/resolution.rs:291-295 says the largest common definition is used, so Common(100) should be kept | not executed | SymbolSelection.SelectedIgnoresFirstCommonSize | SymbolSelection.SelectedCorrectedPicksLargestCommon |
