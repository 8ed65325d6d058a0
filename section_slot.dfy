/**
 * Section slots: for each input section of a non-dynamic object, the decision taken during
 * resolution about whether and how it will be loaded (resolve_sections), and the two queries
 * and the one update that later passes make on a slot.
 */
module SectionSlots {
  import opened Wrappers
  import opened LinkTypes
  import opened MergeStrings

  /** Where an input section's contents go in the output; a placeholder until custom sections get ids. */
  datatype PartId = CustomPlaceholder | Part(index: nat)

  /** A loaded section as the layout sees it; only its part id is relevant to resolution. */
  datatype LayoutSection = LayoutSection(partId: PartId, size: nat)

  datatype MergeStringsFileSection = MergeStringsFileSection(partId: PartId, sectionData: seq<byte>)

  /** A section, and whether it has been, will be, may be or won't be loaded. */
  datatype SectionSlot =
    | Discard
    | Unloaded(partId: PartId)
    | MustLoad(partId: PartId)
    | Loaded(section: LayoutSection)
    | EhFrameData(sectionIndex: nat)
    | MergeStrings(merge: MergeStringsFileSection)
    | UnloadedDebugInfo(partId: PartId)
    | LoadedDebugInfo(section: LayoutSection)

  /**
   * SectionSlot::is_loaded: everything except a discarded or a not-yet-loaded section. Debug
   * info counts as loaded even before it is, and so do .eh_frame and string-merge sections.
   */
  predicate IsLoaded(slot: SectionSlot): (b: bool)
    ensures b <==> slot.MustLoad? || slot.Loaded? || slot.EhFrameData? || slot.MergeStrings?
                   || slot.UnloadedDebugInfo? || slot.LoadedDebugInfo?
  {
    !(slot.Discard? || slot.Unloaded?)
  }

  /** The part id a slot carries, if it carries one. */
  function PartIdOf(slot: SectionSlot): Option<PartId> {
    match slot
    case Discard => None
    case Unloaded(p) => Some(p)
    case MustLoad(p) => Some(p)
    case Loaded(s) => Some(s.partId)
    case EhFrameData(_) => None
    case MergeStrings(m) => Some(m.partId)
    case UnloadedDebugInfo(p) => Some(p)
    case LoadedDebugInfo(s) => Some(s.partId)
  }

  /**
   * SectionSlot::set_part_id: replaces the slot's part id. The source aborts (todo!) on a
   * discarded slot and on an .eh_frame slot; that outcome is None here.
   */
  function SetPartId(slot: SectionSlot, partId: PartId): (r: Option<SectionSlot>)
    ensures r.None? <==> PartIdOf(slot).None?
    ensures r.Some? ==> PartIdOf(r.value) == Some(partId) && IsLoaded(r.value) == IsLoaded(slot)
  {
    match slot
    case Discard => None
    case Unloaded(_) => Some(Unloaded(partId))
    case MustLoad(_) => Some(MustLoad(partId))
    case Loaded(s) => Some(Loaded(s.(partId := partId)))
    case EhFrameData(_) => None
    case MergeStrings(m) => Some(MergeStrings(m.(partId := partId)))
    case UnloadedDebugInfo(_) => Some(UnloadedDebugInfo(partId))
    case LoadedDebugInfo(s) => Some(LoadedDebugInfo(s.(partId := partId)))
  }

  /**
   * Setting the part id changes nothing else: putting the old one back restores the slot, and
   * setting twice is setting once.
   */
  lemma SetPartIdOnlyChangesPartId(slot: SectionSlot, p: PartId, q: PartId)
    requires SetPartId(slot, p).Some?
    ensures SetPartId(SetPartId(slot, p).value, PartIdOf(slot).value) == Some(slot)
    ensures SetPartId(SetPartId(slot, p).value, q) == SetPartId(slot, q)
  {
    match slot
    case Unloaded(_) =>
    case MustLoad(_) =>
    case Loaded(s) =>
    case MergeStrings(m) =>
    case UnloadedDebugInfo(_) =>
    case LoadedDebugInfo(s) =>
  }

  /** The section's header flags, as raw bits. */
  datatype SectionFlags = SectionFlags(bits: nat)

  /** SHF_GNU_RETAIN, the ELF flag a section carries when it must survive garbage collection. */
  const SHF_GNU_RETAIN: nat := 0x20_0000

  predicate ShouldRetain(flags: SectionFlags) {
    (flags.bits / SHF_GNU_RETAIN) % 2 == 1
  }

  /** What an input section was classified as when the object was parsed. */
  datatype TemporaryPartId =
    | Custom(name: Name, alignment: nat)
    | BuiltIn(part: PartId)
    | EhFrameDataPart

  /** A section that may be loaded, as produced from its header by the parsing stage. */
  datatype UnloadedSection = UnloadedSection(partId: TemporaryPartId, isStringMerge: bool)

  /**
   * An input section as resolution sees it: the outcome of classifying its header (an error,
   * nothing to load, or a loadable section), its flags and type, and its data or the error
   * reading it.
   */
  datatype InputSection = InputSection(
    fromSection: Result<Option<UnloadedSection>, Error>,
    flags: SectionFlags,
    sectionType: nat,
    data: Result<seq<byte>, Error>)

  /** A custom section defined by an object, recorded so that it can be given an output section. */
  datatype CustomSectionDetails = CustomSectionDetails(
    name: Name,
    alignment: nat,
    flags: SectionFlags,
    sectionType: nat,
    index: nat)

  /** ".debug_" */
  const DEBUG_PREFIX: Name := [46, 100, 101, 98, 117, 103, 95]

  /** The configuration resolve_sections reads. */
  datatype SectionConfig = SectionConfig(
    stripDebug: bool,
    /** The built-in details' flags of the output section a built-in part belongs to. */
    builtInFlags: PartId -> SectionFlags,
    hashBytes: seq<byte> -> nat)

  /** The slot, custom-section record and string-merge record one input section yields. */
  datatype SectionOutcome = SectionOutcome(
    slot: SectionSlot,
    custom: Option<CustomSectionDetails>,
    merge: Option<UnresolvedMergeStringsFileSection>)

  /** The slot of a loadable section that is not a string-merge section. */
  function PlainSlot(u: UnloadedSection, flags: SectionFlags, config: SectionConfig, index: nat): SectionSlot {
    match u.partId
    case BuiltIn(id) => if ShouldRetain(config.builtInFlags(id)) then MustLoad(id) else Unloaded(id)
    case Custom(name, _) =>
      if StartsWith(name, DEBUG_PREFIX) then
        if config.stripDebug then Discard else UnloadedDebugInfo(CustomPlaceholder)
      else if ShouldRetain(flags) then MustLoad(CustomPlaceholder)
      else Unloaded(CustomPlaceholder)
    case EhFrameDataPart => EhFrameData(index)
  }

  /** The part id a loadable section starts out with: its built-in part, or the placeholder. */
  function InitialPartId(u: UnloadedSection): PartId {
    if u.partId.BuiltIn? then u.partId.part else CustomPlaceholder
  }

  /** A custom section is recorded unless it is debug info that is being stripped. */
  function CustomRecord(u: UnloadedSection, section: InputSection, config: SectionConfig, index: nat): Option<CustomSectionDetails> {
    match u.partId
    case Custom(name, alignment) =>
      if !u.isStringMerge && StartsWith(name, DEBUG_PREFIX) && config.stripDebug then None
      else Some(CustomSectionDetails(name, alignment, section.flags, section.sectionType, index))
    case _ => None
  }

  /**
   * The body of the closure in resolve_sections for the section at `index`: the first error of
   * classifying the header, reading a string-merge section's data or splitting it into strings;
   * otherwise the section's slot and records.
   */
  function ResolveSection(section: InputSection, index: nat, config: SectionConfig): Result<SectionOutcome, Error> {
    match section.fromSection
    case Err(e) => Err(e)
    case Ok(None) => Ok(SectionOutcome(Discard, None, None))
    case Ok(Some(u)) =>
      var custom := CustomRecord(u, section, config, index);
      if u.isStringMerge then
        match section.data
        case Err(e) => Err(e)
        case Ok(data) =>
          match SplitAtNulls(data, config.hashBytes)
          case Err(e) => Err(e)
          case Ok(strings) =>
            Ok(SectionOutcome(
              MergeStrings(MergeStringsFileSection(InitialPartId(u), data)),
              custom,
              Some(UnresolvedMergeStringsFileSection(index, Bucketed(strings)))))
      else
        Ok(SectionOutcome(PlainSlot(u, section.flags, config, index), custom, None))
  }

  /** What resolve_sections returns for the object's first `n` sections, with the records it pushes. */
  datatype Resolved = Resolved(
    slots: seq<SectionSlot>,
    customs: seq<CustomSectionDetails>,
    merges: seq<UnresolvedMergeStringsFileSection>)

  function OptionToSeq<T>(o: Option<T>): seq<T> {
    if o.Some? then [o.value] else []
  }

  /** resolve_sections over the first `n` sections: stops at the first section that fails. */
  function ResolveAll(sections: seq<InputSection>, n: nat, config: SectionConfig): Result<Resolved, Error>
    requires n <= |sections|
  {
    if n == 0 then Ok(Resolved([], [], []))
    else
      match ResolveAll(sections, n - 1, config)
      case Err(e) => Err(e)
      case Ok(acc) =>
        match ResolveSection(sections[n - 1], n - 1, config)
        case Err(e) => Err(e)
        case Ok(o) => Ok(Resolved(acc.slots + [o.slot], acc.customs + OptionToSeq(o.custom), acc.merges + OptionToSeq(o.merge)))
  }

  /**
   * resolve_sections: classifies every input section of a non-dynamic object into a slot,
   * recording each custom section and each string-merge section's strings bucketed by hash.
   */
  method ResolveSections(sections: seq<InputSection>, config: SectionConfig)
    returns (r: Result<Resolved, Error>)
    ensures r == ResolveAll(sections, |sections|, config)
  {
    var slots: seq<SectionSlot> := [];
    var customs: seq<CustomSectionDetails> := [];
    var merges: seq<UnresolvedMergeStringsFileSection> := [];
    var i := 0;
    while i < |sections|
      invariant 0 <= i <= |sections|
      invariant ResolveAll(sections, i, config) == Ok(Resolved(slots, customs, merges))
    {
      var section := sections[i];
      if section.fromSection.Err? {
        ResolveAllStopsAtError(sections, i + 1, |sections|, config);
        return Err(section.fromSection.error);
      }
      var slot := Discard;
      var custom: Option<CustomSectionDetails> := None;
      var merge: Option<UnresolvedMergeStringsFileSection> := None;
      if section.fromSection.value.Some? {
        var u := section.fromSection.value.value;
        custom := CustomRecord(u, section, config, i);
        if u.isStringMerge {
          if section.data.Err? {
            ResolveAllStopsAtError(sections, i + 1, |sections|, config);
            return Err(section.data.error);
          }
          var unresolved := UnresolvedMergeStringsFileSection.New(section.data.value, i, config.hashBytes);
          if unresolved.Err? {
            ResolveAllStopsAtError(sections, i + 1, |sections|, config);
            return Err(unresolved.error);
          }
          merge := Some(unresolved.value);
          slot := MergeStrings(MergeStringsFileSection(InitialPartId(u), section.data.value));
        } else {
          slot := PlainSlot(u, section.flags, config, i);
        }
      }
      assert ResolveSection(section, i, config) == Ok(SectionOutcome(slot, custom, merge));
      slots := slots + [slot];
      customs := customs + OptionToSeq(custom);
      merges := merges + OptionToSeq(merge);
      i := i + 1;
    }
    return Ok(Resolved(slots, customs, merges));
  }

  /** No slot is loaded while resolving: loading happens later, during layout. */
  predicate FreshSlot(slot: SectionSlot) {
    !slot.Loaded? && !slot.LoadedDebugInfo?
  }

  /**
   * Resolving sections fails exactly when some section fails, and then with the error of the
   * first one that does.
   */
  lemma {:induction false} ResolveAllErrors(sections: seq<InputSection>, n: nat, config: SectionConfig)
    requires n <= |sections|
    ensures ResolveAll(sections, n, config).Err? <==> exists i :: 0 <= i < n && ResolveSection(sections[i], i, config).Err?
    ensures ResolveAll(sections, n, config).Err? ==>
              exists i :: && 0 <= i < n
                          && ResolveSection(sections[i], i, config) == Err(ResolveAll(sections, n, config).error)
                          && forall j :: 0 <= j < i ==> ResolveSection(sections[j], j, config).Ok?
  {
    if n > 0 {
      ResolveAllErrors(sections, n - 1, config);
      if ResolveAll(sections, n - 1, config).Ok? && ResolveSection(sections[n - 1], n - 1, config).Err? {
        assert forall j :: 0 <= j < n - 1 ==> ResolveSection(sections[j], j, config).Ok?;
      }
    }
  }

  /**
   * On success there is one slot per section, it is the one its own section yields, and no slot
   * starts out loaded.
   */
  lemma {:induction false} ResolveAllSlots(sections: seq<InputSection>, n: nat, config: SectionConfig)
    requires n <= |sections|
    requires ResolveAll(sections, n, config).Ok?
    ensures |ResolveAll(sections, n, config).value.slots| == n
    ensures forall i :: 0 <= i < n ==>
              && ResolveSection(sections[i], i, config).Ok?
              && ResolveAll(sections, n, config).value.slots[i] == ResolveSection(sections[i], i, config).value.slot
              && FreshSlot(ResolveAll(sections, n, config).value.slots[i])
  {
    if n > 0 {
      ResolveAllStep(sections, n, config);
      ResolveAllSlots(sections, n - 1, config);
    }
  }

  /** One step of the fold, for a successful prefix. */
  lemma ResolveAllStep(sections: seq<InputSection>, n: nat, config: SectionConfig)
    requires 0 < n <= |sections|
    requires ResolveAll(sections, n, config).Ok?
    ensures ResolveAll(sections, n - 1, config).Ok? && ResolveSection(sections[n - 1], n - 1, config).Ok?
    ensures var acc := ResolveAll(sections, n - 1, config).value;
            var o := ResolveSection(sections[n - 1], n - 1, config).value;
            ResolveAll(sections, n, config).value
              == Resolved(acc.slots + [o.slot], acc.customs + OptionToSeq(o.custom), acc.merges + OptionToSeq(o.merge))
  {
  }

  /** Once a section fails, resolving more sections keeps that error. */
  lemma {:induction false} ResolveAllStopsAtError(sections: seq<InputSection>, i: nat, n: nat, config: SectionConfig)
    requires i <= n <= |sections|
    requires ResolveAll(sections, i, config).Err?
    ensures ResolveAll(sections, n, config) == ResolveAll(sections, i, config)
    decreases n
  {
    if i < n { ResolveAllStopsAtError(sections, i, n - 1, config); }
  }

  /** A section yields a string-merge record, naming itself, exactly when its slot is MergeStrings. */
  lemma ResolveSectionMerge(section: InputSection, index: nat, config: SectionConfig)
    requires ResolveSection(section, index, config).Ok?
    ensures var o := ResolveSection(section, index, config).value;
            && (o.merge.Some? <==> o.slot.MergeStrings?)
            && (o.merge.Some? ==> o.merge.value.sectionIndex == index)
  {
  }

  /**
   * Every string-merge record names an earlier-or-equal section, in increasing order, whose slot
   * is MergeStrings (so the lookup in merge_strings never fails).
   */
  lemma {:induction false} MergeRecordsNameMergeSlots(sections: seq<InputSection>, n: nat, config: SectionConfig)
    requires n <= |sections|
    requires ResolveAll(sections, n, config).Ok?
    ensures var r := ResolveAll(sections, n, config).value;
            && |r.slots| == n
            && (forall k :: 0 <= k < |r.merges| ==> r.merges[k].sectionIndex < n && r.slots[r.merges[k].sectionIndex].MergeStrings?)
            && (forall k, l :: 0 <= k < l < |r.merges| ==> r.merges[k].sectionIndex < r.merges[l].sectionIndex)
  {
    if n > 0 {
      ResolveAllStep(sections, n, config);
      MergeRecordsNameMergeSlots(sections, n - 1, config);
      ResolveSectionMerge(sections[n - 1], n - 1, config);
      var acc := ResolveAll(sections, n - 1, config).value;
      var r := ResolveAll(sections, n, config).value;
      forall k | 0 <= k < |r.merges|
        ensures r.merges[k].sectionIndex < n && r.slots[r.merges[k].sectionIndex].MergeStrings?
      {
        if k < |acc.merges| {
          assert r.merges[k] == acc.merges[k];
          assert r.slots[acc.merges[k].sectionIndex] == acc.slots[acc.merges[k].sectionIndex];
        }
      }
      forall k, l | 0 <= k < l < |r.merges|
        ensures r.merges[k].sectionIndex < r.merges[l].sectionIndex
      {
        assert r.merges[k] == acc.merges[k];
        if l < |acc.merges| { assert r.merges[l] == acc.merges[l]; }
      }
    }
  }

  /** Every MergeStrings slot has its string-merge record. */
  lemma {:induction false} MergeSlotsHaveRecords(sections: seq<InputSection>, n: nat, config: SectionConfig)
    requires n <= |sections|
    requires ResolveAll(sections, n, config).Ok?
    ensures var r := ResolveAll(sections, n, config).value;
            && |r.slots| == n
            && forall i :: 0 <= i < n && r.slots[i].MergeStrings? ==>
                 exists k :: 0 <= k < |r.merges| && r.merges[k].sectionIndex == i
  {
    if n > 0 {
      ResolveAllStep(sections, n, config);
      MergeSlotsHaveRecords(sections, n - 1, config);
      ResolveSectionMerge(sections[n - 1], n - 1, config);
      var acc := ResolveAll(sections, n - 1, config).value;
      var r := ResolveAll(sections, n, config).value;
      forall i | 0 <= i < n && r.slots[i].MergeStrings?
        ensures exists k :: 0 <= k < |r.merges| && r.merges[k].sectionIndex == i
      {
        if i < n - 1 {
          assert acc.slots[i] == r.slots[i];
          var k :| 0 <= k < |acc.merges| && acc.merges[k].sectionIndex == i;
          assert r.merges[k] == acc.merges[k];
        } else {
          assert r.merges[|acc.merges|].sectionIndex == i;
        }
      }
    }
  }

  /**
   * A custom section is recorded, with its own index, name, alignment, flags and type, exactly when it is not debug
   * info being stripped; retained sections are never left unloaded, and stripped debug info is
   * discarded.
   */
  lemma ResolveSectionCustom(section: InputSection, index: nat, config: SectionConfig)
    requires ResolveSection(section, index, config).Ok?
    requires section.fromSection.Ok? && section.fromSection.value.Some?
    ensures var u := section.fromSection.value.value;
            var o := ResolveSection(section, index, config).value;
            && (o.custom.Some? <==>
                  u.partId.Custom? && !(!u.isStringMerge && StartsWith(u.partId.name, DEBUG_PREFIX) && config.stripDebug))
            && (o.custom.Some? ==>
                  && o.custom.value.index == index
                  && o.custom.value.name == u.partId.name
                  && o.custom.value.alignment == u.partId.alignment
                  && o.custom.value.flags == section.flags
                  && o.custom.value.sectionType == section.sectionType)
            && (!u.isStringMerge && u.partId.Custom? && StartsWith(u.partId.name, DEBUG_PREFIX) ==>
                  o.slot == (if config.stripDebug then Discard else UnloadedDebugInfo(CustomPlaceholder)))
            && (!u.isStringMerge && u.partId.Custom? && !StartsWith(u.partId.name, DEBUG_PREFIX) && ShouldRetain(section.flags) ==>
                  o.slot == MustLoad(CustomPlaceholder))
            && (!u.isStringMerge && u.partId.BuiltIn? ==>
                  o.slot == (if ShouldRetain(config.builtInFlags(u.partId.part)) then MustLoad(u.partId.part) else Unloaded(u.partId.part)))
  {
  }

  /**
   * After resolve_sections, a section counts as loaded exactly when it has something to load and
   * is a string-merge or .eh_frame section, a section that must be retained, or debug info that
   * is not being stripped.
   */
  lemma ResolveSectionLoaded(section: InputSection, index: nat, config: SectionConfig)
    requires ResolveSection(section, index, config).Ok?
    ensures var slot := ResolveSection(section, index, config).value.slot;
            IsLoaded(slot) <==>
              && section.fromSection.Ok? && section.fromSection.value.Some?
              && var u := section.fromSection.value.value;
                 || u.isStringMerge
                 || u.partId.EhFrameDataPart?
                 || (u.partId.BuiltIn? && ShouldRetain(config.builtInFlags(u.partId.part)))
                 || (u.partId.Custom? && StartsWith(u.partId.name, DEBUG_PREFIX) && !config.stripDebug)
                 || (u.partId.Custom? && !StartsWith(u.partId.name, DEBUG_PREFIX) && ShouldRetain(section.flags))
  {
  }
}
