/**
 * The per-output-section part map: a value for every part of every output section. The
 * generated sections each have fixed parts (the symbol table has a local and a global part);
 * every other ("regular") section is split by alignment.
 */
module OutputSectionPartMaps {
  import opened Wrappers
  import opened LinkTypes

  // Output section ids of the generated sections, in id order.
  const HEADERS: OutputSectionId := 0
  const SHSTRTAB: OutputSectionId := 1
  const SYMTAB: OutputSectionId := 2
  const STRTAB: OutputSectionId := 3
  const GOT: OutputSectionId := 4
  const PLT: OutputSectionId := 5
  const RELA_PLT: OutputSectionId := 6
  /** Regular sections have ids from here on; regular section `id` is at `regular[id - NUM_GENERATED_SECTIONS]`. */
  const NUM_GENERATED_SECTIONS: nat := 7

  /** Alignments are kept as exponents `0 .. NUM_ALIGNMENTS - 1`, so that ordering them orders the alignments. */
  const NUM_ALIGNMENTS: nat := 17
  /** The default alignment. */
  const DEFAULT_ALIGNMENT: nat := 0

  /** The fixed parts of the generated sections. */
  datatype BuiltInPart = FileHeaders | Got | Plt | SymtabLocals | SymtabGlobals | SymtabStrings | Shstrtab | RelaPlt

  /** The map as a value: one alignment map per regular section, and one value per built-in part. */
  datatype PartMap<T> = PartMap(
    regular: seq<seq<T>>,
    fileHeaders: T,
    got: T,
    plt: T,
    symtabLocals: T,
    symtabGlobals: T,
    symtabStrings: T,
    shstrtab: T,
    relaPlt: T)

  /** Every alignment map has one entry per alignment. */
  predicate WellFormed<T>(m: PartMap<T>) {
    forall i :: 0 <= i < |m.regular| ==> |m.regular[i]| == NUM_ALIGNMENTS
  }

  /** The output section a built-in part belongs to. */
  function SectionOf(p: BuiltInPart): OutputSectionId {
    match p
    case FileHeaders => HEADERS
    case Got => GOT
    case Plt => PLT
    case SymtabLocals => SYMTAB
    case SymtabGlobals => SYMTAB
    case SymtabStrings => STRTAB
    case Shstrtab => SHSTRTAB
    case RelaPlt => RELA_PLT
  }

  function Get<T>(m: PartMap<T>, p: BuiltInPart): T {
    match p
    case FileHeaders => m.fileHeaders
    case Got => m.got
    case Plt => m.plt
    case SymtabLocals => m.symtabLocals
    case SymtabGlobals => m.symtabGlobals
    case SymtabStrings => m.symtabStrings
    case Shstrtab => m.shstrtab
    case RelaPlt => m.relaPlt
  }

  function Set<T>(m: PartMap<T>, p: BuiltInPart, v: T): (r: PartMap<T>)
    ensures Get(r, p) == v && r.regular == m.regular
    ensures forall q :: q != p ==> Get(r, q) == Get(m, q)
  {
    match p
    case FileHeaders => m.(fileHeaders := v)
    case Got => m.(got := v)
    case Plt => m.(plt := v)
    case SymtabLocals => m.(symtabLocals := v)
    case SymtabGlobals => m.(symtabGlobals := v)
    case SymtabStrings => m.(symtabStrings := v)
    case Shstrtab => m.(shstrtab := v)
    case RelaPlt => m.(relaPlt := v)
  }

  /** len: the number of output sections the map covers. */
  function LenOf<T>(m: PartMap<T>): nat {
    |m.regular| + NUM_GENERATED_SECTIONS
  }

  function DefaultRow<T>(zero: T): (r: seq<T>)
    ensures |r| == NUM_ALIGNMENTS && forall a :: 0 <= a < NUM_ALIGNMENTS ==> r[a] == zero
  {
    seq(NUM_ALIGNMENTS, _ => zero)
  }

  /** `n` alignment maps of default values. */
  function DefaultRows<T>(n: nat, zero: T): (r: seq<seq<T>>)
    ensures |r| == n && forall i :: 0 <= i < n ==> r[i] == DefaultRow(zero)
  {
    seq(n, _ => DefaultRow(zero))
  }

  /** with_size: a map of default values covering `size` output sections. */
  function WithSize<T>(size: nat, zero: T): (m: PartMap<T>)
    requires size >= NUM_GENERATED_SECTIONS
    ensures WellFormed(m) && LenOf(m) == size
    ensures forall p :: Get(m, p) == zero
    ensures forall i, a :: 0 <= i < |m.regular| && 0 <= a < NUM_ALIGNMENTS ==> m.regular[i][a] == zero
  {
    PartMap(DefaultRows(size - NUM_GENERATED_SECTIONS, zero), zero, zero, zero, zero, zero, zero, zero, zero)
  }

  /** The value of regular section `id` at alignment `a`, as regular/regular_mut address it. */
  function Regular<T>(m: PartMap<T>, id: OutputSectionId, a: nat): (v: T)
    requires WellFormed(m) && NUM_GENERATED_SECTIONS <= id < LenOf(m) && a < NUM_ALIGNMENTS
  {
    m.regular[id - NUM_GENERATED_SECTIONS][a]
  }

  /** `m` with the value of regular section `id` at alignment `a` replaced. */
  function SetRegular<T>(m: PartMap<T>, id: OutputSectionId, a: nat, v: T): (r: PartMap<T>)
    requires WellFormed(m) && NUM_GENERATED_SECTIONS <= id < LenOf(m) && a < NUM_ALIGNMENTS
    ensures WellFormed(r) && LenOf(r) == LenOf(m)
  {
    var row := m.regular[id - NUM_GENERATED_SECTIONS][a := v];
    m.(regular := m.regular[id - NUM_GENERATED_SECTIONS := row])
  }

  /** Writing through regular_mut changes that one value and nothing else. */
  lemma SetRegularOnlyChangesThatPart<T>(m: PartMap<T>, id: OutputSectionId, a: nat, v: T)
    requires WellFormed(m) && NUM_GENERATED_SECTIONS <= id < LenOf(m) && a < NUM_ALIGNMENTS
    ensures Regular(SetRegular(m, id, a, v), id, a) == v
    ensures forall id', a' :: NUM_GENERATED_SECTIONS <= id' < LenOf(m) && 0 <= a' < NUM_ALIGNMENTS && (id', a') != (id, a) ==>
              Regular(SetRegular(m, id, a, v), id', a') == Regular(m, id', a')
    ensures forall p :: Get(SetRegular(m, id, a, v), p) == Get(m, p)
  {
  }

  // ---------------------------------------------------------------------------------------------
  // merge_parts

  /** The parts of output section `k`, in the order merge_parts hands them to its callback. */
  function PartsOf<T>(m: PartMap<T>, k: nat): seq<T>
    requires k < LenOf(m)
  {
    if k == HEADERS then [m.fileHeaders]
    else if k == SHSTRTAB then [m.shstrtab]
    else if k == SYMTAB then [m.symtabLocals, m.symtabGlobals]
    else if k == STRTAB then [m.symtabStrings]
    else if k == GOT then [m.got]
    else if k == PLT then [m.plt]
    else if k == RELA_PLT then [m.relaPlt]
    else m.regular[k - NUM_GENERATED_SECTIONS]
  }

  /** Every part lies in exactly the section it belongs to. */
  lemma BuiltInPartsInTheirSection<T>(m: PartMap<T>, p: BuiltInPart)
    ensures SectionOf(p) < NUM_GENERATED_SECTIONS
    ensures Get(m, p) in PartsOf(m, SectionOf(p))
  {
  }

  function Sum(values: seq<nat>): nat {
    if values == [] then 0 else Sum(values[..|values| - 1]) + values[|values| - 1]
  }

  lemma {:induction false} SumOfDefaults(values: seq<nat>)
    requires forall a :: 0 <= a < |values| ==> values[a] == 0
    ensures Sum(values) == 0
  {
    if values != [] {
      SumOfDefaults(values[..|values| - 1]);
    }
  }

  /**
   * The example of merge_parts with summing: a map whose only non-default value is 42 in the file
   * headers sums to 42 for HEADERS and to 0 for every other section.
   */
  lemma HeadersOnlySums(size: nat, k: nat)
    requires size >= NUM_GENERATED_SECTIONS && k < size
    ensures var m := WithSize<nat>(size, 0).(fileHeaders := 42);
            Sum(PartsOf(m, k)) == if k == HEADERS then 42 else 0
  {
    var m := WithSize<nat>(size, 0).(fileHeaders := 42);
    if k == HEADERS {
      assert [42][..0] == [];
    } else {
      SumOfDefaults(PartsOf(m, k));
    }
  }

  // ---------------------------------------------------------------------------------------------
  // map_alignment_map

  /** The largest alignment below `n` whose value is not the default, when there is one. */
  function MaxNonDefault<T(==)>(row: seq<T>, zero: T, n: nat): (r: Option<nat>)
    requires n <= |row|
    ensures r.Some? ==> r.value < n && row[r.value] != zero && forall a :: r.value < a < n ==> row[a] == zero
    ensures r.None? ==> forall a :: 0 <= a < n ==> row[a] == zero
  {
    if n == 0 then None
    else if row[n - 1] != zero then Some(n - 1)
    else MaxNonDefault(row, zero, n - 1)
  }

  /** The alignment that map_alignment_map caps every alignment of `row` at. */
  function MaxAlignment<T(==)>(row: seq<T>, zero: T): nat {
    var found := MaxNonDefault(row, zero, |row|);
    if found.Some? then found.value else DEFAULT_ALIGNMENT
  }

  /** The alignment map_alignment_map passes for alignment `a` of section `id`. */
  function ClampedAlignment(a: nat, minAlignment: nat, maxAlignment: nat): (r: nat)
    ensures r <= maxAlignment
    ensures minAlignment <= maxAlignment ==> r >= minAlignment
    ensures a <= maxAlignment ==> r >= a
    ensures r == maxAlignment || r == a || r == minAlignment
  {
    var raised := if a < minAlignment then minAlignment else a;
    if maxAlignment < raised then maxAlignment else raised
  }

  /**
   * map_alignment_map: applies `cb` to every entry of an alignment map, passing it the entry's
   * alignment raised to the section's minimum and capped at the largest alignment in use.
   */
  function MapAlignmentMap<T(==), U>(row: seq<T>, zero: T, id: OutputSectionId, minAlignment: nat,
                                     cb: (OutputSectionId, nat, T) -> U): (r: seq<U>)
    ensures |r| == |row|
    ensures forall a :: 0 <= a < |row| ==> r[a] == cb(id, ClampedAlignment(a, minAlignment, MaxAlignment(row, zero)), row[a])
  {
    var maxAlignment := MaxAlignment(row, zero);
    seq(|row|, a requires 0 <= a < |row| => cb(id, ClampedAlignment(a, minAlignment, maxAlignment), row[a]))
  }

  /** No entry is passed an alignment above that of the highest non-default entry. */
  lemma MapAlignmentMapCapsAtLargestUsed<T>(row: seq<T>, zero: T, a: nat, minAlignment: nat, b: nat)
    requires a < |row| && b < |row| && row[b] != zero
    ensures b <= MaxAlignment(row, zero)
    ensures ClampedAlignment(a, minAlignment, MaxAlignment(row, zero)) <= MaxAlignment(row, zero)
  {
  }

  // ---------------------------------------------------------------------------------------------
  // output_order_map

  /** The regular built-in sections' ids. */
  datatype RegularIds = RegularIds(
    rodata: OutputSectionId, initArray: OutputSectionId, finiArray: OutputSectionId, preinitArray: OutputSectionId,
    text: OutputSectionId, init: OutputSectionId, fini: OutputSectionId,
    data: OutputSectionId, tdata: OutputSectionId, tbss: OutputSectionId, bss: OutputSectionId)

  /** The output sections: the built-in regular ones and the custom sections of each kind. */
  datatype OutputSections = OutputSections(
    ids: RegularIds,
    roCustom: seq<OutputSectionId>,
    execCustom: seq<OutputSectionId>,
    dataCustom: seq<OutputSectionId>,
    bssCustom: seq<OutputSectionId>)

  /** A step of the walk in output order: one built-in part, or one regular section's alignment map. */
  datatype Visit = VisitPart(part: BuiltInPart) | VisitRegular(id: OutputSectionId)

  function VisitAll(ids: seq<OutputSectionId>): (r: seq<Visit>)
    ensures |r| == |ids| && forall k :: 0 <= k < |ids| ==> r[k] == VisitRegular(ids[k])
  {
    seq(|ids|, k requires 0 <= k < |ids| => VisitRegular(ids[k]))
  }

  // The parts and sections output_order_map visits before the custom sections of each kind.
  function ReadOnlyPart(s: OutputSections): seq<Visit> {
    [VisitPart(FileHeaders),
     VisitRegular(s.ids.rodata), VisitRegular(s.ids.initArray), VisitRegular(s.ids.finiArray),
     VisitRegular(s.ids.preinitArray),
     VisitPart(Shstrtab), VisitPart(SymtabLocals), VisitPart(SymtabGlobals), VisitPart(SymtabStrings),
     VisitPart(RelaPlt)]
  }
  function ExecutablePart(s: OutputSections): seq<Visit> {
    [VisitPart(Plt), VisitRegular(s.ids.text), VisitRegular(s.ids.init), VisitRegular(s.ids.fini)]
  }
  function DataPart(s: OutputSections): seq<Visit> {
    [VisitPart(Got), VisitRegular(s.ids.data)]
  }
  function BssPart(s: OutputSections): seq<Visit> {
    [VisitRegular(s.ids.tdata), VisitRegular(s.ids.tbss), VisitRegular(s.ids.bss)]
  }

  /** The order in which output_order_map visits the parts. */
  function OutputOrder(s: OutputSections): seq<Visit> {
    ReadOnlyPart(s) + VisitAll(s.roCustom)
    + ExecutablePart(s) + VisitAll(s.execCustom)
    + DataPart(s) + VisitAll(s.dataCustom)
    + BssPart(s) + VisitAll(s.bssCustom)
  }

  /** Every built-in part is visited. */
  lemma EveryPartVisited(s: OutputSections, p: BuiltInPart)
    ensures VisitPart(p) in OutputOrder(s)
  {
    var order := OutputOrder(s);
    var k := match p
      case FileHeaders => 0 case Shstrtab => 5 case SymtabLocals => 6 case SymtabGlobals => 7
      case SymtabStrings => 8 case RelaPlt => 9
      case Plt => 10 + |s.roCustom|
      case Got => 14 + |s.roCustom| + |s.execCustom|;
    assert order[k] == VisitPart(p);
  }

  /** The regular sections output_order_map visits: every id of `visits` that is a VisitRegular. */
  predicate Visited(visits: seq<Visit>, id: OutputSectionId) {
    VisitRegular(id) in visits
  }

  /** The section ids output_order_map passes its callback on one visit: once per part, once per alignment. */
  function CallsOf(v: Visit): (r: seq<OutputSectionId>) {
    match v
    case VisitPart(p) => [SectionOf(p)]
    case VisitRegular(id) => seq(NUM_ALIGNMENTS, _ => id)
  }

  /** The section ids output_order_map passes its callback, in order. */
  function VisitIds(visits: seq<Visit>): (r: seq<OutputSectionId>) {
    if visits == [] then [] else VisitIds(visits[..|visits| - 1]) + CallsOf(visits[|visits| - 1])
  }

  lemma VisitIdsStep(visits: seq<Visit>, k: nat)
    requires k < |visits|
    ensures VisitIds(visits[..k + 1]) == VisitIds(visits[..k]) + CallsOf(visits[k])
  {
    assert visits[..k + 1][..k] == visits[..k];
  }

  /** Every regular section that output order names exists in the map. */
  predicate OrderFits<T>(m: PartMap<T>, visits: seq<Visit>) {
    forall k :: 0 <= k < |visits| && visits[k].VisitRegular? ==>
      NUM_GENERATED_SECTIONS <= visits[k].id < LenOf(m)
  }

  /** `r` holds `cb`'s value for every part and alignment map `visits` names, and the default elsewhere. */
  ghost predicate MappedBy<T, U>(m: PartMap<T>, zeroT: T, visits: seq<Visit>, minAlignment: OutputSectionId -> nat,
                                 cb: (OutputSectionId, nat, T) -> U, zeroU: U, r: PartMap<U>)
    requires WellFormed(m)
  {
    && WellFormed(r) && |r.regular| == |m.regular|
    && (forall p :: Get(r, p) == if VisitPart(p) in visits
                                 then cb(SectionOf(p), minAlignment(SectionOf(p)), Get(m, p)) else zeroU)
    && (forall i :: 0 <= i < |m.regular| ==>
          r.regular[i] == if Visited(visits, i + NUM_GENERATED_SECTIONS)
                          then MapAlignmentMap(m.regular[i], zeroT, i + NUM_GENERATED_SECTIONS,
                                               minAlignment(i + NUM_GENERATED_SECTIONS), cb)
                          else DefaultRow(zeroU))
  }

  /** Visiting a built-in part sets that part alone. */
  lemma MappedPartStep<T, U>(m: PartMap<T>, zeroT: T, visits: seq<Visit>, minAlignment: OutputSectionId -> nat,
                             cb: (OutputSectionId, nat, T) -> U, zeroU: U, r: PartMap<U>, p: BuiltInPart)
    requires WellFormed(m) && MappedBy(m, zeroT, visits, minAlignment, cb, zeroU, r)
    ensures MappedBy(m, zeroT, visits + [VisitPart(p)], minAlignment, cb, zeroU,
                     Set(r, p, cb(SectionOf(p), minAlignment(SectionOf(p)), Get(m, p))))
  {
    var visits' := visits + [VisitPart(p)];
    assert forall v :: v in visits' <==> v in visits || v == VisitPart(p);
  }

  /** Visiting a regular section sets that section's alignment map alone. */
  lemma MappedRegularStep<T, U>(m: PartMap<T>, zeroT: T, visits: seq<Visit>, minAlignment: OutputSectionId -> nat,
                                cb: (OutputSectionId, nat, T) -> U, zeroU: U, r: PartMap<U>, id: OutputSectionId)
    requires WellFormed(m) && MappedBy(m, zeroT, visits, minAlignment, cb, zeroU, r)
    requires NUM_GENERATED_SECTIONS <= id < LenOf(m)
    ensures var offset := id - NUM_GENERATED_SECTIONS;
            MappedBy(m, zeroT, visits + [VisitRegular(id)], minAlignment, cb, zeroU,
                     r.(regular := r.regular[offset := MapAlignmentMap(m.regular[offset], zeroT, id, minAlignment(id), cb)]))
  {
    var visits' := visits + [VisitRegular(id)];
    assert forall v :: v in visits' <==> v in visits || v == VisitRegular(id);
  }

  /** One iteration of output_order_map's loop: applies `cb` to the part or alignment map `order[k]` names. */
  method MapVisit<T(==), U>(m: PartMap<T>, zeroT: T, order: seq<Visit>, k: nat, minAlignment: OutputSectionId -> nat,
                        cb: (OutputSectionId, nat, T) -> U, zeroU: U, r: PartMap<U>)
    returns (r': PartMap<U>)
    requires WellFormed(m) && OrderFits(m, order) && k < |order|
    requires MappedBy(m, zeroT, order[..k], minAlignment, cb, zeroU, r)
    ensures MappedBy(m, zeroT, order[..k + 1], minAlignment, cb, zeroU, r')
  {
    assert order[..k + 1] == order[..k] + [order[k]];
    match order[k] {
      case VisitPart(p) =>
        var id := SectionOf(p);
        MappedPartStep(m, zeroT, order[..k], minAlignment, cb, zeroU, r, p);
        r' := Set(r, p, cb(id, minAlignment(id), Get(m, p)));
      case VisitRegular(id) =>
        var offset := id - NUM_GENERATED_SECTIONS;
        MappedRegularStep(m, zeroT, order[..k], minAlignment, cb, zeroU, r, id);
        var row: seq<U> := MapAlignmentMap(m.regular[offset], zeroT, id, minAlignment(id), cb);
        r' := r.(regular := r.regular[offset := row]);
    }
  }

  /** Applies `cb` to the parts of `m` in the order of `visits`, as output_order_map's loop does. */
  method MapInOrder<T(==), U>(m: PartMap<T>, zeroT: T, order: seq<Visit>, minAlignment: OutputSectionId -> nat,
                              cb: (OutputSectionId, nat, T) -> U, zeroU: U)
    returns (r: PartMap<U>, calls: seq<OutputSectionId>)
    requires WellFormed(m) && OrderFits(m, order)
    ensures WellFormed(r) && |r.regular| == |m.regular|
    ensures forall p :: Get(r, p) == if VisitPart(p) in order
                                     then cb(SectionOf(p), minAlignment(SectionOf(p)), Get(m, p)) else zeroU
    ensures forall i :: 0 <= i < |m.regular| ==>
              r.regular[i] == if Visited(order, i + NUM_GENERATED_SECTIONS)
                              then MapAlignmentMap(m.regular[i], zeroT, i + NUM_GENERATED_SECTIONS,
                                                   minAlignment(i + NUM_GENERATED_SECTIONS), cb)
                              else DefaultRow(zeroU)
    ensures calls == VisitIds(order)
  {
    r := WithSize(LenOf(m), zeroU);
    calls := [];
    var k := 0;
    while k < |order|
      invariant 0 <= k <= |order|
      invariant MappedBy(m, zeroT, order[..k], minAlignment, cb, zeroU, r)
      invariant calls == VisitIds(order[..k])
    {
      VisitIdsStep(order, k);
      r := MapVisit(m, zeroT, order, k, minAlignment, cb, zeroU, r);
      calls := calls + CallsOf(order[k]);
      k := k + 1;
    }
    assert order[..k] == order;
  }

  /**
   * output_order_map: a new map whose every part is `cb` applied to this part, walking the parts in
   * output order; regular sections that output order never names keep default values. Returns
   * also the section ids passed to `cb`, in the order of the calls.
   */
  method OutputOrderMap<T(==), U>(m: PartMap<T>, zeroT: T, sections: OutputSections, minAlignment: OutputSectionId -> nat,
                                  cb: (OutputSectionId, nat, T) -> U, zeroU: U)
    returns (r: PartMap<U>, calls: seq<OutputSectionId>)
    requires WellFormed(m) && OrderFits(m, OutputOrder(sections))
    ensures WellFormed(r) && |r.regular| == |m.regular|
    ensures forall p :: Get(r, p) == cb(SectionOf(p), minAlignment(SectionOf(p)), Get(m, p))
    ensures forall i :: 0 <= i < |m.regular| ==>
              r.regular[i] == if Visited(OutputOrder(sections), i + NUM_GENERATED_SECTIONS)
                              then MapAlignmentMap(m.regular[i], zeroT, i + NUM_GENERATED_SECTIONS,
                                                   minAlignment(i + NUM_GENERATED_SECTIONS), cb)
                              else DefaultRow(zeroU)
    ensures calls == VisitIds(OutputOrder(sections))
  {
    r, calls := MapInOrder(m, zeroT, OutputOrder(sections), minAlignment, cb, zeroU);
    forall p
      ensures VisitPart(p) in OutputOrder(sections)
    {
      EveryPartVisited(sections, p);
    }
  }

  // ---------------------------------------------------------------------------------------------
  // merge

  /** The value at regular index `i`, alignment `a`; default beyond the end. */
  function ValueAt(m: PartMap<nat>, i: nat, a: nat): nat
    requires WellFormed(m) && a < NUM_ALIGNMENTS
  {
    if i < |m.regular| then m.regular[i][a] else 0
  }

  /** Alignment map `i` of the merge of two maps. */
  function MergedRow(m: PartMap<nat>, rhs: PartMap<nat>, i: nat): (r: seq<nat>)
    requires WellFormed(m) && WellFormed(rhs)
    ensures |r| == NUM_ALIGNMENTS
  {
    seq(NUM_ALIGNMENTS, a requires 0 <= a < NUM_ALIGNMENTS => ValueAt(m, i, a) + ValueAt(rhs, i, a))
  }

  /** merge's result: the longer of the two shapes, every value the sum of the two. */
  function Merged(m: PartMap<nat>, rhs: PartMap<nat>): (r: PartMap<nat>)
    requires WellFormed(m) && WellFormed(rhs)
    ensures WellFormed(r)
  {
    var n := if |m.regular| < |rhs.regular| then |rhs.regular| else |m.regular|;
    PartMap(
      seq(n, i requires 0 <= i < n => MergedRow(m, rhs, i)),
      m.fileHeaders + rhs.fileHeaders, m.got + rhs.got, m.plt + rhs.plt,
      m.symtabLocals + rhs.symtabLocals, m.symtabGlobals + rhs.symtabGlobals, m.symtabStrings + rhs.symtabStrings,
      m.shstrtab + rhs.shstrtab, m.relaPlt + rhs.relaPlt)
  }

  /** Merging covers the longer of the two maps and adds them part by part. */
  lemma MergedAdds(m: PartMap<nat>, rhs: PartMap<nat>)
    requires WellFormed(m) && WellFormed(rhs)
    ensures LenOf(Merged(m, rhs)) == if LenOf(m) < LenOf(rhs) then LenOf(rhs) else LenOf(m)
    ensures forall p :: Get(Merged(m, rhs), p) == Get(m, p) + Get(rhs, p)
    ensures forall i, a :: 0 <= i < |Merged(m, rhs).regular| && 0 <= a < NUM_ALIGNMENTS ==>
              ValueAt(Merged(m, rhs), i, a) == ValueAt(m, i, a) + ValueAt(rhs, i, a)
  {
    forall p
      ensures Get(Merged(m, rhs), p) == Get(m, p) + Get(rhs, p)
    {
    }
  }

  /** Merging is symmetric. */
  lemma MergedCommutes(m: PartMap<nat>, rhs: PartMap<nat>)
    requires WellFormed(m) && WellFormed(rhs)
    ensures Merged(m, rhs) == Merged(rhs, m)
  {
    var l := Merged(m, rhs);
    var r := Merged(rhs, m);
    assert |l.regular| == |r.regular|;
    forall i | 0 <= i < |l.regular|
      ensures l.regular[i] == r.regular[i]
    {
    }
  }

  /** Merging in a map of defaults no longer than this one changes nothing. */
  lemma MergedWithDefaults(m: PartMap<nat>, size: nat)
    requires WellFormed(m) && NUM_GENERATED_SECTIONS <= size <= LenOf(m)
    ensures Merged(m, WithSize<nat>(size, 0)) == m
  {
    var r := Merged(m, WithSize<nat>(size, 0));
    assert |r.regular| == |m.regular|;
    forall i | 0 <= i < |m.regular|
      ensures r.regular[i] == m.regular[i]
    {
    }
  }

  /** A map that holds `v` in every part. */
  function Filled(size: nat, v: nat): (m: PartMap<nat>)
    requires size >= NUM_GENERATED_SECTIONS
    ensures WellFormed(m) && LenOf(m) == size
  {
    PartMap(DefaultRows(size - NUM_GENERATED_SECTIONS, v), v, v, v, v, v, v, v, v)
  }

  /** The example of merge: ones merged with twos give threes. */
  lemma MergedOnesAndTwos(size: nat)
    requires size >= NUM_GENERATED_SECTIONS
    ensures Merged(Filled(size, 1), Filled(size, 2)) == Filled(size, 3)
  {
    var r := Merged(Filled(size, 1), Filled(size, 2));
    forall i | 0 <= i < |r.regular|
      ensures r.regular[i] == Filled(size, 3).regular[i]
    {
    }
  }

  // ---------------------------------------------------------------------------------------------
  // The map updated in place

  /** An OutputSectionPartMap of counts (sizes, numbers of entries), as merge and resize update it. */
  class OutputSectionPartMap {
    var regular: seq<seq<nat>>
    var fileHeaders: nat
    var got: nat
    var plt: nat
    var symtabLocals: nat
    var symtabGlobals: nat
    var symtabStrings: nat
    var shstrtab: nat
    var relaPlt: nat

    function View(): PartMap<nat>
      reads this
    {
      PartMap(regular, fileHeaders, got, plt, symtabLocals, symtabGlobals, symtabStrings, shstrtab, relaPlt)
    }

    ghost predicate Valid()
      reads this
    {
      WellFormed(View())
    }

    /** with_size */
    constructor WithSizeMap(size: nat)
      requires size >= NUM_GENERATED_SECTIONS
      ensures Valid() && View() == WithSize<nat>(size, 0)
    {
      regular := DefaultRows<nat>(size - NUM_GENERATED_SECTIONS, 0);
      fileHeaders, got, plt := 0, 0, 0;
      symtabLocals, symtabGlobals, symtabStrings := 0, 0, 0;
      shstrtab, relaPlt := 0, 0;
    }

    /** len */
    function Len(): (n: nat)
      reads this
    {
      |regular| + NUM_GENERATED_SECTIONS
    }

    /** regular */
    function RegularValue(id: OutputSectionId, a: nat): (v: nat)
      reads this
      requires Valid() && NUM_GENERATED_SECTIONS <= id < Len() && a < NUM_ALIGNMENTS
      ensures v == Regular(View(), id, a)
    {
      regular[id - NUM_GENERATED_SECTIONS][a]
    }

    /** regular_mut, used to store `v`. */
    method SetRegularValue(id: OutputSectionId, a: nat, v: nat)
      requires Valid() && NUM_GENERATED_SECTIONS <= id < Len() && a < NUM_ALIGNMENTS
      modifies this
      ensures Valid() && View() == SetRegular(old(View()), id, a, v)
    {
      var row: seq<nat> := regular[id - NUM_GENERATED_SECTIONS][a := v];
      regular := regular[id - NUM_GENERATED_SECTIONS := row];
    }

    /** resize: grows with default alignment maps or truncates, so that the map covers `numSections`. */
    method Resize(numSections: nat)
      requires Valid() && numSections >= NUM_GENERATED_SECTIONS
      modifies this
      ensures Valid() && Len() == numSections
      ensures forall i :: 0 <= i < |regular| ==>
                regular[i] == if i < |old(regular)| then old(regular)[i] else DefaultRow(0)
      ensures View() == old(View()).(regular := regular)
    {
      var n := numSections - NUM_GENERATED_SECTIONS;
      if n <= |regular| {
        regular := regular[..n];
      } else {
        regular := regular + DefaultRows(n - |regular|, 0);
      }
    }

    /** Replaces every field at once. */
    method Store(m: PartMap<nat>)
      modifies this
      ensures View() == m
    {
      regular := m.regular;
      fileHeaders, got, plt := m.fileHeaders, m.got, m.plt;
      symtabLocals, symtabGlobals, symtabStrings := m.symtabLocals, m.symtabGlobals, m.symtabStrings;
      shstrtab, relaPlt := m.shstrtab, m.relaPlt;
    }

    /** merge: adds `rhs` into this map, first growing this map to at least `rhs`'s length. */
    method Merge(rhs: PartMap<nat>)
      requires Valid() && WellFormed(rhs)
      modifies this
      ensures Valid() && View() == Merged(old(View()), rhs)
    {
      ghost var before := View();
      if Len() < LenOf(rhs) {
        Resize(LenOf(rhs));
      } else {
        assert regular == before.regular;
      }
      MergeRegular(rhs, before);
      ghost var merged := Merged(before, rhs);
      assert View() == before.(regular := merged.regular);
      var sum: PartMap<nat> := PartMap(regular, fileHeaders + rhs.fileHeaders, got + rhs.got, plt + rhs.plt,
                         symtabLocals + rhs.symtabLocals, symtabGlobals + rhs.symtabGlobals,
                         symtabStrings + rhs.symtabStrings, shstrtab + rhs.shstrtab, relaPlt + rhs.relaPlt);
      assert sum == merged;
      Store(sum);
    }

    /** The loop of merge over the alignment maps, once this map has been grown from `before`. */
    method MergeRegular(rhs: PartMap<nat>, ghost before: PartMap<nat>)
      requires Valid() && WellFormed(rhs) && WellFormed(before)
      requires |regular| == if |before.regular| < |rhs.regular| then |rhs.regular| else |before.regular|
      requires forall j :: 0 <= j < |regular| ==>
                 regular[j] == if j < |before.regular| then before.regular[j] else DefaultRow(0)
      modifies this
      ensures Valid() && View() == old(View()).(regular := Merged(before, rhs).regular)
    {
      ghost var grown := regular;
      var i := 0;
      while i < |rhs.regular|
        invariant 0 <= i <= |rhs.regular| && |regular| == |grown|
        invariant View() == old(View()).(regular := regular)
        invariant forall j :: 0 <= j < |regular| ==>
                    regular[j] == if j < i then MergedRow(before, rhs, j) else grown[j]
      {
        var left := regular[i];
        var row: seq<nat> := seq(NUM_ALIGNMENTS, a requires 0 <= a < NUM_ALIGNMENTS => left[a] + rhs.regular[i][a]);
        assert row == MergedRow(before, rhs, i);
        regular := regular[i := row];
        i := i + 1;
      }
      forall j | 0 <= j < |regular|
        ensures regular[j] == Merged(before, rhs).regular[j]
      {
        if j >= i {
          assert regular[j] == MergedRow(before, rhs, j);
        }
      }
    }

    /**
     * merge_parts: one value per output section, `cb` applied to that section's parts; the value at
     * index k is that of output section k.
     */
    method MergeParts<U>(cb: seq<nat> -> U) returns (values: seq<U>)
      requires Valid()
      ensures |values| == Len()
      ensures forall k :: 0 <= k < Len() ==> values[k] == cb(PartsOf(View(), k))
    {
      values := [];
      values := values + [cb([fileHeaders])];
      values := values + [cb([shstrtab])];
      values := values + [cb([symtabLocals, symtabGlobals])];
      values := values + [cb([symtabStrings])];
      values := values + [cb([got])];
      values := values + [cb([plt])];
      values := values + [cb([relaPlt])];
      var i := 0;
      while i < |regular|
        invariant 0 <= i <= |regular| && |values| == NUM_GENERATED_SECTIONS + i
        invariant forall k :: 0 <= k < |values| ==> values[k] == cb(PartsOf(View(), k))
      {
        values := values + [cb(regular[i])];
        i := i + 1;
      }
    }

    /**
     * mut_with_map: zips this map with `other`, part by part, through `cb`, which updates this
     * map's value and yields the new map's value. Regular sections pair up as far as both go.
     */
    method MutWithMap<U, V>(other: PartMap<U>, cb: (nat, U) -> (nat, V)) returns (r: PartMap<V>)
      requires Valid() && WellFormed(other)
      modifies this
      ensures Valid() && (View(), r) == ZipWith(old(View()), other, cb)
    {
      var zipped := ZipWith(View(), other, cb);
      Store(zipped.0);
      r := zipped.1;
    }
  }

  /**
   * What mut_with_map computes: `cb` applied to each pair of parts, its first result the updated
   * value of `m`, its second the value of the new map. Regular sections pair up as far as both go.
   */
  function ZipWith<U, V>(m: PartMap<nat>, other: PartMap<U>, cb: (nat, U) -> (nat, V)): (r: (PartMap<nat>, PartMap<V>))
    requires WellFormed(m) && WellFormed(other)
    ensures WellFormed(r.0) && WellFormed(r.1)
    ensures |r.0.regular| == |m.regular|
    ensures |r.1.regular| == if |m.regular| < |other.regular| then |m.regular| else |other.regular|
    ensures forall i, a :: 0 <= i < |r.1.regular| && 0 <= a < NUM_ALIGNMENTS ==>
              && r.1.regular[i][a] == cb(m.regular[i][a], other.regular[i][a]).1
              && r.0.regular[i][a] == cb(m.regular[i][a], other.regular[i][a]).0
    ensures forall i :: |r.1.regular| <= i < |m.regular| ==> r.0.regular[i] == m.regular[i]
    ensures forall p :: Get(r.1, p) == cb(Get(m, p), Get(other, p)).1 && Get(r.0, p) == cb(Get(m, p), Get(other, p)).0
  {
    var n := if |m.regular| < |other.regular| then |m.regular| else |other.regular|;
    var h, g, pl := cb(m.fileHeaders, other.fileHeaders), cb(m.got, other.got), cb(m.plt, other.plt);
    var sl, sg, ss := cb(m.symtabLocals, other.symtabLocals), cb(m.symtabGlobals, other.symtabGlobals),
                      cb(m.symtabStrings, other.symtabStrings);
    var sh, rp := cb(m.shstrtab, other.shstrtab), cb(m.relaPlt, other.relaPlt);
    (PartMap(ZipUpdated(m.regular, other.regular, cb, n), h.0, g.0, pl.0, sl.0, sg.0, ss.0, sh.0, rp.0),
     PartMap(ZipProduced(m.regular, other.regular, cb, n), h.1, g.1, pl.1, sl.1, sg.1, ss.1, sh.1, rp.1))
  }

  function ZipRow<U, V>(mine: seq<nat>, theirs: seq<U>, cb: (nat, U) -> (nat, V)): (r: seq<nat>)
    requires |mine| == NUM_ALIGNMENTS && |theirs| == NUM_ALIGNMENTS
    ensures |r| == NUM_ALIGNMENTS && forall a :: 0 <= a < NUM_ALIGNMENTS ==> r[a] == cb(mine[a], theirs[a]).0
  {
    seq<nat>(NUM_ALIGNMENTS, a requires 0 <= a < NUM_ALIGNMENTS => cb(mine[a], theirs[a]).0)
  }

  /** The alignment maps of the map mut_with_map updates: the first `n` passed through `cb`. */
  function ZipUpdated<U, V>(mine: seq<seq<nat>>, theirs: seq<seq<U>>, cb: (nat, U) -> (nat, V), n: nat): (r: seq<seq<nat>>)
    requires n <= |mine| && n <= |theirs|
    requires forall i :: 0 <= i < |mine| ==> |mine[i]| == NUM_ALIGNMENTS
    requires forall i :: 0 <= i < |theirs| ==> |theirs[i]| == NUM_ALIGNMENTS
    ensures |r| == |mine| && forall i :: 0 <= i < |r| ==> |r[i]| == NUM_ALIGNMENTS
    ensures forall i, a :: 0 <= i < n && 0 <= a < NUM_ALIGNMENTS ==> r[i][a] == cb(mine[i][a], theirs[i][a]).0
    ensures forall i :: n <= i < |mine| ==> r[i] == mine[i]
  {
    seq(|mine|, i requires 0 <= i < |mine| => if i < n then ZipRow(mine[i], theirs[i], cb) else mine[i])
  }

  /** The alignment maps of the map mut_with_map returns. */
  function ZipProduced<U, V>(mine: seq<seq<nat>>, theirs: seq<seq<U>>, cb: (nat, U) -> (nat, V), n: nat): (r: seq<seq<V>>)
    requires n <= |mine| && n <= |theirs|
    requires forall i :: 0 <= i < |mine| ==> |mine[i]| == NUM_ALIGNMENTS
    requires forall i :: 0 <= i < |theirs| ==> |theirs[i]| == NUM_ALIGNMENTS
    ensures |r| == n && forall i :: 0 <= i < n ==> |r[i]| == NUM_ALIGNMENTS
    ensures forall i, a :: 0 <= i < n && 0 <= a < NUM_ALIGNMENTS ==> r[i][a] == cb(mine[i][a], theirs[i][a]).1
  {
    seq(n, i requires 0 <= i < n => seq(NUM_ALIGNMENTS, a requires 0 <= a < NUM_ALIGNMENTS => cb(mine[i][a], theirs[i][a]).1))
  }

  /** The example of mut_with_map: adding twos into ones leaves threes, and zipping with a map of defaults. */
  lemma AddingTwosIntoOnes(size: nat)
    requires size >= NUM_GENERATED_SECTIONS
    ensures ZipWith(Filled(size, 1), Filled(size, 2), (x: nat, y: nat) => (x + y, 0)) == (Filled(size, 3), Filled(size, 0))
  {
    var zipped := ZipWith(Filled(size, 1), Filled(size, 2), (x: nat, y: nat) => (x + y, 0));
    forall i | 0 <= i < size - NUM_GENERATED_SECTIONS
      ensures zipped.0.regular[i] == Filled(size, 3).regular[i] && zipped.1.regular[i] == Filled(size, 0).regular[i]
    {
    }
    assert zipped.0.regular == Filled(size, 3).regular;
    assert zipped.1.regular == Filled(size, 0).regular;
    forall p
      ensures Get(zipped.0, p) == 3 && Get(zipped.1, p) == 0
    {
    }
    assert Get(zipped.0, FileHeaders) == 3 && Get(zipped.0, Got) == 3 && Get(zipped.0, Plt) == 3;
    assert Get(zipped.0, SymtabLocals) == 3 && Get(zipped.0, SymtabGlobals) == 3 && Get(zipped.0, SymtabStrings) == 3;
    assert Get(zipped.0, Shstrtab) == 3 && Get(zipped.0, RelaPlt) == 3;
    assert Get(zipped.1, FileHeaders) == 0 && Get(zipped.1, Got) == 0 && Get(zipped.1, Plt) == 0;
    assert Get(zipped.1, SymtabLocals) == 0 && Get(zipped.1, SymtabGlobals) == 0 && Get(zipped.1, SymtabStrings) == 0;
    assert Get(zipped.1, Shstrtab) == 0 && Get(zipped.1, RelaPlt) == 0;
  }
}
