/**
 * String-merge sections: the strings of every SHF_MERGE|SHF_STRINGS input section are split at
 * their null terminators, spread over 32 buckets by hash, deduplicated per bucket and laid out
 * bucket after bucket in the output section.
 */
module MergeStrings {
  import opened Wrappers
  import opened LinkTypes

  const MERGE_STRING_BUCKETS: nat := 32

  datatype StringToMerge = StringToMerge(bytes: seq<byte>)

  /** A string together with a hash of its bytes, computed once. */
  datatype PreHashed = PreHashed(value: StringToMerge, hash: nat)

  /** The bucket a string goes to. */
  function BucketOf(s: PreHashed): (b: nat)
    ensures b < MERGE_STRING_BUCKETS
  {
    s.hash % MERGE_STRING_BUCKETS
  }

  /** A non-empty string whose only null byte is its last one. */
  predicate IsNullTerminated(bytes: seq<byte>) {
    |bytes| > 0 && bytes[|bytes| - 1] == 0 && 0 !in bytes[..|bytes| - 1]
  }

  /** Position of the first null byte, if any. */
  function FirstNull(source: seq<byte>): (r: Option<nat>)
    ensures r.None? <==> 0 !in source
    ensures r.Some? ==> r.value < |source| && source[r.value] == 0 && 0 !in source[..r.value]
  {
    if |source| == 0 then None
    else if source[0] == 0 then Some(0)
    else
      match FirstNull(source[1..])
      case None => None
      case Some(i) =>
        assert source[..i + 1] == [source[0]] + source[1..][..i];
        Some(i + 1)
  }

  /**
   * StringToMerge::take_hashed: takes from `source` everything up to and including the next null
   * terminator and returns it, hashed, together with what remains of `source`.
   */
  function TakeHashed(source: seq<byte>, hashBytes: seq<byte> -> nat): (r: Result<(PreHashed, seq<byte>), Error>)
    ensures r.Err? <==> 0 !in source
    ensures r.Err? ==> r.error == NotNullTerminated
    ensures r.Ok? ==>
              var (s, rest) := r.value;
              IsNullTerminated(s.value.bytes) && s.value.bytes + rest == source && s.hash == hashBytes(s.value.bytes)
  {
    match FirstNull(source)
    case None => Err(NotNullTerminated)
    case Some(i) =>
      var bytes := source[..i + 1];
      assert bytes[..|bytes| - 1] == source[..i];
      assert bytes + source[i + 1..] == source;
      Ok((PreHashed(StringToMerge(bytes), hashBytes(bytes)), source[i + 1..]))
  }

  /** The strings `TakeHashed` yields when applied until nothing remains. */
  function SplitAtNulls(data: seq<byte>, hashBytes: seq<byte> -> nat): (r: Result<seq<PreHashed>, Error>)
    ensures r.Err? ==> r.error == NotNullTerminated
    decreases |data|
  {
    if |data| == 0 then Ok([])
    else
      match TakeHashed(data, hashBytes)
      case Err(e) => Err(e)
      case Ok((s, rest)) =>
        match SplitAtNulls(rest, hashBytes)
        case Err(e) => Err(e)
        case Ok(more) => Ok([s] + more)
  }

  function Concat(strings: seq<PreHashed>): seq<byte> {
    if strings == [] then [] else strings[0].value.bytes + Concat(strings[1..])
  }

  /**
   * Splitting succeeds exactly when the data is empty or ends in a null byte; then the pieces
   * are null-terminated strings, each hashed, that concatenate back to the data.
   */
  lemma SplitAtNullsPartitions(data: seq<byte>, hashBytes: seq<byte> -> nat)
    ensures SplitAtNulls(data, hashBytes).Ok? <==> (|data| == 0 || data[|data| - 1] == 0)
    ensures SplitAtNulls(data, hashBytes).Ok? ==>
              var pieces := SplitAtNulls(data, hashBytes).value;
              && Concat(pieces) == data
              && forall k :: 0 <= k < |pieces| ==>
                   IsNullTerminated(pieces[k].value.bytes) && pieces[k].hash == hashBytes(pieces[k].value.bytes)
  {
    SplitAtNullsSucceeds(data, hashBytes);
    if SplitAtNulls(data, hashBytes).Ok? {
      SplitAtNullsPieces(data, hashBytes);
    }
  }

  lemma {:induction false} SplitAtNullsSucceeds(data: seq<byte>, hashBytes: seq<byte> -> nat)
    ensures SplitAtNulls(data, hashBytes).Ok? <==> (|data| == 0 || data[|data| - 1] == 0)
    decreases |data|
  {
    if |data| > 0 {
      if TakeHashed(data, hashBytes).Err? {
        assert data[|data| - 1] in data;
      } else {
        var rest := TakeHashed(data, hashBytes).value.1;
        SplitAtNullsSucceeds(rest, hashBytes);
        TakeHashedLast(data, hashBytes);
      }
    }
  }

  /** What taking one string leaves decides the last byte, and whether splitting succeeds. */
  lemma TakeHashedLast(data: seq<byte>, hashBytes: seq<byte> -> nat)
    requires |data| > 0 && TakeHashed(data, hashBytes).Ok?
    ensures var rest := TakeHashed(data, hashBytes).value.1;
            && |rest| < |data|
            && (SplitAtNulls(data, hashBytes).Ok? <==> SplitAtNulls(rest, hashBytes).Ok?)
            && data[|data| - 1] == if |rest| > 0 then rest[|rest| - 1] else 0
  {
    var s := TakeHashed(data, hashBytes).value.0;
    var rest := TakeHashed(data, hashBytes).value.1;
    assert data == s.value.bytes + rest;
    if |rest| > 0 {
      assert data[|data| - 1] == rest[|rest| - 1];
    } else {
      assert data[|data| - 1] == s.value.bytes[|s.value.bytes| - 1];
    }
  }

  lemma {:induction false} SplitAtNullsPieces(data: seq<byte>, hashBytes: seq<byte> -> nat)
    requires SplitAtNulls(data, hashBytes).Ok?
    ensures var pieces := SplitAtNulls(data, hashBytes).value;
            && Concat(pieces) == data
            && forall k :: 0 <= k < |pieces| ==>
                 IsNullTerminated(pieces[k].value.bytes) && pieces[k].hash == hashBytes(pieces[k].value.bytes)
    decreases |data|
  {
    if |data| > 0 {
      var r := TakeHashed(data, hashBytes);
      var s := r.value.0;
      var rest := r.value.1;
      assert SplitAtNulls(rest, hashBytes).Ok?;
      SplitAtNullsPieces(rest, hashBytes);
      var more := SplitAtNulls(rest, hashBytes).value;
      var pieces := [s] + more;
      assert SplitAtNulls(data, hashBytes).value == pieces;
      assert pieces[1..] == more;
      assert Concat(pieces) == s.value.bytes + Concat(more);
      PiecesCons(s, more, hashBytes);
    }
  }

  lemma PiecesCons(s: PreHashed, more: seq<PreHashed>, hashBytes: seq<byte> -> nat)
    requires IsNullTerminated(s.value.bytes) && s.hash == hashBytes(s.value.bytes)
    requires forall k :: 0 <= k < |more| ==>
               IsNullTerminated(more[k].value.bytes) && more[k].hash == hashBytes(more[k].value.bytes)
    ensures var pieces := [s] + more;
            forall k :: 0 <= k < |pieces| ==>
              IsNullTerminated(pieces[k].value.bytes) && pieces[k].hash == hashBytes(pieces[k].value.bytes)
  {
    var pieces := [s] + more;
    forall k | 0 <= k < |pieces|
      ensures IsNullTerminated(pieces[k].value.bytes) && pieces[k].hash == hashBytes(pieces[k].value.bytes)
    {
      if k > 0 { assert pieces[k] == more[k - 1]; }
    }
  }

  /** The strings of `strings`, in order, that belong to bucket `b`. */
  function InBucket(strings: seq<PreHashed>, b: int): seq<PreHashed> {
    if strings == [] then []
    else
      var last := strings[|strings| - 1];
      InBucket(strings[..|strings| - 1], b) + (if BucketOf(last) == b then [last] else [])
  }

  function Bucketed(strings: seq<PreHashed>): (buckets: seq<seq<PreHashed>>)
    ensures |buckets| == MERGE_STRING_BUCKETS
  {
    seq(MERGE_STRING_BUCKETS, b => InBucket(strings, b))
  }

  /** Every string lands in exactly the bucket its hash selects, and nothing else does. */
  lemma {:induction false} InBucketMembership(strings: seq<PreHashed>, b: int, x: PreHashed)
    ensures x in InBucket(strings, b) <==> x in strings && BucketOf(x) == b
    decreases |strings|
  {
    if strings != [] {
      var init := strings[..|strings| - 1];
      InBucketMembership(init, b, x);
      assert strings == init + [strings[|strings| - 1]];
    }
  }

  /** Information about a string-merge input section before merging. */
  datatype UnresolvedMergeStringsFileSection = UnresolvedMergeStringsFileSection(
    sectionIndex: nat,
    buckets: seq<seq<PreHashed>>)
  {
    /**
     * UnresolvedMergeStringsFileSection::new: splits the section data into null-terminated
     * strings and puts each into the bucket its hash selects, keeping input order per bucket.
     */
    static method New(sectionData: seq<byte>, sectionIndex: nat, hashBytes: seq<byte> -> nat)
      returns (r: Result<UnresolvedMergeStringsFileSection, Error>)
      ensures r.Ok? <==> SplitAtNulls(sectionData, hashBytes).Ok?
      ensures r.Err? ==> r.error == NotNullTerminated
      ensures r.Ok? ==> && r.value.sectionIndex == sectionIndex
                        && r.value.buckets == Bucketed(SplitAtNulls(sectionData, hashBytes).value)
    {
      var remaining := sectionData;
      var buckets: seq<seq<PreHashed>> := seq(MERGE_STRING_BUCKETS, _ => []);
      ghost var taken: seq<PreHashed> := [];
      assert buckets == Bucketed(taken);
      PrependNothing(SplitAtNulls(remaining, hashBytes));
      while |remaining| > 0
        invariant buckets == Bucketed(taken)
        invariant SplitAtNulls(sectionData, hashBytes) == Prepend(taken, SplitAtNulls(remaining, hashBytes))
        decreases |remaining|
      {
        var next := TakeHashed(remaining, hashBytes);
        if next.Err? {
          return Err(next.error);
        }
        var piece, rest := next.value.0, next.value.1;
        assert SplitAtNulls(remaining, hashBytes) == Prepend([piece], SplitAtNulls(rest, hashBytes));
        PrependPrepend(taken, [piece], SplitAtNulls(rest, hashBytes));
        var b := BucketOf(piece);
        BucketedAppend(taken, piece);
        buckets := buckets[b := buckets[b] + [piece]];
        taken := taken + [piece];
        remaining := rest;
      }
      assert SplitAtNulls(remaining, hashBytes) == Ok([]);
      assert taken + [] == taken;
      return Ok(UnresolvedMergeStringsFileSection(sectionIndex, buckets));
    }
  }

  function Prepend(prefix: seq<PreHashed>, r: Result<seq<PreHashed>, Error>): Result<seq<PreHashed>, Error> {
    match r
    case Err(e) => Err(e)
    case Ok(s) => Ok(prefix + s)
  }

  lemma PrependNothing(r: Result<seq<PreHashed>, Error>)
    ensures Prepend([], r) == r
  {
    if r.Ok? { assert [] + r.value == r.value; }
  }

  lemma PrependPrepend(a: seq<PreHashed>, b: seq<PreHashed>, r: Result<seq<PreHashed>, Error>)
    ensures Prepend(a, Prepend(b, r)) == Prepend(a + b, r)
  {
    if r.Ok? { assert a + (b + r.value) == (a + b) + r.value; }
  }

  lemma BucketedAppend(strings: seq<PreHashed>, x: PreHashed)
    ensures Bucketed(strings + [x]) == Bucketed(strings)[BucketOf(x) := Bucketed(strings)[BucketOf(x)] + [x]]
  {
    assert (strings + [x])[..|strings|] == strings;
    forall b | 0 <= b < MERGE_STRING_BUCKETS
      ensures Bucketed(strings + [x])[b] == Bucketed(strings)[BucketOf(x) := Bucketed(strings)[BucketOf(x)] + [x]][b]
    {
    }
  }

  /** Sum of the lengths of the first `i` strings: where the i-th string starts when laid out in order. */
  function LengthBefore(strings: seq<seq<byte>>, i: nat): nat
    requires i <= |strings|
  {
    if i == 0 then 0 else LengthBefore(strings, i - 1) + |strings[i - 1]|
  }

  /** Sum of the lengths of `strings`. */
  function TotalLength(strings: seq<seq<byte>>): nat {
    LengthBefore(strings, |strings|)
  }

  lemma {:induction false} LengthBeforeMonotone(strings: seq<seq<byte>>, i: nat, j: nat)
    requires i <= j <= |strings|
    ensures LengthBefore(strings, i) <= LengthBefore(strings, j)
    decreases j
  {
    if i < j { LengthBeforeMonotone(strings, i, j - 1); }
  }

  /** Appending a string moves none of the strings already laid out. */
  lemma {:induction false} LengthBeforeAppend(strings: seq<seq<byte>>, bytes: seq<byte>, i: nat)
    requires i <= |strings|
    ensures LengthBefore(strings + [bytes], i) == LengthBefore(strings, i)
    decreases i
  {
    if i > 0 {
      LengthBeforeAppend(strings, bytes, i - 1);
      assert (strings + [bytes])[i - 1] == strings[i - 1];
    }
  }

  /** `strings` with `s` appended unless it is already present. */
  function AddOnce(strings: seq<seq<byte>>, s: seq<byte>): seq<seq<byte>> {
    if s in strings then strings else strings + [s]
  }

  /** The strings of `acc` followed by the first occurrence of each new string of `xs`. */
  function DedupOnto(acc: seq<seq<byte>>, xs: seq<PreHashed>): seq<seq<byte>> {
    if xs == [] then acc else AddOnce(DedupOnto(acc, xs[..|xs| - 1]), xs[|xs| - 1].value.bytes)
  }

  /** Deduplication keeps every string exactly once and loses none. */
  lemma {:induction false} DedupOntoContents(acc: seq<seq<byte>>, xs: seq<PreHashed>)
    requires NoDuplicates(acc)
    ensures NoDuplicates(DedupOnto(acc, xs))
    ensures forall s :: s in DedupOnto(acc, xs) <==> s in acc || exists k :: 0 <= k < |xs| && xs[k].value.bytes == s
    ensures acc <= DedupOnto(acc, xs)
    decreases |xs|
  {
    if xs != [] {
      var init := xs[..|xs| - 1];
      DedupOntoContents(acc, init);
      var d := DedupOnto(acc, init);
      var last := xs[|xs| - 1].value.bytes;
      if last !in d { NoDuplicatesAppend(d, last); }
      forall s ensures s in DedupOnto(acc, xs) <==> s in acc || exists k :: 0 <= k < |xs| && xs[k].value.bytes == s {
        if s in d && s !in acc {
          var k :| 0 <= k < |init| && init[k].value.bytes == s;
          assert xs[k] == init[k];
        }
        if exists k :: 0 <= k < |xs| && xs[k].value.bytes == s {
          var k :| 0 <= k < |xs| && xs[k].value.bytes == s;
          if k < |init| { assert init[k] == xs[k]; }
        }
      }
    }
  }

  /** Adding strings that are all present already changes nothing: merging is idempotent. */
  lemma {:induction false} DedupOntoPresent(acc: seq<seq<byte>>, xs: seq<PreHashed>)
    requires forall k :: 0 <= k < |xs| ==> xs[k].value.bytes in acc
    ensures DedupOnto(acc, xs) == acc
    decreases |xs|
  {
    if xs != [] {
      var init := xs[..|xs| - 1];
      forall k | 0 <= k < |init| ensures init[k].value.bytes in acc { assert init[k] == xs[k]; }
      DedupOntoPresent(acc, init);
    }
  }

  lemma {:induction false} DedupOntoAppend(acc: seq<seq<byte>>, xs: seq<PreHashed>, ys: seq<PreHashed>)
    ensures DedupOnto(acc, xs + ys) == DedupOnto(DedupOnto(acc, xs), ys)
    decreases |ys|
  {
    if ys == [] {
      assert xs + ys == xs;
    } else {
      DedupOntoAppend(acc, xs, ys[..|ys| - 1]);
      assert (xs + ys)[..|xs + ys| - 1] == xs + ys[..|ys| - 1];
    }
  }

  /** All strings of the given lists, in order. */
  function Flatten(lists: seq<seq<PreHashed>>): seq<PreHashed> {
    if lists == [] then [] else Flatten(lists[..|lists| - 1]) + lists[|lists| - 1]
  }

  /**
   * The layout of a bucket: each string stored once, at the sum of the lengths of the strings
   * before it, and the next offset just past the last one.
   */
  ghost predicate BucketLayout(strings: seq<seq<byte>>, nextOffset: nat, offsets: map<seq<byte>, nat>) {
    && nextOffset == TotalLength(strings)
    && NoDuplicates(strings)
    && (forall s :: s in offsets <==> s in strings)
    && forall i {:trigger offsets[strings[i]]} :: 0 <= i < |strings| ==>
         strings[i] in offsets && offsets[strings[i]] == LengthBefore(strings, i)
  }

  lemma AppendKeepsOffsets(strings: seq<seq<byte>>, offsets: map<seq<byte>, nat>, bytes: seq<byte>)
    requires forall i {:trigger offsets[strings[i]]} :: 0 <= i < |strings| ==>
               strings[i] in offsets && offsets[strings[i]] == LengthBefore(strings, i)
    requires bytes !in strings
    ensures forall i :: 0 <= i < |strings| + 1 ==>
              (strings + [bytes])[i] in offsets[bytes := TotalLength(strings)] &&
              offsets[bytes := TotalLength(strings)][(strings + [bytes])[i]] == LengthBefore(strings + [bytes], i)
  {
    var strings' := strings + [bytes];
    var offsets' := offsets[bytes := TotalLength(strings)];
    forall i | 0 <= i < |strings| + 1
      ensures strings'[i] in offsets' && offsets'[strings'[i]] == LengthBefore(strings', i)
    {
      LengthBeforeAppend(strings, bytes, if i < |strings| then i else |strings|);
      if i < |strings| {
        assert strings'[i] == strings[i];
        assert strings[i] != bytes;
      }
    }
  }

  lemma AppendKeepsLayout(strings: seq<seq<byte>>, nextOffset: nat, offsets: map<seq<byte>, nat>, bytes: seq<byte>)
    requires BucketLayout(strings, nextOffset, offsets) && bytes !in strings
    ensures BucketLayout(strings + [bytes], nextOffset + |bytes|, offsets[bytes := nextOffset])
  {
    LengthBeforeAppend(strings, bytes, |strings|);
    NoDuplicatesAppend(strings, bytes);
    AppendKeepsOffsets(strings, offsets, bytes);
  }

  /** The output bucket of one hash value: strings deduplicated and laid out one after another. */
  class MergeStringsSectionBucket {
    /** The strings in order, null terminators included. */
    var strings: seq<seq<byte>>
    /** Offset of the next string to be added; once adding is over, the bucket's size. */
    var nextOffset: nat
    /** Total size of all strings ever added, duplicates included (statistics). */
    var totallyAdded: nat
    /** Number of strings ever added, duplicates included (statistics). */
    var totallyAddedStrings: nat
    /** Offset of each string within the bucket, keyed by its contents. */
    var stringOffsets: map<seq<byte>, nat>
    /** Position of this bucket in its section. */
    ghost const slot: nat

    ghost predicate Valid()
      reads this
    {
      BucketLayout(strings, nextOffset, stringOffsets)
    }

    constructor (ghost slot: nat)
      ensures Valid() && this.slot == slot
      ensures strings == [] && nextOffset == 0 && totallyAdded == 0 && totallyAddedStrings == 0
    {
      this.slot := slot;
      strings := [];
      nextOffset := 0;
      totallyAdded := 0;
      totallyAddedStrings := 0;
      stringOffsets := map[];
    }

    /**
     * Adds `s`, deduplicating with an identical string already present; returns its offset
     * within this bucket.
     */
    method AddString(s: PreHashed) returns (offset: nat)
      requires Valid()
      modifies this
      ensures Valid()
      ensures totallyAdded == old(totallyAdded) + |s.value.bytes|
      ensures totallyAddedStrings == old(totallyAddedStrings) + 1
      ensures strings == AddOnce(old(strings), s.value.bytes)
      ensures s.value.bytes in old(strings) ==>
                && offset == old(stringOffsets)[s.value.bytes]
                && nextOffset == old(nextOffset)
                && stringOffsets == old(stringOffsets)
      ensures s.value.bytes !in old(strings) ==>
                && offset == old(nextOffset)
                && nextOffset == old(nextOffset) + |s.value.bytes|
                && stringOffsets == old(stringOffsets)[s.value.bytes := offset]
    {
      var bytes := s.value.bytes;
      totallyAdded := totallyAdded + |bytes|;
      totallyAddedStrings := totallyAddedStrings + 1;
      if bytes in stringOffsets {
        offset := stringOffsets[bytes];
      } else {
        AppendKeepsLayout(strings, nextOffset, stringOffsets, bytes);
        offset := nextOffset;
        nextOffset := nextOffset + |bytes|;
        strings := strings + [bytes];
        stringOffsets := stringOffsets[bytes := offset];
      }
    }

    /** Adds each of `xs` in order. */
    method AddStrings(xs: seq<PreHashed>)
      requires Valid()
      modifies this
      ensures Valid()
      ensures strings == DedupOnto(old(strings), xs)
    {
      var j := 0;
      while j < |xs|
        invariant 0 <= j <= |xs|
        invariant Valid()
        invariant strings == DedupOnto(old(strings), xs[..j])
      {
        assert xs[..j + 1][..j] == xs[..j];
        var _ := AddString(xs[j]);
        j := j + 1;
      }
      assert xs[..j] == xs;
    }

    /** Offset of `bytes` within this bucket, if it was added. */
    function Get(bytes: seq<byte>): (r: Option<nat>)
      reads this
      requires Valid()
      ensures r.Some? <==> bytes in strings
    {
      if bytes in stringOffsets then Some(stringOffsets[bytes]) else None
    }

    /** Size of the bucket: the sum of the lengths of its strings. */
    function Len(): (n: nat)
      reads this
      requires Valid()
      ensures n == TotalLength(strings)
    {
      nextOffset
    }

    /** The i-th string lies at the sum of the lengths before it, inside the bucket. */
    lemma GetLocatesString(i: nat)
      requires Valid() && i < |strings|
      ensures Get(strings[i]) == Some(LengthBefore(strings, i))
      ensures LengthBefore(strings, i) + |strings[i]| <= Len()
    {
      LengthBeforeMonotone(strings, i + 1, |strings|);
    }
  }

  /** Sum of the first `i` sizes. */
  function PrefixSum(sizes: seq<nat>, i: nat): nat
    requires i <= |sizes|
  {
    if i == 0 then 0 else PrefixSum(sizes, i - 1) + sizes[i - 1]
  }

  lemma {:induction false} PrefixSumMonotone(sizes: seq<nat>, i: nat, j: nat)
    requires i <= j <= |sizes|
    ensures PrefixSum(sizes, i) <= PrefixSum(sizes, j)
    decreases j
  {
    if i < j { PrefixSumMonotone(sizes, i, j - 1); }
  }

  /** The sizes of the given buckets, in order. */
  ghost function SizesOf(buckets: seq<MergeStringsSectionBucket>): (sizes: seq<nat>)
    reads buckets
    ensures |sizes| == |buckets|
    ensures forall j :: 0 <= j < |buckets| ==> sizes[j] == buckets[j].nextOffset
  {
    if buckets == [] then [] else SizesOf(buckets[..|buckets| - 1]) + [buckets[|buckets| - 1].nextOffset]
  }

  /** The merged contents of one output section: 32 buckets laid out one after the other. */
  class MergeStringsSection {
    const buckets: seq<MergeStringsSectionBucket>
    /** Byte offset of each bucket in the output section. */
    const bucketOffsets: array<nat>

    ghost predicate Valid()
      reads this, buckets, bucketOffsets
    {
      && |buckets| == MERGE_STRING_BUCKETS
      && bucketOffsets.Length == MERGE_STRING_BUCKETS
      && bucketOffsets[0] == 0
      && forall i :: 0 <= i < |buckets| ==> buckets[i].slot == i && buckets[i].Valid()
    }

    /** The sizes of the buckets, in order. */
    ghost function Sizes(): (sizes: seq<nat>)
      reads this, buckets
      ensures |sizes| == |buckets|
    {
      SizesOf(buckets)
    }

    /** Each bucket starts where the previous ones end. */
    ghost predicate OffsetsComputed()
      reads this, buckets, bucketOffsets
    {
      Valid() && forall i {:trigger bucketOffsets[i]} :: 0 <= i < MERGE_STRING_BUCKETS ==> bucketOffsets[i] == PrefixSum(Sizes(), i)
    }

    constructor ()
      ensures Valid() && fresh(bucketOffsets)
      ensures forall i :: 0 <= i < |buckets| ==> fresh(buckets[i]) && buckets[i].strings == []
    {
      var bs: seq<MergeStringsSectionBucket> := [];
      while |bs| < MERGE_STRING_BUCKETS
        invariant |bs| <= MERGE_STRING_BUCKETS
        invariant forall i :: 0 <= i < |bs| ==> fresh(bs[i]) && bs[i].slot == i && bs[i].Valid() && bs[i].strings == []
      {
        var b := new MergeStringsSectionBucket(|bs|);
        bs := bs + [b];
      }
      buckets := bs;
      bucketOffsets := new nat[MERGE_STRING_BUCKETS](_ => 0);
    }

    /**
     * The body of merge_strings for one output section: every string of every input section is
     * added to its bucket, then the bucket offsets are computed as running sums of bucket sizes.
     * `lists[b]` holds, per input section in order, the strings of bucket b.
     */
    method Merge(lists: seq<seq<seq<PreHashed>>>)
      requires Valid() && |lists| == MERGE_STRING_BUCKETS
      modifies buckets, bucketOffsets
      ensures OffsetsComputed()
      ensures forall b :: 0 <= b < MERGE_STRING_BUCKETS ==>
                buckets[b].strings == DedupOnto(old(buckets[b].strings), Flatten(lists[b]))
    {
      var b := 0;
      while b < MERGE_STRING_BUCKETS
        invariant 0 <= b <= MERGE_STRING_BUCKETS
        invariant Valid()
        invariant forall c :: 0 <= c < b ==>
                    buckets[c].strings == DedupOnto(old(buckets[c].strings), Flatten(lists[c]))
        invariant forall c :: b <= c < MERGE_STRING_BUCKETS ==> buckets[c].strings == old(buckets[c].strings)
      {
        AddLists(b, lists[b]);
        b := b + 1;
      }
      ComputeOffsets();
    }

    /** Adds the strings of each list, list by list, to bucket `b`. */
    method AddLists(b: nat, stringLists: seq<seq<PreHashed>>)
      requires Valid() && b < |buckets|
      modifies buckets[b]
      ensures Valid()
      ensures buckets[b].strings == DedupOnto(old(buckets[b].strings), Flatten(stringLists))
    {
      var bucket := buckets[b];
      var k := 0;
      while k < |stringLists|
        invariant 0 <= k <= |stringLists|
        invariant bucket.Valid()
        invariant bucket.strings == DedupOnto(old(bucket.strings), Flatten(stringLists[..k]))
      {
        assert stringLists[..k + 1][..k] == stringLists[..k];
        DedupOntoAppend(old(bucket.strings), Flatten(stringLists[..k]), stringLists[k]);
        bucket.AddStrings(stringLists[k]);
        k := k + 1;
      }
      assert stringLists[..k] == stringLists;
    }

    /** bucket_offsets[i] = bucket_offsets[i - 1] + buckets[i - 1].len(), for i from 1. */
    method ComputeOffsets()
      requires Valid()
      modifies bucketOffsets
      ensures OffsetsComputed()
    {
      ghost var sizes := Sizes();
      var i := 1;
      while i < MERGE_STRING_BUCKETS
        invariant 1 <= i <= MERGE_STRING_BUCKETS
        invariant Valid() && Sizes() == sizes
        invariant forall j {:trigger bucketOffsets[j]} :: 0 <= j < i ==> bucketOffsets[j] == PrefixSum(sizes, j)
      {
        bucketOffsets[i] := bucketOffsets[i - 1] + buckets[i - 1].Len();
        i := i + 1;
      }
    }

    /** Size of the output section: the end of the last bucket, i.e. the sum of all bucket sizes. */
    function Len(): (n: nat)
      reads this, buckets, bucketOffsets
      requires OffsetsComputed()
      ensures n == PrefixSum(Sizes(), MERGE_STRING_BUCKETS)
    {
      bucketOffsets[MERGE_STRING_BUCKETS - 1] + buckets[MERGE_STRING_BUCKETS - 1].Len()
    }

    /** Offset of `s` in the output section: its bucket's offset plus its offset in the bucket. */
    function Get(s: PreHashed): (r: Option<nat>)
      reads this, buckets, bucketOffsets
      requires Valid()
      ensures r.Some? <==> s.value.bytes in buckets[BucketOf(s)].strings
    {
      var b := BucketOf(s);
      var inBucket := buckets[b].Get(s.value.bytes);
      if inBucket.Some? then Some(bucketOffsets[b] + inBucket.value) else None
    }

    /**
     * A string stored in its bucket is found at that bucket's start plus its offset in the bucket;
     * it lies wholly inside its bucket's region, and so inside the section.
     */
    lemma GetUnfold(s: PreHashed)
      requires Valid()
      ensures Get(s) == if buckets[BucketOf(s)].Get(s.value.bytes).Some?
                        then Some(bucketOffsets[BucketOf(s)] + buckets[BucketOf(s)].Get(s.value.bytes).value)
                        else None
    {
    }

    lemma GetWithinSection(s: PreHashed, i: nat)
      requires OffsetsComputed()
      requires i < |buckets[BucketOf(s)].strings|
      requires buckets[BucketOf(s)].strings[i] == s.value.bytes
      ensures Get(s) == Some(PrefixSum(Sizes(), BucketOf(s)) + LengthBefore(buckets[BucketOf(s)].strings, i))
      ensures Get(s).value + |s.value.bytes| <= PrefixSum(Sizes(), BucketOf(s) + 1)
      ensures Get(s).value + |s.value.bytes| <= Len()
    {
      var b := BucketOf(s);
      var bucket := buckets[b];
      var sizes := Sizes();
      var within := LengthBefore(bucket.strings, i);
      bucket.GetLocatesString(i);
      GetUnfold(s);
      assert bucketOffsets[b] == PrefixSum(sizes, b);
      assert sizes[b] == bucket.Len();
      PrefixSumMonotone(sizes, b + 1, MERGE_STRING_BUCKETS);
    }
  }
}
