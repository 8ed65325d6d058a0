/**
 * Identifiers and small helpers shared by the symbol and section resolution model.
 * Input files are numbered by one flat index: the linker's (group, file) pair is
 * flattened, file 0 being the prelude.
 */
module LinkTypes {

  newtype byte = x: int | 0 <= x < 256

  /** A symbol name or a section name, as raw bytes. */
  type Name = seq<byte>

  /** Index of an input file. */
  type FileId = nat

  /** Global symbol index; 0 is the undefined symbol. */
  type SymbolId = nat

  /** Index of an output section. */
  type OutputSectionId = nat

  const UNDEFINED_SYMBOL: SymbolId := 0

  /** The prelude (linker-internal definitions) is the first file of the first group. */
  const PRELUDE_FILE_ID: FileId := 0

  /** Every failure the modelled code can report. */
  datatype Error =
    | NoInputFiles          // "Cannot link with 0 input files"
    | NotNullTerminated     // a string in a string-merge section lacks its null terminator
    | MalformedSection      // the object-file reader could not classify a section
    | UnreadableSectionData // the object-file reader could not produce a section's bytes

  predicate NoDuplicates<T(==)>(s: seq<T>) {
    forall i, j :: 0 <= i < j < |s| ==> s[i] != s[j]
  }

  predicate StartsWith(s: Name, prefix: Name) {
    |prefix| <= |s| && s[..|prefix|] == prefix
  }

  lemma NoDuplicatesAppend<T>(s: seq<T>, x: T)
    requires NoDuplicates(s) && x !in s
    ensures NoDuplicates(s + [x])
  {
  }
}
