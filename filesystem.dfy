/**
 * The directory tree the tool works on, reduced to what the core reads:
 * for each existing directory, its tag file (already parsed), whether the
 * no-analysis marker file is present, and what `os.listdir` returns.
 * The tag-file name and the marker name are fixed for a whole run, so a
 * directory records only whether it holds those two files.
 */
module FileSystem {
  import opened Wrappers
  import opened Tags
  import opened Paths

  /** `entries` is `os.listdir(dir)` in its order: names of files and subdirectories alike. */
  datatype Dir = Dir(tagFile: Option<TagList>, noAnalysis: bool, entries: seq<string>)

  /** The existing directories; `p in fs` is `os.path.exists(p)` (and `isdir`). */
  type FileSystem = map<Path, Dir>

  /** The parsed tag file of directory `p`, or None when there is none (or no directory). */
  function TagFileAt(fs: FileSystem, p: Path): Option<TagList> {
    if p in fs then fs[p].tagFile else None
  }

  /** The no-analysis marker file exists in `p`. */
  predicate Marked(fs: FileSystem, p: Path) {
    p in fs && fs[p].noAnalysis
  }

  /**
   * The listings agree with the tree below `t`: every existing directory
   * strictly below `t` has an existing parent whose `os.listdir` names it.
   */
  predicate Listed(fs: FileSystem, t: Path) {
    forall p :: p in fs && t < p ==> Parent(p) in fs && p[|p| - 1] in fs[Parent(p)].entries
  }

  /** `os.listdir` names each entry of a directory once. */
  predicate ListingsDistinct(fs: FileSystem) {
    forall p :: p in fs ==> Distinct(fs[p].entries)
  }

  /** Every tag file is a JSON object, so it has no key twice. */
  predicate WellFormed(fs: FileSystem) {
    forall p :: p in fs && fs[p].tagFile.Some? ==> UniqueKeys(fs[p].tagFile.value)
  }
}
