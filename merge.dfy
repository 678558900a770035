/**
 * The tag merge engine, `get_overwrite_json_dict`: the tag files found
 * along a path chain merged into one mapping, in which a directory nearer
 * the start of the chain (nearer the current directory) overrides the
 * directories after it.
 */
module TagMerge {
  import opened Wrappers
  import opened Tags
  import opened Paths
  import opened FileSystem

  /**
   * The accumulator after the loop has seen `ps`: each directory's tag file
   * `jj` replaces the accumulator by `jj | jdict`.
   */
  function MergeOf(fs: FileSystem, ps: seq<Path>): TagList
    decreases |ps|
  {
    if ps == [] then []
    else
      var m := MergeOf(fs, ps[..|ps| - 1]);
      match TagFileAt(fs, ps[|ps| - 1])
      case None => m
      case Some(jj) => Union(jj, m)
  }

  /** The value of `k` in the tag file of `d`, if `d` has one that holds `k`. */
  function DefinedAt(fs: FileSystem, d: Path, k: string): Option<string> {
    match TagFileAt(fs, d)
    case None => None
    case Some(jj) => Lookup(jj, k)
  }

  /** Reference definition: the value of `k` in the first directory of `ps` whose tag file holds `k`. */
  function FirstDefining(fs: FileSystem, ps: seq<Path>, k: string): Option<string>
    decreases |ps|
  {
    if ps == [] then None
    else if DefinedAt(fs, ps[0], k).Some? then DefinedAt(fs, ps[0], k)
    else FirstDefining(fs, ps[1..], k)
  }

  /** A directory added at the far end of the chain only fills in keys no nearer directory holds. */
  lemma {:induction false} FirstDefiningSnoc(fs: FileSystem, ps: seq<Path>, d: Path, k: string)
    ensures FirstDefining(fs, ps + [d], k) ==
              if FirstDefining(fs, ps, k).Some? then FirstDefining(fs, ps, k) else DefinedAt(fs, d, k)
    decreases |ps|
  {
    if ps == [] {
      assert ([] + [d])[1..] == [];
    } else {
      assert (ps + [d])[1..] == ps[1..] + [d];
      FirstDefiningSnoc(fs, ps[1..], d, k);
    }
  }

  /**
   * Merge precedence: the merged mapping is a dict, and each key's value
   * comes from the earliest directory of the chain whose tag file holds it;
   * a key no tag file holds is absent.
   */
  lemma {:induction false} MergePrecedence(fs: FileSystem, ps: seq<Path>, k: string)
    requires WellFormed(fs)
    ensures UniqueKeys(MergeOf(fs, ps))
    ensures Lookup(MergeOf(fs, ps), k) == FirstDefining(fs, ps, k)
    decreases |ps|
  {
    if ps != [] {
      var qs, d := ps[..|ps| - 1], ps[|ps| - 1];
      assert ps == qs + [d];
      MergePrecedence(fs, qs, k);
      FirstDefiningSnoc(fs, qs, d, k);
      match TagFileAt(fs, d)
      case None =>
      case Some(jj) =>
        assert UniqueKeys(jj);
        UnionUnique(jj, MergeOf(fs, qs));
        UnionLookup(jj, MergeOf(fs, qs), k);
    }
  }

  /**
   * Column order: when root (the last directory of the chain) has a tag
   * file, the merged keys start with root's keys in root's order, and the
   * keys only nearer directories hold come after them.
   */
  lemma RootKeysFirst(fs: FileSystem, ps: seq<Path>)
    requires WellFormed(fs)
    requires ps != [] && TagFileAt(fs, ps[|ps| - 1]).Some?
    ensures var rootKeys := Keys(TagFileAt(fs, ps[|ps| - 1]).value);
            Keys(MergeOf(fs, ps)) == rootKeys + NewKeys(Keys(MergeOf(fs, ps[..|ps| - 1])), rootKeys)
  {
    var qs := ps[..|ps| - 1];
    if qs != [] {
      MergePrecedence(fs, qs, "");
    }
    UnionKeys(TagFileAt(fs, ps[|ps| - 1]).value, MergeOf(fs, qs));
  }

  /** A directory without a tag file, wherever it sits in the chain, changes no key. */
  lemma {:induction false} NoTagFileNoEffect(fs: FileSystem, a: seq<Path>, d: Path, b: seq<Path>, k: string)
    requires WellFormed(fs)
    requires TagFileAt(fs, d) == None
    ensures Lookup(MergeOf(fs, a + [d] + b), k) == Lookup(MergeOf(fs, a + b), k)
  {
    MergePrecedence(fs, a + [d] + b, k);
    MergePrecedence(fs, a + b, k);
    SkipUndefined(fs, a, d, b, k);
  }

  lemma {:induction false} SkipUndefined(fs: FileSystem, a: seq<Path>, d: Path, b: seq<Path>, k: string)
    requires TagFileAt(fs, d) == None
    ensures FirstDefining(fs, a + [d] + b, k) == FirstDefining(fs, a + b, k)
    decreases |a|
  {
    if a == [] {
      assert a + [d] + b == [d] + b && a + b == b;
      assert DefinedAt(fs, d, k) == None;
      assert ([d] + b)[1..] == b;
    } else {
      assert (a + [d] + b)[1..] == a[1..] + [d] + b;
      assert (a + b)[1..] == a[1..] + b;
      SkipUndefined(fs, a[1..], d, b, k);
    }
  }

  /** Writing a mapping as a directory's tag file and merging that directory alone gives it back. */
  lemma SaveThenMerge(fs: FileSystem, d: Path, tags: TagList)
    requires d in fs
    ensures MergeOf(fs[d := fs[d].(tagFile := Some(tags))], [d]) == tags
  {
    var fs' := fs[d := fs[d].(tagFile := Some(tags))];
    assert [d][..0] == [];
    assert TagFileAt(fs', d) == Some(tags);
  }

  /**
   * `get_overwrite_json_dict`: for each directory of the chain that holds a
   * tag file, `jdict = jj | jdict`.
   */
  method GetOverwriteJsonDict(fs: FileSystem, pathlist: seq<Path>) returns (jdict: TagList)
    ensures jdict == MergeOf(fs, pathlist)
    ensures pathlist == [] ==> jdict == []
    ensures WellFormed(fs) ==>
              UniqueKeys(jdict) && forall k :: Lookup(jdict, k) == FirstDefining(fs, pathlist, k)
  {
    jdict := [];
    var i := 0;
    while i < |pathlist|
      invariant 0 <= i <= |pathlist|
      invariant jdict == MergeOf(fs, pathlist[..i])
    {
      var pp := pathlist[i];
      assert pathlist[..i + 1][..i] == pathlist[..i];
      if TagFileAt(fs, pp).Some? {
        var jj := TagFileAt(fs, pp).value;
        jdict := Union(jj, jdict);
      }
      i := i + 1;
    }
    assert pathlist[..i] == pathlist;
    if WellFormed(fs) {
      forall k ensures Lookup(jdict, k) == FirstDefining(fs, pathlist, k) {
        MergePrecedence(fs, pathlist, k);
      }
      MergePrecedence(fs, pathlist, "");
    }
  }
}
