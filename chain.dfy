/**
 * The path-chain resolver, `get_diff_path_list`: the directories from the
 * current one up to and including root, nearest first, or nothing when the
 * request is invalid.
 */
module PathChain {
  import opened Paths
  import opened FileSystem

  /** The traversal cap the source declares (`maxiter`). */
  const MaxIter: nat := 20

  /**
   * What `get_diff_path_list(root, current)` returns: `[]` when either
   * directory is missing or `current` escapes root, otherwise the chain
   * from `current` up to root.
   */
  function DiffPathList(fs: FileSystem, root: Path, current: Path): seq<Path> {
    if root in fs && current in fs && !OverRootPath(root, current) then
      ParentChain(root, current)
    else
      []
  }

  /**
   * The cases of `get_diff_path_list`: an invalid request gives `[]`; for
   * `current` lying `k` levels below root the result has `k + 1` entries,
   * starts at `current`, steps to the parent each time and ends at root;
   * for `current == root` it is `[root]`.
   */
  lemma {:induction false} DiffPathListCases(fs: FileSystem, root: Path, current: Path)
    ensures root !in fs || current !in fs ==> DiffPathList(fs, root, current) == []
    ensures !(root <= current) ==> DiffPathList(fs, root, current) == []
    ensures root in fs && current in fs && root <= current ==>
              var r := DiffPathList(fs, root, current);
              && |r| == |current| - |root| + 1
              && r[0] == current
              && r[|r| - 1] == root
              && (forall i :: 0 <= i < |r| - 1 ==> r[i + 1] == Parent(r[i]))
    ensures root in fs ==> DiffPathList(fs, root, root) == [root]
  {
    if root in fs && current in fs && root <= current {
      ParentChainShape(root, current);
    }
  }

  /**
   * `get_diff_path_list`. The loop counter `iter` is never advanced, as in
   * the source, so the `maxiter` guard never stops the walk; the walk ends
   * because each step removes one component and root is a prefix of the
   * current directory.
   */
  method GetDiffPathList(fs: FileSystem, root: Path, current: Path) returns (pathList: seq<Path>)
    ensures pathList == DiffPathList(fs, root, current)
  {
    pathList := [];
    if root in fs && current in fs {
      var tpath := current;
      if OverRootPath(root, current) {
        return [];
      }
      var iter := 0;
      while tpath != root && iter < MaxIter
        invariant iter == 0
        invariant root <= tpath
        invariant pathList + ParentChain(root, tpath) == ParentChain(root, current)
        decreases |tpath|
      {
        if OverRootPath(root, tpath) {
          break;
        }
        pathList := pathList + [tpath];
        assert ParentChain(root, tpath) == [tpath] + ParentChain(root, Parent(tpath));
        tpath := Parent(tpath);
      }
      pathList := pathList + [root];
      return;
    } else {
      return [];
    }
  }
}
