/**
 * Directory paths as sequences of components. Paths are taken to be
 * canonical, so `os.path.samefile` on two existing directories is equality
 * of their component sequences.
 */
module Paths {
  import opened Text

  type Path = seq<string>

  /** The separator `os.path.relpath` joins with (the tool runs on Windows). */
  const Sep: char := '\\'

  /** `os.path.commonpath([a, b])`: the longest run of leading components `a` and `b` share. */
  function CommonPath(a: Path, b: Path): (c: Path)
    ensures c <= a && c <= b
    ensures |c| == |a| || |c| == |b| || a[|c|] != b[|c|]
  {
    if a == [] || b == [] || a[0] != b[0] then [] else [a[0]] + CommonPath(a[1..], b[1..])
  }

  /**
   * `over_root_path`: the common path of root and target is not root itself,
   * which holds exactly when root is neither an ancestor of the target nor
   * the target itself.
   */
  function OverRootPath(root: Path, t: Path): (over: bool)
    ensures over <==> !(root <= t)
  {
    CommonPath(root, t) != root
  }

  /** `os.path.dirname` of a directory path; the top of the tree is its own parent. */
  function Parent(p: Path): (q: Path)
    ensures p != [] ==> q + [p[|p| - 1]] == p
    ensures p == [] ==> q == []
  {
    if p == [] then [] else p[..|p| - 1]
  }

  /**
   * `[t, dirname(t), dirname(dirname(t)), ..., root]`: the directories from
   * `t` up to `root`, taking the parent one step at a time.
   */
  function ParentChain(root: Path, t: Path): seq<Path>
    requires root <= t
    decreases |t|
  {
    if t == root then [root] else [t] + ParentChain(root, Parent(t))
  }

  /**
   * For `t` lying `k` levels below `root` the chain has `k + 1` entries; entry
   * `i` is `t` with its last `i` components removed, so it starts at `t`, each
   * entry is the parent of the one before, and it ends at `root`.
   */
  lemma {:induction false} ParentChainShape(root: Path, t: Path)
    requires root <= t
    ensures |ParentChain(root, t)| == |t| - |root| + 1
    ensures forall i :: 0 <= i < |ParentChain(root, t)| ==> ParentChain(root, t)[i] == t[..|t| - i]
    ensures ParentChain(root, t)[0] == t
    ensures ParentChain(root, t)[|ParentChain(root, t)| - 1] == root
    ensures forall i :: 0 <= i < |ParentChain(root, t)| - 1 ==>
              ParentChain(root, t)[i + 1] == Parent(ParentChain(root, t)[i])
    decreases |t|
  {
    if t != root {
      var p := Parent(t);
      ParentChainShape(root, p);
      var c, rest := ParentChain(root, t), ParentChain(root, p);
      assert c == [t] + rest;
      forall i | 0 <= i < |c|
        ensures c[i] == t[..|t| - i]
      {
        if i > 0 {
          assert c[i] == rest[i - 1] == p[..|p| - (i - 1)];
        }
      }
    }
  }

  /**
   * `os.path.relpath(t, start=root)`: one `..` for each component of root
   * not shared with `t`, then the rest of `t`, joined with the separator;
   * `.` when nothing is left.
   */
  function RelPath(root: Path, t: Path): string {
    var c := |CommonPath(root, t)|;
    var parts := seq(|root| - c, _ => "..") + t[c..];
    if parts == [] then "." else Join(parts, Sep)
  }

  /**
   * Inside root's subtree the relative path is the components below root,
   * and splitting it on the separator recovers them (when no component
   * contains the separator): `root + split(relpath) == t`.
   */
  lemma RelPathBelowRoot(root: Path, t: Path)
    requires root <= t && t != root
    requires forall i :: 0 <= i < |t| ==> Sep !in t[i]
    ensures RelPath(root, t) == Join(t[|root|..], Sep)
    ensures root + Split(RelPath(root, t), Sep) == t
  {
    assert !OverRootPath(root, t);
    var below := t[|root|..];
    assert seq(0, _ => "..") + below == below;
    assert forall i :: 0 <= i < |below| ==> Sep !in below[i] by {
      forall i | 0 <= i < |below| ensures Sep !in below[i] {
        assert below[i] == t[|root| + i];
      }
    }
    SplitJoin(below, Sep);
  }
}
