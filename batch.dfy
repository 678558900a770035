/**
 * The batch executor, `startExeJson` / `recExeJson`: walk the tree below
 * root, run the analysis script in each directory that carries no
 * no-analysis marker, and collect the formatted output of all of them in
 * one result file, the header written once.
 *
 * The script's standard output, already split into lines, is a parameter
 * `out` of the run; so are the tree and `skip_row`.
 */
module Batch {
  import opened Wrappers
  import opened Tags
  import opened Paths
  import opened FileSystem
  import opened PathChain
  import opened TagMerge
  import opened Report

  /** Everything a run depends on: the tree, root, what the script prints in each directory, and `skip_row`. */
  datatype Job = Job(fs: FileSystem, root: Path, out: Path -> seq<string>, skipRow: nat)

  /** How a run ends: normally, or with the exception the source raises. */
  datatype Status =
    | Done
    | ListDirFailed(at: Path)   // `os.listdir` on a directory that does not exist
    | RecursionLimit            // Python's recursion limit reached
    | RootTagFileMissing        // `open` of root's tag file fails

  /**
   * The state a walk threads through: how it stands, the lines written to
   * the result file, `useHeader[0]`, and the directories whose script was
   * started (`subProcList`), in order.
   */
  datatype Walk = Walk(status: Status, lines: seq<string>, header: bool, runs: seq<Path>)

  /**
   * The body of `recExeJson` for a directory without the marker: resolve
   * its chain, merge its tags, run the script and format its output.
   */
  function RunScript(job: Job, t: Path, w: Walk): Walk {
    var jdata := MergeOf(job.fs, DiffPathList(job.fs, job.root, t));
    w.(lines := w.lines + SubProcLines(w.header, RelPath(job.root, t), jdata, job.skipRow, job.out(t)),
       header := HeaderAfter(w.header, job.out(t)),
       runs := w.runs + [t])
  }

  /** The existing directories at or below `t`. */
  function Below(fs: FileSystem, t: Path): set<Path> {
    set p | p in fs.Keys && t <= p
  }

  lemma BelowShrinks(fs: FileSystem, t: Path, e: string)
    requires t in fs
    ensures Below(fs, t + [e]) < Below(fs, t)
  {
    assert t in Below(fs, t);
    forall p | p in Below(fs, t + [e]) ensures p in Below(fs, t) {
      assert t <= t + [e];
    }
  }

  // ---------------------------------------------------------------------
  // The walk as written: children of `tpath` are looked up below `tpath`
  // but visited at `root_path + ff`.
  // ---------------------------------------------------------------------

  /**
   * `recExeJson(tpath)` as written, with at most `fuel` nested calls left
   * before Python's recursion limit.
   */
  function WalkDirAsWritten(job: Job, t: Path, w: Walk, fuel: nat): Walk
    decreases fuel, 0
  {
    if fuel == 0 then w.(status := RecursionLimit)
    else
      var w1 := if Marked(job.fs, t) then w else RunScript(job, t, w);
      if t !in job.fs then w1.(status := ListDirFailed(t))
      else WalkEntriesAsWritten(job, t, job.fs[t].entries, w1, fuel - 1)
  }

  /** The child loop of `recExeJson(tpath)` as written, over the entries `es` still to go. */
  function WalkEntriesAsWritten(job: Job, t: Path, es: seq<string>, w: Walk, fuel: nat): Walk
    decreases fuel, 1, |es|
  {
    if es == [] || w.status != Done then w
    else
      var w1 := if t + [es[0]] in job.fs then WalkDirAsWritten(job, job.root + [es[0]], w, fuel) else w;
      WalkEntriesAsWritten(job, t, es[1..], w1, fuel)
  }

  /** `startExeJson` over the walk as written. */
  function StartRunAsWritten(job: Job, fuel: nat): Walk {
    if TagFileAt(job.fs, job.root).None? then Initial().(status := RootTagFileMissing)
    else WalkEntriesAsWritten(job, job.root, job.fs[job.root].entries, Initial(), fuel)
  }

  /**
   * As written, every directory the script is started in is the one the
   * walk began at or a direct child name of root: nothing deeper is ever
   * analysed.
   */
  lemma {:induction false} AsWrittenRunsNearRoot(job: Job, t: Path, w: Walk, fuel: nat)
    ensures var w' := WalkDirAsWritten(job, t, w, fuel);
            && w.runs <= w'.runs
            && forall i :: |w.runs| <= i < |w'.runs| ==>
                 w'.runs[i] == t || (job.root <= w'.runs[i] && |w'.runs[i]| == |job.root| + 1)
    decreases fuel, 0
  {
    if fuel > 0 {
      var w1 := if Marked(job.fs, t) then w else RunScript(job, t, w);
      if t in job.fs {
        AsWrittenEntriesRunsNearRoot(job, t, job.fs[t].entries, w1, fuel - 1);
      }
    }
  }

  lemma {:induction false} AsWrittenEntriesRunsNearRoot(job: Job, t: Path, es: seq<string>, w: Walk, fuel: nat)
    ensures var w' := WalkEntriesAsWritten(job, t, es, w, fuel);
            && w.runs <= w'.runs
            && forall i :: |w.runs| <= i < |w'.runs| ==>
                 job.root <= w'.runs[i] && |w'.runs[i]| == |job.root| + 1
    decreases fuel, 1, |es|
  {
    if es != [] && w.status == Done {
      var w1 := w;
      if t + [es[0]] in job.fs {
        var c := job.root + [es[0]];
        w1 := WalkDirAsWritten(job, c, w, fuel);
        AsWrittenRunsNearRoot(job, c, w, fuel);
        assert job.root <= c && |c| == |job.root| + 1;
      }
      AsWrittenEntriesRunsNearRoot(job, t, es[1..], w1, fuel);
    }
  }

  /** A run's start state, before any directory. */
  function Initial(): Walk {
    Walk(Done, [], true, [])
  }

  /** root holds `a`, `a` holds `b`: an ordinary two-level tree. */
  function TwoLevelTree(): FileSystem {
    map[["r"] := Dir(Some([]), false, ["a"]),
        ["r", "a"] := Dir(None, false, ["b"]),
        ["r", "a", "b"] := Dir(None, false, [])]
  }

  /** root holds `a`, and `a` holds a directory that is also called `a`. */
  function RepeatedNameTree(): FileSystem {
    map[["r"] := Dir(Some([]), false, ["a"]),
        ["r", "a"] := Dir(None, false, ["a"]),
        ["r", "a", "a"] := Dir(None, false, [])]
  }

  /**
   * As written, a two-level tree aborts: the walk finds `b` below `r/a`,
   * descends into `r/b`, which does not exist, and `os.listdir` fails there.
   */
  lemma AsWrittenTwoLevelFails(out: Path -> seq<string>, skipRow: nat, fuel: nat)
    requires fuel >= 2
    ensures StartRunAsWritten(Job(TwoLevelTree(), ["r"], out, skipRow), fuel).status == ListDirFailed(["r", "b"])
  {
    var job := Job(TwoLevelTree(), ["r"], out, skipRow);
    var ra, rb := ["r", "a"], ["r", "b"];
    assert ["r"] + ["a"] == ra && ra + ["b"] == ["r", "a", "b"] && ["r"] + ["b"] == rb;
    assert job.fs[["r"]].entries == ["a"] && job.fs[ra].entries == ["b"];
    assert ra in job.fs && !Marked(job.fs, ra) && ["r", "a", "b"] in job.fs;
    assert rb !in job.fs && !Marked(job.fs, rb);
    var w1 := RunScript(job, ra, Initial());
    var w2 := RunScript(job, rb, w1).(status := ListDirFailed(rb));
    assert WalkDirAsWritten(job, rb, w1, fuel - 1) == w2;
    assert WalkEntriesAsWritten(job, ra, ["b"], w1, fuel - 1) == WalkEntriesAsWritten(job, ra, [], w2, fuel - 1);
    assert WalkDirAsWritten(job, ra, Initial(), fuel) == w2;
    assert WalkEntriesAsWritten(job, ["r"], ["a"], Initial(), fuel) == WalkEntriesAsWritten(job, ["r"], [], w2, fuel);
  }

  /**
   * As written, a directory `a` holding another `a` recurses without end:
   * `r/a` finds `a` below itself and visits `r/a` again, until the
   * recursion limit, however large it is.
   */
  lemma {:induction false} AsWrittenRepeatedNameLoops(out: Path -> seq<string>, skipRow: nat, fuel: nat)
    ensures StartRunAsWritten(Job(RepeatedNameTree(), ["r"], out, skipRow), fuel).status == RecursionLimit
  {
    var job := Job(RepeatedNameTree(), ["r"], out, skipRow);
    var ra := ["r", "a"];
    assert ["r"] + ["a"] == ra;
    assert job.fs[["r"]].entries == ["a"] && ra in job.fs;
    assert TagFileAt(job.fs, ["r"]) == Some([]);
    RevisitLoops(job, Initial(), fuel);
    var w1 := WalkDirAsWritten(job, ra, Initial(), fuel);
    assert WalkEntriesAsWritten(job, ["r"], ["a"], Initial(), fuel) == WalkEntriesAsWritten(job, ["r"], [], w1, fuel);
  }

  lemma {:induction false} RevisitLoops(job: Job, w: Walk, fuel: nat)
    requires job.fs == RepeatedNameTree() && job.root == ["r"] && w.status == Done
    ensures WalkDirAsWritten(job, ["r", "a"], w, fuel).status == RecursionLimit
    decreases fuel
  {
    var ra := ["r", "a"];
    if fuel > 0 {
      assert ra + ["a"] == ["r", "a", "a"] && ["r"] + ["a"] == ra;
      assert ra in job.fs && ["r", "a", "a"] in job.fs && !Marked(job.fs, ra);
      assert job.fs[ra].entries == ["a"];
      var w1 := RunScript(job, ra, w);
      var w2 := WalkDirAsWritten(job, ra, w1, fuel - 1);
      if fuel - 1 > 0 {
        RevisitLoops(job, w1, fuel - 1);
      }
      assert w2.status == RecursionLimit;
      assert WalkEntriesAsWritten(job, ra, ["a"], w1, fuel - 1) == WalkEntriesAsWritten(job, ra, [], w2, fuel - 1);
    }
  }

  // ---------------------------------------------------------------------
  // The walk as intended: the children of `tpath` are visited at
  // `tpath + ff`.
  // ---------------------------------------------------------------------

  /**
   * `recExeJson(tpath)` with child paths built from `tpath`. The
   * no-analysis marker only keeps the script from running in `tpath`; the
   * children are visited either way.
   */
  function WalkDir(job: Job, t: Path, w: Walk): Walk
    requires t in job.fs
    decreases Below(job.fs, t), 1
  {
    var w1 := if Marked(job.fs, t) then w else RunScript(job, t, w);
    WalkEntries(job, t, job.fs[t].entries, w1)
  }

  /** The child loop of `recExeJson(tpath)`, over the entries `es` still to go. */
  function WalkEntries(job: Job, t: Path, es: seq<string>, w: Walk): Walk
    requires t in job.fs
    decreases Below(job.fs, t), 0, |es|
  {
    if es == [] then w
    else
      BelowShrinks(job.fs, t, es[0]);
      var w1 := if t + [es[0]] in job.fs then WalkDir(job, t + [es[0]], w) else w;
      WalkEntries(job, t, es[1..], w1)
  }

  /** `startExeJson`: read root's tag file, then walk each subdirectory of root. */
  function StartRun(job: Job): Walk {
    if TagFileAt(job.fs, job.root).None? then Initial().(status := RootTagFileMissing)
    else WalkEntries(job, job.root, job.fs[job.root].entries, Initial())
  }

  /** Reference order: the unmarked directories at or below `t`, in preorder over `os.listdir` order. */
  function Visits(fs: FileSystem, t: Path): seq<Path>
    requires t in fs
    decreases Below(fs, t), 1
  {
    (if Marked(fs, t) then [] else [t]) + VisitsEntries(fs, t, fs[t].entries)
  }

  function VisitsEntries(fs: FileSystem, t: Path, es: seq<string>): seq<Path>
    requires t in fs
    decreases Below(fs, t), 0, |es|
  {
    if es == [] then []
    else
      BelowShrinks(fs, t, es[0]);
      (if t + [es[0]] in fs then Visits(fs, t + [es[0]]) else []) + VisitsEntries(fs, t, es[1..])
  }

  /** Running the script in each directory of `ps` in turn. */
  function RunAll(job: Job, ps: seq<Path>, w: Walk): Walk
    decreases |ps|
  {
    if ps == [] then w else RunAll(job, ps[1..], RunScript(job, ps[0], w))
  }

  lemma {:induction false} RunAllAppend(job: Job, a: seq<Path>, b: seq<Path>, w: Walk)
    ensures RunAll(job, a + b, w) == RunAll(job, b, RunAll(job, a, w))
    decreases |a|
  {
    if a == [] {
      assert a + b == b;
    } else {
      assert (a + b)[1..] == a[1..] + b;
      RunAllAppend(job, a[1..], b, RunScript(job, a[0], w));
    }
  }

  /**
   * The walk runs the script in exactly the unmarked directories below
   * `t`, in preorder, and never fails.
   */
  lemma {:induction false} WalkIsPreorder(job: Job, t: Path, w: Walk)
    requires t in job.fs
    ensures WalkDir(job, t, w) == RunAll(job, Visits(job.fs, t), w)
    decreases Below(job.fs, t), 1
  {
    var w1 := if Marked(job.fs, t) then w else RunScript(job, t, w);
    var me: seq<Path> := if Marked(job.fs, t) then [] else [t];
    assert RunAll(job, me, w) == w1 by {
      if !Marked(job.fs, t) {
        assert me[1..] == [];
      }
    }
    EntriesArePreorder(job, t, job.fs[t].entries, w1);
    RunAllAppend(job, me, VisitsEntries(job.fs, t, job.fs[t].entries), w);
  }

  lemma {:induction false} EntriesArePreorder(job: Job, t: Path, es: seq<string>, w: Walk)
    requires t in job.fs
    ensures WalkEntries(job, t, es, w) == RunAll(job, VisitsEntries(job.fs, t, es), w)
    decreases Below(job.fs, t), 0, |es|
  {
    if es != [] {
      BelowShrinks(job.fs, t, es[0]);
      var c := t + [es[0]];
      var vc: seq<Path> := if c in job.fs then Visits(job.fs, c) else [];
      var w1 := if c in job.fs then WalkDir(job, c, w) else w;
      if c in job.fs {
        WalkIsPreorder(job, c, w);
      }
      EntriesArePreorder(job, t, es[1..], w1);
      RunAllAppend(job, vc, VisitsEntries(job.fs, t, es[1..]), w);
    }
  }

  /** The intended walk raises nothing: it ends as it started. */
  lemma WalkNeverFails(job: Job, t: Path, w: Walk)
    requires t in job.fs
    ensures WalkDir(job, t, w).status == w.status
  {
    WalkIsPreorder(job, t, w);
    RunAllHeader(job, Visits(job.fs, t), w);
  }

  /** Every directory visited is an existing, unmarked directory at or below `t`. */
  lemma {:induction false} VisitsSound(fs: FileSystem, t: Path)
    requires t in fs
    ensures forall p :: p in Visits(fs, t) ==> p in fs && t <= p && !Marked(fs, p)
    decreases Below(fs, t), 1
  {
    EntriesSound(fs, t, fs[t].entries);
  }

  lemma {:induction false} EntriesSound(fs: FileSystem, t: Path, es: seq<string>)
    requires t in fs
    ensures forall p :: p in VisitsEntries(fs, t, es) ==> p in fs && t < p && !Marked(fs, p)
    decreases Below(fs, t), 0, |es|
  {
    if es != [] {
      BelowShrinks(fs, t, es[0]);
      var c := t + [es[0]];
      if c in fs {
        VisitsSound(fs, c);
        assert t < c;
      }
      EntriesSound(fs, t, es[1..]);
    }
  }

  /**
   * The marker does not prune: everything visited below a child directory
   * of `t` is visited from `t`, marked or not.
   */
  lemma {:induction false} MarkerDoesNotPrune(fs: FileSystem, t: Path, es: seq<string>, e: string)
    requires t in fs && t + [e] in fs && e in es
    ensures forall p :: p in Visits(fs, t + [e]) ==> p in VisitsEntries(fs, t, es)
    decreases |es|
  {
    BelowShrinks(fs, t, es[0]);
    if es[0] != e {
      MarkerDoesNotPrune(fs, t, es[1..], e);
    }
  }

  /** Everything visited below a directory at or below `t` is visited from `t`. */
  lemma {:induction false} VisitsMono(fs: FileSystem, t: Path, p: Path)
    requires t in fs && p in fs && t <= p && Listed(fs, t)
    ensures forall q :: q in Visits(fs, p) ==> q in Visits(fs, t)
    decreases |p|
  {
    if p != t {
      var pp := Parent(p);
      var e := p[|p| - 1];
      assert pp + [e] == p;
      assert t <= pp by {
        assert t == p[..|t|] && |t| <= |pp|;
        assert pp[..|t|] == p[..|t|];
      }
      MarkerDoesNotPrune(fs, pp, fs[pp].entries, e);
      VisitsMono(fs, t, pp);
    }
  }

  /**
   * Completeness: when the listings agree with the tree, every existing
   * unmarked directory at or below `t` is visited.
   */
  lemma VisitsComplete(fs: FileSystem, t: Path, q: Path)
    requires t in fs && Listed(fs, t)
    requires q in fs && t <= q && !Marked(fs, q)
    ensures q in Visits(fs, t)
  {
    assert q in Visits(fs, q);
    VisitsMono(fs, t, q);
  }

  /** No path occurs twice. */
  predicate DistinctPaths(ps: seq<Path>) {
    forall i, j :: 0 <= i < j < |ps| ==> ps[i] != ps[j]
  }

  lemma DistinctConcat(a: seq<Path>, b: seq<Path>)
    requires DistinctPaths(a) && DistinctPaths(b)
    requires forall p :: p in a ==> p !in b
    ensures DistinctPaths(a + b)
  {
    forall i, j | 0 <= i < j < |a + b| ensures (a + b)[i] != (a + b)[j] {
      if i < |a| && j >= |a| {
        assert (a + b)[i] in a && (a + b)[j] == b[j - |a|];
      }
    }
  }

  /** The child loop visits only directories below a child named in the entries it goes through. */
  lemma {:induction false} EntriesUnder(fs: FileSystem, t: Path, es: seq<string>)
    requires t in fs
    ensures forall p :: p in VisitsEntries(fs, t, es) ==> t < p && p[|t|] in es
    decreases |es|
  {
    if es != [] {
      BelowShrinks(fs, t, es[0]);
      var c := t + [es[0]];
      if c in fs {
        VisitsSound(fs, c);
        forall p | p in Visits(fs, c) ensures t < p && p[|t|] == es[0] {
          assert c <= p && p[|t|] == c[|t|];
        }
      }
      EntriesUnder(fs, t, es[1..]);
    }
  }

  /** Once: with distinct listings no directory is visited twice. */
  lemma {:induction false} VisitsDistinct(fs: FileSystem, t: Path)
    requires t in fs && ListingsDistinct(fs)
    ensures DistinctPaths(Visits(fs, t))
    decreases Below(fs, t), 1
  {
    var me: seq<Path> := if Marked(fs, t) then [] else [t];
    EntriesDistinct(fs, t, fs[t].entries);
    EntriesUnder(fs, t, fs[t].entries);
    DistinctConcat(me, VisitsEntries(fs, t, fs[t].entries));
  }

  lemma {:induction false} EntriesDistinct(fs: FileSystem, t: Path, es: seq<string>)
    requires t in fs && ListingsDistinct(fs) && Distinct(es)
    ensures DistinctPaths(VisitsEntries(fs, t, es))
    decreases Below(fs, t), 0, |es|
  {
    if es != [] {
      BelowShrinks(fs, t, es[0]);
      var c := t + [es[0]];
      var vc: seq<Path> := if c in fs then Visits(fs, c) else [];
      var rest := es[1..];
      assert Distinct(rest) by {
        forall i, j | 0 <= i < j < |rest| ensures rest[i] != rest[j] {
          assert rest[i] == es[i + 1] && rest[j] == es[j + 1];
        }
      }
      assert es[0] !in rest by {
        forall i | 0 <= i < |rest| ensures rest[i] != es[0] {
          assert rest[i] == es[i + 1];
        }
      }
      if c in fs {
        VisitsDistinct(fs, c);
        VisitsSound(fs, c);
        forall p | p in vc ensures p[|t|] == es[0] {
          assert c <= p && p[|t|] == c[|t|];
        }
      }
      EntriesDistinct(fs, t, rest);
      EntriesUnder(fs, t, rest);
      DistinctConcat(vc, VisitsEntries(fs, t, rest));
    }
  }

  /** One script run records its directory, keeps the status, and clears the flag once output appears. */
  lemma RunScriptFields(job: Job, t: Path, w: Walk)
    ensures RunScript(job, t, w).runs == w.runs + [t]
    ensures RunScript(job, t, w).status == w.status
    ensures RunScript(job, t, w).header == (w.header && job.out(t) == [])
  {
  }

  /** Once the flag is clear, it stays clear; it is still set only if no directory printed anything. */
  lemma {:induction false} RunAllHeader(job: Job, ps: seq<Path>, w: Walk)
    ensures RunAll(job, ps, w).header <==> w.header && forall i :: 0 <= i < |ps| ==> job.out(ps[i]) == []
    ensures RunAll(job, ps, w).runs == w.runs + ps
    ensures RunAll(job, ps, w).status == w.status
    decreases |ps|
  {
    if ps != [] {
      var w1 := RunScript(job, ps[0], w);
      RunScriptFields(job, ps[0], w);
      RunAllHeader(job, ps[1..], w1);
      Assoc(w.runs, [ps[0]], ps[1..]);
      assert [ps[0]] + ps[1..] == ps;
      forall i | 0 < i < |ps| ensures ps[1..][i - 1] == ps[i] { }
    }
  }

  /** The lines written by directories that print nothing: none. */
  lemma {:induction false} SilentAddsNothing(job: Job, ps: seq<Path>, w: Walk)
    requires forall i :: 0 <= i < |ps| ==> job.out(ps[i]) == []
    ensures RunAll(job, ps, w).lines == w.lines
    ensures RunAll(job, ps, w).header == w.header
    decreases |ps|
  {
    if ps != [] {
      var s := SkipCount(job.skipRow, 0);
      assert job.out(ps[0])[s..] == [];
      assert RunScript(job, ps[0], w).lines == w.lines;
      SilentAddsNothing(job, ps[1..], RunScript(job, ps[0], w));
    }
  }

  /** The data lines a directory writes once the header is out. */
  function DataBlock(job: Job, p: Path): seq<string> {
    SubProcLines(false, RelPath(job.root, p), MergeOf(job.fs, DiffPathList(job.fs, job.root, p)), job.skipRow, job.out(p))
  }

  function DataBlocks(job: Job, ps: seq<Path>): seq<string>
    decreases |ps|
  {
    if ps == [] then [] else DataBlock(job, ps[0]) + DataBlocks(job, ps[1..])
  }

  /** With the flag clear, one directory writes its data block and leaves the flag clear. */
  lemma DataStep(job: Job, p: Path, w: Walk)
    requires !w.header
    ensures RunScript(job, p, w).lines == w.lines + DataBlock(job, p)
    ensures !RunScript(job, p, w).header
  {
  }

  /** With the flag clear, each directory writes its data lines and nothing else. */
  lemma {:induction false} RunAllDataOnly(job: Job, ps: seq<Path>, w: Walk)
    requires !w.header
    ensures RunAll(job, ps, w).lines == w.lines + DataBlocks(job, ps)
    decreases |ps|
  {
    if ps != [] {
      var w1 := RunScript(job, ps[0], w);
      DataStep(job, ps[0], w);
      RunAllDataOnly(job, ps[1..], w1);
      var d0, ds := DataBlock(job, ps[0]), DataBlocks(job, ps[1..]);
      Assoc(w.lines, d0, ds);
    }
  }

  /**
   * Header once: the header lines are written by the first directory whose
   * script prints anything, and by no other; every later directory writes
   * its data lines only.
   */
  lemma HeaderOnce(job: Job, a: seq<Path>, p: Path, b: seq<Path>, w: Walk)
    requires w.header
    requires forall i :: 0 <= i < |a| ==> job.out(a[i]) == []
    requires job.out(p) != []
    ensures RunAll(job, a + [p] + b, w).lines
              == w.lines + SubProcLines(true, RelPath(job.root, p), MergeOf(job.fs, DiffPathList(job.fs, job.root, p)),
                                        job.skipRow, job.out(p))
                 + DataBlocks(job, b)
  {
    RunAllAppend(job, a, [p] + b, w);
    assert a + [p] + b == a + ([p] + b);
    SilentAddsNothing(job, a, w);
    var wa := RunAll(job, a, w);
    assert ([p] + b)[0] == p && ([p] + b)[1..] == b;
    RunAllDataOnly(job, b, RunScript(job, p, wa));
  }

  /**
   * A run: it fails exactly when root has no tag file; otherwise the
   * script runs in the unmarked directories below root (root itself
   * excluded), in preorder, and the report is what those runs write in
   * that order, starting with the header flag set.
   */
  lemma StartRunShape(job: Job)
    ensures StartRun(job).status == Done <==> TagFileAt(job.fs, job.root).Some?
    ensures TagFileAt(job.fs, job.root).Some? ==>
              var ps := VisitsEntries(job.fs, job.root, job.fs[job.root].entries);
              && StartRun(job) == RunAll(job, ps, Initial())
              && StartRun(job).runs == ps
              && (forall p :: p in ps ==> p in job.fs && job.root < p && !Marked(job.fs, p))
              && (Listed(job.fs, job.root) ==>
                    forall p :: p in job.fs && job.root < p && !Marked(job.fs, p) ==> p in ps)
              && (ListingsDistinct(job.fs) ==> DistinctPaths(ps))
  {
    if TagFileAt(job.fs, job.root).Some? {
      var ps := VisitsEntries(job.fs, job.root, job.fs[job.root].entries);
      EntriesArePreorder(job, job.root, job.fs[job.root].entries, Initial());
      RunAllHeader(job, ps, Initial());
      EntriesSound(job.fs, job.root, job.fs[job.root].entries);
      if Listed(job.fs, job.root) {
        forall p | p in job.fs && job.root < p && !Marked(job.fs, p) ensures p in ps {
          VisitsComplete(job.fs, job.root, p);
        }
      }
      if ListingsDistinct(job.fs) {
        EntriesDistinct(job.fs, job.root, job.fs[job.root].entries);
      }
    }
  }

  /** The reference order of the two-level tree: `r/a`, then `r/a/b`. */
  lemma TwoLevelVisits()
    ensures VisitsEntries(TwoLevelTree(), ["r"], ["a"]) == [["r", "a"], ["r", "a", "b"]]
  {
    var fs := TwoLevelTree();
    var ra, rab := ["r", "a"], ["r", "a", "b"];
    assert ["r"] + ["a"] == ra && ra + ["b"] == rab;
    assert fs[ra].entries == ["b"] && fs[rab].entries == [];
    assert !Marked(fs, ra) && !Marked(fs, rab);
    assert Visits(fs, rab) == [rab];
    assert VisitsEntries(fs, ra, ["b"]) == [rab] + VisitsEntries(fs, ra, []);
    assert Visits(fs, ra) == [ra, rab];
    assert VisitsEntries(fs, ["r"], ["a"]) == [ra, rab] + VisitsEntries(fs, ["r"], []);
  }

  /** The two-level tree is analysed in full by the intended walk: `r/a`, then `r/a/b`. */
  lemma IntendedWalkTwoLevel(out: Path -> seq<string>, skipRow: nat)
    ensures StartRun(Job(TwoLevelTree(), ["r"], out, skipRow)).status == Done
    ensures StartRun(Job(TwoLevelTree(), ["r"], out, skipRow)).runs == [["r", "a"], ["r", "a", "b"]]
  {
    var job := Job(TwoLevelTree(), ["r"], out, skipRow);
    assert TagFileAt(job.fs, ["r"]) == Some([]);
    assert job.fs[["r"]].entries == ["a"];
    StartRunShape(job);
    TwoLevelVisits();
  }

  /** The reference order of the tree with the repeated name: `r/a`, then `r/a/a`. */
  lemma RepeatedNameVisits()
    ensures VisitsEntries(RepeatedNameTree(), ["r"], ["a"]) == [["r", "a"], ["r", "a", "a"]]
  {
    var fs := RepeatedNameTree();
    var ra, raa := ["r", "a"], ["r", "a", "a"];
    assert ["r"] + ["a"] == ra && ra + ["a"] == raa;
    assert fs[ra].entries == ["a"] && fs[raa].entries == [];
    assert !Marked(fs, ra) && !Marked(fs, raa);
    assert Visits(fs, raa) == [raa];
    assert VisitsEntries(fs, ra, ["a"]) == [raa] + VisitsEntries(fs, ra, []);
    assert Visits(fs, ra) == [ra, raa];
    assert VisitsEntries(fs, ["r"], ["a"]) == [ra, raa] + VisitsEntries(fs, ["r"], []);
  }

  /** The tree with the repeated name is analysed in full by the intended walk: `r/a`, then `r/a/a`. */
  lemma IntendedWalkRepeatedName(out: Path -> seq<string>, skipRow: nat)
    ensures StartRun(Job(RepeatedNameTree(), ["r"], out, skipRow)).status == Done
    ensures StartRun(Job(RepeatedNameTree(), ["r"], out, skipRow)).runs == [["r", "a"], ["r", "a", "a"]]
  {
    var job := Job(RepeatedNameTree(), ["r"], out, skipRow);
    assert TagFileAt(job.fs, ["r"]) == Some([]);
    assert job.fs[["r"]].entries == ["a"];
    StartRunShape(job);
    RepeatedNameVisits();
  }

  // ---------------------------------------------------------------------
  // The executor itself, over the shared result file and header flag.
  // ---------------------------------------------------------------------

  /** One directory without the marker: chain, merge, `subProc`, and the process recorded. */
  method AnalyseDir(job: Job, fp: ReportFile, useHeader: array<bool>, t: Path, runs: seq<Path>) returns (runs': seq<Path>)
    requires useHeader.Length == 1
    modifies fp, useHeader
    ensures var w := RunScript(job, t, Walk(Done, old(fp.lines), old(useHeader[0]), runs));
            fp.lines == w.lines && useHeader[0] == w.header && runs' == w.runs
  {
    var pathlist := GetDiffPathList(job.fs, job.root, t);
    var jdata := GetOverwriteJsonDict(job.fs, pathlist);
    SubProc(fp, useHeader, job.root, t, jdata, job.skipRow, job.out(t));
    runs' := runs + [t];
  }

  /** `recExeJson(tpath)` with child paths built from `tpath`. */
  method RecExeJson(job: Job, fp: ReportFile, useHeader: array<bool>, t: Path, runs: seq<Path>) returns (runs': seq<Path>)
    requires t in job.fs && useHeader.Length == 1
    modifies fp, useHeader
    ensures var w := WalkDir(job, t, Walk(Done, old(fp.lines), old(useHeader[0]), runs));
            fp.lines == w.lines && useHeader[0] == w.header && runs' == w.runs
    decreases Below(job.fs, t), 1
  {
    ghost var target := WalkDir(job, t, Walk(Done, fp.lines, useHeader[0], runs));
    runs' := runs;
    if !Marked(job.fs, t) {
      runs' := AnalyseDir(job, fp, useHeader, t, runs');
    }
    var es := job.fs[t].entries;
    var i := 0;
    while i < |es|
      invariant 0 <= i <= |es|
      invariant WalkEntries(job, t, es[i..], Walk(Done, fp.lines, useHeader[0], runs')) == target
    {
      var ff := es[i];
      assert es[i..][1..] == es[i + 1..];
      BelowShrinks(job.fs, t, ff);
      ghost var cur := Walk(Done, fp.lines, useHeader[0], runs');
      assert WalkEntries(job, t, es[i..], cur)
          == WalkEntries(job, t, es[i + 1..], if t + [ff] in job.fs then WalkDir(job, t + [ff], cur) else cur);
      if t + [ff] in job.fs {
        WalkNeverFails(job, t + [ff], cur);
        runs' := RecExeJson(job, fp, useHeader, t + [ff], runs');
      }
      i := i + 1;
    }
  }

  /** `recExeJson(tpath)` as written, with `limit` nested calls left before the recursion limit. */
  method RecExeJsonAsWritten(job: Job, fp: ReportFile, useHeader: array<bool>, t: Path, runs: seq<Path>, limit: nat)
    returns (status: Status, runs': seq<Path>)
    requires useHeader.Length == 1
    modifies fp, useHeader
    ensures var w := WalkDirAsWritten(job, t, Walk(Done, old(fp.lines), old(useHeader[0]), runs), limit);
            status == w.status && fp.lines == w.lines && useHeader[0] == w.header && runs' == w.runs
    decreases limit
  {
    if limit == 0 {
      return RecursionLimit, runs;
    }
    ghost var target := WalkDirAsWritten(job, t, Walk(Done, fp.lines, useHeader[0], runs), limit);
    runs' := runs;
    if !Marked(job.fs, t) {
      runs' := AnalyseDir(job, fp, useHeader, t, runs');
    }
    if t !in job.fs {
      return ListDirFailed(t), runs';
    }
    var es := job.fs[t].entries;
    var i := 0;
    status := Done;
    while i < |es|
      invariant 0 <= i <= |es| && status == Done
      invariant WalkEntriesAsWritten(job, t, es[i..], Walk(Done, fp.lines, useHeader[0], runs'), limit - 1) == target
    {
      var ff := es[i];
      assert es[i..][1..] == es[i + 1..];
      if t + [ff] in job.fs {
        status, runs' := RecExeJsonAsWritten(job, fp, useHeader, job.root + [ff], runs', limit - 1);
        if status != Done {
          return;
        }
      }
      i := i + 1;
    }
  }

  /**
   * `startExeJson`: fails when root's tag file cannot be opened; otherwise
   * opens an empty result file, sets the header flag, and walks each
   * subdirectory of root. Returns how the run ended, the result file's
   * lines and the directories analysed.
   */
  method StartExeJson(job: Job) returns (status: Status, report: seq<string>, runs: seq<Path>)
    ensures var w := StartRun(job);
            status == w.status && report == w.lines && runs == w.runs
  {
    if TagFileAt(job.fs, job.root).None? {
      return RootTagFileMissing, [], [];
    }
    var fp := new ReportFile();
    var useHeader := new bool[1];
    useHeader[0] := true;
    runs := [];
    var es := job.fs[job.root].entries;
    var i := 0;
    while i < |es|
      invariant 0 <= i <= |es|
      invariant WalkEntries(job, job.root, es[i..], Walk(Done, fp.lines, useHeader[0], runs)) == StartRun(job)
    {
      var ff := es[i];
      assert es[i..][1..] == es[i + 1..];
      BelowShrinks(job.fs, job.root, ff);
      ghost var cur := Walk(Done, fp.lines, useHeader[0], runs);
      assert WalkEntries(job, job.root, es[i..], cur)
          == WalkEntries(job, job.root, es[i + 1..],
                         if job.root + [ff] in job.fs then WalkDir(job, job.root + [ff], cur) else cur);
      if job.root + [ff] in job.fs {
        WalkNeverFails(job, job.root + [ff], cur);
        runs := RecExeJson(job, fp, useHeader, job.root + [ff], runs);
      }
      i := i + 1;
    }
    return Done, fp.lines, runs;
  }

  /** `startExeJson` over the walk as written, with `limit` nested calls before the recursion limit. */
  method StartExeJsonAsWritten(job: Job, limit: nat) returns (status: Status, report: seq<string>, runs: seq<Path>)
    ensures var w := StartRunAsWritten(job, limit);
            status == w.status && report == w.lines && runs == w.runs
  {
    if TagFileAt(job.fs, job.root).None? {
      return RootTagFileMissing, [], [];
    }
    var fp := new ReportFile();
    var useHeader := new bool[1];
    useHeader[0] := true;
    runs := [];
    status := Done;
    var es := job.fs[job.root].entries;
    var i := 0;
    while i < |es|
      invariant 0 <= i <= |es| && status == Done
      invariant WalkEntriesAsWritten(job, job.root, es[i..], Walk(Done, fp.lines, useHeader[0], runs), limit)
                  == StartRunAsWritten(job, limit)
    {
      var ff := es[i];
      assert es[i..][1..] == es[i + 1..];
      if job.root + [ff] in job.fs {
        status, runs := RecExeJsonAsWritten(job, fp, useHeader, job.root + [ff], runs, limit);
        if status != Done {
          return status, fp.lines, runs;
        }
      }
      i := i + 1;
    }
    return Done, fp.lines, runs;
  }
}
