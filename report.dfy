/**
 * The report formatting of `subProc`: the lines one directory contributes
 * to the shared result file, given the lines the analysis script printed.
 * Every `fp.write(s + "\n")` writes one line; the report is kept as the
 * sequence of lines written, without their terminators.
 */
module Report {
  import opened Wrappers
  import opened Text
  import opened Tags
  import opened Paths

  /** The result file, opened once and shared by every directory of a run. */
  class ReportFile {
    var lines: seq<string>

    /** Opening with mode `w+` starts from an empty file. */
    constructor ()
      ensures lines == []
    {
      lines := [];
    }

    /** `fp.write(line + "\n")`. */
    method Write(line: string)
      modifies this
      ensures lines == old(lines) + [line]
    {
      lines := lines + [line];
    }
  }

  /** `"k1,...,kn,dir,"`: the tag keys, then the directory column. */
  function HeaderPrefix(keys: seq<string>): string {
    Terminated(keys, ',') + "dir,"
  }

  /** `"v1,...,vn," + relpath + ","`: the tag values, then the directory. */
  function DataPrefix(values: seq<string>, relpath: string): string {
    Terminated(values, ',') + relpath + ","
  }

  /** Each line of `ls` with `p` in front. */
  function Prefixed(p: string, ls: seq<string>): seq<string> {
    seq(|ls|, i requires 0 <= i < |ls| => p + ls[i])
  }

  /** The non-empty lines of `ls`, in order. */
  function NonEmpty(ls: seq<string>): (r: seq<string>)
    ensures forall x :: x in r <==> x in ls && x != ""
  {
    if ls == [] then []
    else NonEmpty(ls[..|ls| - 1]) + (if ls[|ls| - 1] != "" then [ls[|ls| - 1]] else [])
  }

  /** Filtering keeps line order: the non-empty lines of two blocks are those of the first, then the second. */
  lemma {:induction false} NonEmptyAppend(a: seq<string>, b: seq<string>)
    ensures NonEmpty(a + b) == NonEmpty(a) + NonEmpty(b)
    decreases |b|
  {
    if b == [] {
      assert a + b == a;
    } else {
      var b' := b[..|b| - 1];
      assert (a + b)[..|a + b| - 1] == a + b';
      NonEmptyAppend(a, b');
    }
  }

  /** `skip_row` clamped to the number of lines. */
  function SkipCount(skipRow: nat, n: nat): (skip: nat)
    ensures skip <= n && skip <= skipRow
    ensures skip == skipRow || skip == n
  {
    if n >= skipRow then skipRow else n
  }

  /**
   * The lines `subProc` writes for one directory: when `header` is set and
   * the script printed something, its first `skip` lines behind the key
   * columns; then every non-empty line from `skip` on behind the value
   * columns and the relative path.
   */
  function SubProcLines(header: bool, relpath: string, jdata: TagList, skipRow: nat, olines: seq<string>): seq<string> {
    var skip := SkipCount(skipRow, |olines|);
    (if header && olines != [] then Prefixed(HeaderPrefix(Keys(jdata)), olines[..skip]) else [])
    + Prefixed(DataPrefix(Values(jdata), relpath), NonEmpty(olines[skip..]))
  }

  /** `useHeader[0]` after `subProc`: cleared by the first directory whose script printed anything. */
  function HeaderAfter(header: bool, olines: seq<string>): (h: bool)
    ensures h ==> header
  {
    header && olines == []
  }

  /**
   * What one call writes: with the flag clear only data lines, one per
   * non-empty script line from `skip` on and nothing else; with the flag
   * set and some output, first exactly `min(skip_row, len(olines))` header
   * lines, line `i` being the key prefix followed by `olines[i]`.
   */
  lemma SubProcLinesShape(header: bool, relpath: string, jdata: TagList, skipRow: nat, olines: seq<string>)
    ensures var out, skip := SubProcLines(header, relpath, jdata, skipRow, olines), SkipCount(skipRow, |olines|);
            var nh := if header && olines != [] then skip else 0;
            && |out| == nh + |NonEmpty(olines[skip..])|
            && (forall i :: 0 <= i < nh ==> out[i] == HeaderPrefix(Keys(jdata)) + olines[i])
            && (forall i :: nh <= i < |out| ==>
                  exists j :: skip <= j < |olines| && olines[j] != "" &&
                    out[i] == DataPrefix(Values(jdata), relpath) + olines[j])
            && (forall j :: skip <= j < |olines| && olines[j] != "" ==>
                  DataPrefix(Values(jdata), relpath) + olines[j] in out)
            && out[nh..] == Prefixed(DataPrefix(Values(jdata), relpath), NonEmpty(olines[skip..]))
  {
    var out, skip := SubProcLines(header, relpath, jdata, skipRow, olines), SkipCount(skipRow, |olines|);
    var nh := if header && olines != [] then skip else 0;
    var dp := DataPrefix(Values(jdata), relpath);
    var ne := NonEmpty(olines[skip..]);
    assert out[nh..] == Prefixed(dp, ne);
    forall i | nh <= i < |out|
      ensures exists j :: skip <= j < |olines| && olines[j] != "" && out[i] == dp + olines[j]
    {
      assert out[i] == out[nh..][i - nh] == dp + ne[i - nh];
      assert ne[i - nh] in olines[skip..];
      var k :| 0 <= k < |olines[skip..]| && olines[skip..][k] == ne[i - nh];
      assert olines[skip + k] == ne[i - nh];
    }
    forall j | skip <= j < |olines| && olines[j] != ""
      ensures dp + olines[j] in out
    {
      assert olines[j] == olines[skip..][j - skip];
      assert olines[j] in ne;
      var k :| 0 <= k < |ne| && ne[k] == olines[j];
      assert out[nh + k] == out[nh..][k];
    }
  }

  /** Splitting a header line gives the keys, then `dir`, then the script's columns. */
  lemma HeaderSplit(keys: seq<string>, hline: string)
    requires forall i :: 0 <= i < |keys| ==> ',' !in keys[i]
    ensures Split(HeaderPrefix(keys) + hline, ',') == keys + ["dir"] + Split(hline, ',')
  {
    assert HeaderPrefix(keys) == Terminated(keys + ["dir"], ',') by {
      assert (keys + ["dir"])[..|keys|] == keys;
    }
    TerminatedColumns(keys + ["dir"], hline, ',');
  }

  /** Splitting a data line gives the values, then the relative path, then the script's columns. */
  lemma DataSplit(values: seq<string>, relpath: string, dline: string)
    requires forall i :: 0 <= i < |values| ==> ',' !in values[i]
    requires ',' !in relpath
    ensures Split(DataPrefix(values, relpath) + dline, ',') == values + [relpath] + Split(dline, ',')
  {
    assert DataPrefix(values, relpath) == Terminated(values + [relpath], ',') by {
      assert (values + [relpath])[..|values|] == values;
    }
    TerminatedColumns(values + [relpath], dline, ',');
  }

  /**
   * The columns line up: when no key, value or relative path contains a
   * comma, splitting a header line gives the keys, then `dir`, then the
   * script's own columns; splitting a data line gives the values, then the
   * relative path, then the script's columns; and in a dict the value in
   * column `j` is the value of the key heading column `j`.
   */
  lemma ColumnsLineUp(jdata: TagList, relpath: string, hline: string, dline: string)
    requires UniqueKeys(jdata)
    requires forall i :: 0 <= i < |jdata| ==> ',' !in jdata[i].0 && ',' !in jdata[i].1
    requires ',' !in relpath
    ensures Split(HeaderPrefix(Keys(jdata)) + hline, ',') == Keys(jdata) + ["dir"] + Split(hline, ',')
    ensures Split(DataPrefix(Values(jdata), relpath) + dline, ',') == Values(jdata) + [relpath] + Split(dline, ',')
    ensures forall j :: 0 <= j < |jdata| ==>
              Lookup(jdata, Split(HeaderPrefix(Keys(jdata)) + hline, ',')[j])
                == Some(Split(DataPrefix(Values(jdata), relpath) + dline, ',')[j])
  {
    var ks, vs := Keys(jdata), Values(jdata);
    HeaderSplit(ks, hline);
    DataSplit(vs, relpath, dline);
    var hs, ds := ks + ["dir"] + Split(hline, ','), vs + [relpath] + Split(dline, ',');
    forall j | 0 <= j < |jdata|
      ensures Lookup(jdata, hs[j]) == Some(ds[j])
    {
      assert hs[j] == ks[j] == jdata[j].0;
      assert ds[j] == vs[j] == jdata[j].1;
      LookupAt(jdata, j);
    }
  }

  /** `keyCols += str(jd) + ","` over a sequence of keys or values. */
  method CommaTerminated(xs: seq<string>) returns (s: string)
    ensures s == Terminated(xs, ',')
  {
    s := "";
    for j := 0 to |xs|
      invariant s == Terminated(xs[..j], ',')
    {
      assert xs[..j + 1][..j] == xs[..j];
      s := s + xs[j] + ",";
    }
    assert xs[..|xs|] == xs;
  }

  /** The header loop of `subProc`: `fp.write(keyCols + olines[li] + "\n")` for each line. */
  method WriteHeaderLines(fp: ReportFile, keyCols: string, ls: seq<string>)
    modifies fp
    ensures fp.lines == old(fp.lines) + Prefixed(keyCols, ls)
  {
    var li := 0;
    while li < |ls|
      invariant 0 <= li <= |ls|
      invariant fp.lines == old(fp.lines) + Prefixed(keyCols, ls[..li])
    {
      assert Prefixed(keyCols, ls[..li + 1]) == Prefixed(keyCols, ls[..li]) + [keyCols + ls[li]];
      fp.Write(keyCols + ls[li]);
      li := li + 1;
    }
    assert ls[..li] == ls;
  }

  /** The data loop of `subProc`: each non-empty line behind the values and the relative path. */
  method WriteDataLines(fp: ReportFile, values: seq<string>, relpath: string, ls: seq<string>)
    modifies fp
    ensures fp.lines == old(fp.lines) + Prefixed(DataPrefix(values, relpath), NonEmpty(ls))
  {
    var li := 0;
    while li < |ls|
      invariant 0 <= li <= |ls|
      invariant fp.lines == old(fp.lines) + Prefixed(DataPrefix(values, relpath), NonEmpty(ls[..li]))
    {
      assert ls[..li + 1][..li] == ls[..li];
      if ls[li] != "" {
        var retl := CommaTerminated(values);
        retl := retl + relpath + ",";
        retl := retl + ls[li];
        assert Prefixed(DataPrefix(values, relpath), NonEmpty(ls[..li + 1]))
            == Prefixed(DataPrefix(values, relpath), NonEmpty(ls[..li])) + [retl];
        fp.Write(retl);
      }
      li := li + 1;
    }
    assert ls[..li] == ls;
  }

  /**
   * `subProc` after the script has run: writes the header lines if
   * `useHeader[0]` is set and the output is not empty, clears the flag in
   * that case, then writes the data lines.
   */
  method SubProc(fp: ReportFile, useHeader: array<bool>, root: Path, tpath: Path, jdata: TagList,
                 skipRow: nat, olines: seq<string>)
    requires useHeader.Length == 1
    modifies fp, useHeader
    ensures fp.lines == old(fp.lines) + SubProcLines(old(useHeader[0]), RelPath(root, tpath), jdata, skipRow, olines)
    ensures useHeader[0] == HeaderAfter(old(useHeader[0]), olines)
  {
    var relpath := RelPath(root, tpath);
    var skip := SkipCount(skipRow, |olines|);
    ghost var header := if useHeader[0] && |olines| != 0 then Prefixed(HeaderPrefix(Keys(jdata)), olines[..skip]) else [];
    if useHeader[0] && |olines| != 0 {
      var keyCols := CommaTerminated(Keys(jdata));
      keyCols := keyCols + "dir,";
      WriteHeaderLines(fp, keyCols, olines[..skip]);
      useHeader[0] := false;
    }
    assert fp.lines == old(fp.lines) + header;
    WriteDataLines(fp, Values(jdata), relpath, olines[skip..]);
    Assoc(old(fp.lines), header, Prefixed(DataPrefix(Values(jdata), relpath), NonEmpty(olines[skip..])));
  }
}
