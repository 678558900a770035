/**
 * The sample per-directory script `sub_print_csv.py`: for every CSV file
 * of a directory it prints one line holding the file name, the pressure
 * and power read from the name, and the numeric values of one column over
 * a window of rows; a header line comes first.
 *
 * A file is given as its base name and its `readlines()`; `float()`
 * parsing is the parameter `isFloat`.
 */
module SubPrintCsv {
  import opened Wrappers
  import opened Text

  /** The settings the script runs with. */
  const UseCol: nat := 1
  const StartR: nat := 2
  const EndR: int := 30

  // ---------------------------------------------------------------------
  // getParam: `re.search(r"(\d+)\s*[pP]a", name)` and `r"(\d+)\s*[wW]"`
  // ---------------------------------------------------------------------

  /** The unit a pattern ends in: `[pP]a` (pressure) or `[wW]` (power). */
  datatype Unit = Pascal | Watt

  /** The unit's letters start at position `j`. */
  predicate UnitAt(s: string, j: int, u: Unit) {
    match u
    case Pascal => 0 <= j && j + 1 < |s| && (s[j] == 'p' || s[j] == 'P') && s[j + 1] == 'a'
    case Watt => 0 <= j < |s| && (s[j] == 'w' || s[j] == 'W')
  }

  /**
   * Regex semantics: the pattern matches `s[i..]` with the digit group
   * `s[i..e]` and the whitespace `s[e..w]`, the unit following at `w`.
   */
  predicate PatternAt(s: string, i: int, e: int, w: int, u: Unit) {
    && 0 <= i < e <= w <= |s|
    && (forall k :: i <= k < e ==> IsDigit(s[k]))
    && (forall k :: e <= k < w ==> IsSpace(s[k]))
    && UnitAt(s, w, u)
  }

  /** The end of the run of digits starting at `i`. */
  function DigitsEnd(s: string, i: nat): (e: nat)
    requires i <= |s|
    ensures i <= e <= |s|
    ensures forall k :: i <= k < e ==> IsDigit(s[k])
    ensures e == |s| || !IsDigit(s[e])
    decreases |s| - i
  {
    if i < |s| && IsDigit(s[i]) then DigitsEnd(s, i + 1) else i
  }

  /** The end of the run of whitespace starting at `i`. */
  function SpacesEnd(s: string, i: nat): (w: nat)
    requires i <= |s|
    ensures i <= w <= |s|
    ensures forall k :: i <= k < w ==> IsSpace(s[k])
    ensures w == |s| || !IsSpace(s[w])
    decreases |s| - i
  {
    if i < |s| && IsSpace(s[i]) then SpacesEnd(s, i + 1) else i
  }

  /** The greedy match at `i`: all the digits, all the whitespace, then the unit. */
  predicate MatchAt(s: string, i: nat, u: Unit) {
    i < |s| && IsDigit(s[i]) && UnitAt(s, SpacesEnd(s, DigitsEnd(s, i)), u)
  }

  /** The unit letters are neither digits nor whitespace. */
  lemma UnitLetter(s: string, j: int, u: Unit)
    requires UnitAt(s, j, u)
    ensures !IsDigit(s[j]) && !IsSpace(s[j])
  {
  }

  /**
   * Backtracking gains nothing: the pattern matches at `i` exactly when the
   * greedy match does, and then with the greedy digit group and no other.
   */
  lemma {:induction false} GreedyIsExact(s: string, i: nat, e: int, w: int, u: Unit)
    requires PatternAt(s, i, e, w, u)
    ensures e == DigitsEnd(s, i) && w == SpacesEnd(s, e)
    ensures MatchAt(s, i, u)
  {
    UnitLetter(s, w, u);
    assert e < |s|;
    assert !IsDigit(s[e]) by {
      if e < w {
        assert IsSpace(s[e]);
      }
    }
    DigitsEndUnique(s, i, e);
    SpacesEndUnique(s, e, w);
  }

  lemma {:induction false} DigitsEndUnique(s: string, i: nat, e: nat)
    requires i <= e <= |s|
    requires forall k :: i <= k < e ==> IsDigit(s[k])
    requires e == |s| || !IsDigit(s[e])
    ensures DigitsEnd(s, i) == e
    decreases e - i
  {
    if i < e {
      DigitsEndUnique(s, i + 1, e);
    }
  }

  lemma {:induction false} SpacesEndUnique(s: string, i: nat, w: nat)
    requires i <= w <= |s|
    requires forall k :: i <= k < w ==> IsSpace(s[k])
    requires w == |s| || !IsSpace(s[w])
    ensures SpacesEnd(s, i) == w
    decreases w - i
  {
    if i < w {
      SpacesEndUnique(s, i + 1, w);
    }
  }

  lemma MatchAtHasPattern(s: string, i: nat, u: Unit)
    requires MatchAt(s, i, u)
    ensures PatternAt(s, i, DigitsEnd(s, i), SpacesEnd(s, DigitsEnd(s, i)), u)
  {
  }

  /** `re.search`'s scan: the first position from `i` on where the pattern matches. */
  function Search(s: string, i: nat, u: Unit): (r: Option<nat>)
    requires i <= |s|
    ensures r.Some? ==> i <= r.value < |s| && MatchAt(s, r.value, u)
    ensures forall k :: i <= k < |s| && (r.None? || k < r.value) ==> !MatchAt(s, k, u)
    decreases |s| - i
  {
    if i == |s| then None
    else if MatchAt(s, i, u) then Some(i)
    else Search(s, i + 1, u)
  }

  /** `ma.group(1) if ma != None else ""`. */
  function Group(s: string, u: Unit): string {
    match Search(s, 0, u)
    case None => ""
    case Some(i) => s[i..DigitsEnd(s, i)]
  }

  /** `getParam(filename)`: the pressure digits and the power digits. */
  function GetParam(filename: string): (string, string) {
    (Group(filename, Pascal), Group(filename, Watt))
  }

  /**
   * The group is `""` exactly when the pattern matches nowhere; otherwise
   * it is the digit group of the leftmost match, a run of digits.
   */
  lemma GroupIsLeftmostMatch(s: string, u: Unit)
    ensures Group(s, u) == "" <==> forall i, e, w :: !PatternAt(s, i, e, w, u)
    ensures forall i, e, w :: PatternAt(s, i, e, w, u) && (forall i', e', w' :: i' < i ==> !PatternAt(s, i', e', w', u))
              ==> Group(s, u) == s[i..e]
    ensures forall k :: 0 <= k < |Group(s, u)| ==> IsDigit(Group(s, u)[k])
  {
    match Search(s, 0, u)
    case None =>
      NoMatchAnywhere(s, u);
    case Some(j) =>
      MatchAtHasPattern(s, j, u);
      forall i, e, w | PatternAt(s, i, e, w, u) && (forall i', e', w' :: i' < i ==> !PatternAt(s, i', e', w', u))
        ensures Group(s, u) == s[i..e]
      {
        LeftmostIsFound(s, u, j, i, e, w);
      }
  }

  /** When the scan finds nothing, the pattern matches nowhere. */
  lemma NoMatchAnywhere(s: string, u: Unit)
    requires Search(s, 0, u).None?
    ensures forall i, e, w :: !PatternAt(s, i, e, w, u)
  {
    forall i, e, w | PatternAt(s, i, e, w, u) ensures false {
      GreedyIsExact(s, i, e, w, u);
    }
  }

  /** A match with no match before it starts where the scan stops, and has the greedy digit group. */
  lemma LeftmostIsFound(s: string, u: Unit, j: nat, i: int, e: int, w: int)
    requires Search(s, 0, u) == Some(j)
    requires PatternAt(s, i, e, w, u)
    requires forall i', e', w' :: i' < i ==> !PatternAt(s, i', e', w', u)
    ensures Group(s, u) == s[i..e]
  {
    GreedyIsExact(s, i, e, w, u);
    MatchAtHasPattern(s, j, u);
    assert !(j < i);
  }

  /** The pressure is the digits before the first `Pa`, the power those before the first `W`. */
  lemma GetParamExample()
    ensures GetParam("12 Pa_3W") == ("12", "3")
  {
    PressureExample();
    PowerExample();
  }

  lemma PressureExample()
    ensures Group("12 Pa_3W", Pascal) == "12"
  {
    var s := "12 Pa_3W";
    assert DigitsEnd(s, 2) == 2 && DigitsEnd(s, 1) == 2 && DigitsEnd(s, 0) == 2;
    assert SpacesEnd(s, 3) == 3 && SpacesEnd(s, 2) == 3;
    assert MatchAt(s, 0, Pascal);
    assert s[0..2] == "12";
  }

  lemma PowerExample()
    ensures Group("12 Pa_3W", Watt) == "3"
  {
    var s := "12 Pa_3W";
    assert DigitsEnd(s, 2) == 2 && DigitsEnd(s, 1) == 2 && DigitsEnd(s, 0) == 2;
    assert SpacesEnd(s, 2) == 3;
    assert !MatchAt(s, 0, Watt) && !MatchAt(s, 1, Watt);
    assert forall k :: 2 <= k < 6 ==> !IsDigit(s[k]);
    assert DigitsEnd(s, 7) == 7 && DigitsEnd(s, 6) == 7 && SpacesEnd(s, 7) == 7;
    assert MatchAt(s, 6, Watt);
    assert Search(s, 0, Watt) == Some(6);
    assert s[6..7] == "3";
  }

  // ---------------------------------------------------------------------
  // readCsv
  // ---------------------------------------------------------------------

  /** `min(end_r, len(lines))`. */
  function ClampEnd(endR: int, n: nat): int {
    if endR <= n then endR else n
  }

  /** The rows `range(start_r, end_r)` examines, `end_r` clamped to the file length. */
  function Window(lines: seq<string>, startR: nat, endR: int): (w: seq<string>)
    ensures |w| == if startR < ClampEnd(endR, |lines|) then ClampEnd(endR, |lines|) - startR else 0
  {
    var e := ClampEnd(endR, |lines|);
    if startR < e then lines[startR..e] else []
  }

  /** The field of one row, as the intended guard `len(cols) > use_col` selects it. */
  function Pick(row: string, useCol: nat, isFloat: string -> bool): seq<string> {
    var cols := Split(row, ',');
    if |cols| > useCol && isFloat(cols[useCol]) then [RStrip(cols[useCol])] else []
  }

  /** The picks of the rows in order. */
  function Selected(rows: seq<string>, useCol: nat, isFloat: string -> bool): seq<string>
    decreases |rows|
  {
    if rows == [] then [] else Pick(rows[0], useCol, isFloat) + Selected(rows[1..], useCol, isFloat)
  }

  /** `readCsv` with the index guard as intended: `[]` for an empty file, else the picks of the window. */
  function ReadCsvValues(lines: seq<string>, startR: nat, endR: int, useCol: nat, isFloat: string -> bool): seq<string> {
    if lines == [] then [] else Selected(Window(lines, startR, endR), useCol, isFloat)
  }

  /** Picks keep row order: the picks of two blocks of rows are the picks of the first, then the second. */
  lemma {:induction false} SelectedAppend(a: seq<string>, b: seq<string>, useCol: nat, isFloat: string -> bool)
    ensures Selected(a + b, useCol, isFloat) == Selected(a, useCol, isFloat) + Selected(b, useCol, isFloat)
    decreases |a|
  {
    if a == [] {
      assert a + b == b;
    } else {
      assert (a + b)[1..] == a[1..] + b;
      SelectedAppend(a[1..], b, useCol, isFloat);
    }
  }

  /**
   * Each value comes from a row that has the column, whose field passes
   * `isFloat`, and is that field without trailing whitespace; there is at
   * most one value per row.
   */
  lemma {:induction false} SelectedSound(rows: seq<string>, useCol: nat, isFloat: string -> bool)
    ensures |Selected(rows, useCol, isFloat)| <= |rows|
    ensures forall x :: x in Selected(rows, useCol, isFloat) ==>
              exists r :: r in rows && |Split(r, ',')| > useCol && isFloat(Split(r, ',')[useCol])
                          && x == RStrip(Split(r, ',')[useCol])
    decreases |rows|
  {
    if rows != [] {
      var p, rest := Pick(rows[0], useCol, isFloat), Selected(rows[1..], useCol, isFloat);
      SelectedSound(rows[1..], useCol, isFloat);
      assert Selected(rows, useCol, isFloat) == p + rest;
      forall x | x in p + rest
        ensures exists r :: r in rows && |Split(r, ',')| > useCol && isFloat(Split(r, ',')[useCol])
                            && x == RStrip(Split(r, ',')[useCol])
      {
        if x in p {
          assert rows[0] in rows;
        } else {
          var r :| r in rows[1..] && |Split(r, ',')| > useCol && isFloat(Split(r, ',')[useCol])
                   && x == RStrip(Split(r, ',')[useCol]);
          assert r in rows;
        }
      }
    }
  }

  /** A row whose field passes contributes it; a row without the column contributes nothing. */
  lemma PickCases(row: string, useCol: nat, isFloat: string -> bool)
    ensures |Split(row, ',')| <= useCol ==> Pick(row, useCol, isFloat) == []
    ensures |Split(row, ',')| > useCol && isFloat(Split(row, ',')[useCol]) ==>
              Pick(row, useCol, isFloat) == [RStrip(Split(row, ',')[useCol])]
  {
  }

  /**
   * The result of `readCsv`: `[]` for an empty file, and never more values
   * than rows in the clamped window, each drawn from one of its rows.
   */
  lemma ReadCsvBounds(lines: seq<string>, startR: nat, endR: int, useCol: nat, isFloat: string -> bool)
    ensures lines == [] ==> ReadCsvValues(lines, startR, endR, useCol, isFloat) == []
    ensures var e := ClampEnd(endR, |lines|);
            |ReadCsvValues(lines, startR, endR, useCol, isFloat)| <= if startR < e then e - startR else 0
    ensures forall x :: x in ReadCsvValues(lines, startR, endR, useCol, isFloat) ==>
              exists r :: r in Window(lines, startR, endR) && |Split(r, ',')| > useCol && x == RStrip(Split(r, ',')[useCol])
  {
    if lines != [] {
      SelectedSound(Window(lines, startR, endR), useCol, isFloat);
    }
  }

  /** Why `readCsv` as written stops. */
  datatype CsvError = IndexError(row: nat)

  /**
   * `readCsv` as written: the guard `len(cols) >= use_col` lets a row with
   * exactly `use_col` fields through to `cols[use_col]`, which raises.
   */
  function ReadCsvAsWritten(lines: seq<string>, startR: nat, endR: int, useCol: nat, isFloat: string -> bool)
    : Result<seq<string>, CsvError>
  {
    if lines == [] then Success([]) else SelectedAsWritten(lines, startR, ClampEnd(endR, |lines|), useCol, isFloat)
  }

  /** The loop of `readCsv` as written over the rows `i .. end - 1`. */
  function SelectedAsWritten(lines: seq<string>, i: nat, end: int, useCol: nat, isFloat: string -> bool)
    : Result<seq<string>, CsvError>
    requires end <= |lines|
    decreases end - i
  {
    if i >= end then Success([])
    else
      var cols := Split(lines[i], ',');
      if |cols| >= useCol then
        if |cols| == useCol then Failure(IndexError(i))
        else
          match SelectedAsWritten(lines, i + 1, end, useCol, isFloat)
          case Failure(err) => Failure(err)
          case Success(rest) => Success((if isFloat(cols[useCol]) then [RStrip(cols[useCol])] else []) + rest)
      else SelectedAsWritten(lines, i + 1, end, useCol, isFloat)
  }

  /**
   * As written, `readCsv` raises exactly when a row of the window has
   * `use_col` fields; when it does not raise it returns what the
   * intended guard returns.
   */
  lemma {:induction false} AsWrittenAgrees(lines: seq<string>, i: nat, end: int, useCol: nat, isFloat: string -> bool)
    requires end <= |lines|
    ensures SelectedAsWritten(lines, i, end, useCol, isFloat).Failure? <==>
              exists k :: i <= k < end && |Split(lines[k], ',')| == useCol
    ensures SelectedAsWritten(lines, i, end, useCol, isFloat).Success? ==>
              SelectedAsWritten(lines, i, end, useCol, isFloat).value
                == Selected(if i < end then lines[i..end] else [], useCol, isFloat)
    decreases end - i
  {
    if i < end {
      AsWrittenAgrees(lines, i + 1, end, useCol, isFloat);
      assert lines[i..end][1..] == if i + 1 < end then lines[i + 1..end] else [];
    }
  }

  /**
   * With the script's own settings, a row without a comma inside the
   * window, such as a blank line, makes `readCsv` as written raise.
   */
  lemma AsWrittenRaisesOnShortRow(isFloat: string -> bool)
    ensures ReadCsvAsWritten(["t,v\n", "s,V\n", "0,1.5\n", "\n"], StartR, EndR, UseCol, isFloat)
              == Failure(IndexError(3))
    ensures ReadCsvValues(["t,v\n", "s,V\n", "0,1.5\n", "\n"], StartR, EndR, UseCol, isFloat)
              == if isFloat("1.5\n") then ["1.5"] else []
  {
    var lines := ["t,v\n", "s,V\n", "0,1.5\n", "\n"];
    SampleRows();
    assert ClampEnd(EndR, |lines|) == 4;
    assert lines[2] == "0,1.5\n" && lines[3] == "\n";
    assert SelectedAsWritten(lines, 3, 4, UseCol, isFloat) == Failure(IndexError(3));
    assert SelectedAsWritten(lines, 2, 4, UseCol, isFloat) == Failure(IndexError(3));
    assert Window(lines, StartR, EndR) == ["0,1.5\n", "\n"];
    assert Pick("\n", UseCol, isFloat) == [];
    assert Selected(["\n"], UseCol, isFloat) == [];
  }

  /** The fields of the sample rows. */
  lemma SampleRows()
    ensures Split("0,1.5\n", ',') == ["0", "1.5\n"]
    ensures Split("\n", ',') == ["\n"]
    ensures RStrip("1.5\n") == "1.5"
  {
    SplitJoin(["0", "1.5\n"], ',');
    assert Join(["0", "1.5\n"], ',') == "0,1.5\n";
    SplitJoin(["\n"], ',');
    assert RStrip("1.5") == "1.5";
  }

  /** The rows `start .. i - 1` of a file, empty when the range is. */
  function RowsFrom(lines: seq<string>, start: nat, i: nat): seq<string> {
    if start < i <= |lines| then lines[start..i] else []
  }

  /** One more row of the window: its pick goes after the picks so far. */
  lemma PickStep(lines: seq<string>, startR: nat, ii: nat, useCol: nat, isFloat: string -> bool)
    requires startR <= ii < |lines|
    ensures Selected(RowsFrom(lines, startR, ii + 1), useCol, isFloat)
              == Selected(RowsFrom(lines, startR, ii), useCol, isFloat) + Pick(lines[ii], useCol, isFloat)
  {
    assert RowsFrom(lines, startR, ii + 1) == lines[startR..ii + 1];
    assert RowsFrom(lines, startR, ii) == lines[startR..ii];
    assert lines[startR..ii + 1] == lines[startR..ii] + [lines[ii]];
    SelectedAppend(lines[startR..ii], [lines[ii]], useCol, isFloat);
    assert Selected([lines[ii]], useCol, isFloat) == Pick(lines[ii], useCol, isFloat) + Selected([], useCol, isFloat);
  }

  /** `readCsv` with the intended guard: clamp `end_r`, then pick the field of each row of the window. */
  method ReadCsv(lines: seq<string>, startR: nat, endR: int, useCol: nat, isFloat: string -> bool)
    returns (dVal: seq<string>)
    ensures dVal == ReadCsvValues(lines, startR, endR, useCol, isFloat)
  {
    dVal := [];
    if |lines| == 0 {
      return [];
    }
    var end := if endR <= |lines| then endR else |lines|;
    var ii := startR;
    while ii < end
      invariant startR <= ii && (ii <= end || ii == startR)
      invariant dVal == Selected(RowsFrom(lines, startR, ii), useCol, isFloat)
      decreases end - ii
    {
      var cols := Split(lines[ii], ',');
      PickStep(lines, startR, ii, useCol, isFloat);
      if |cols| > useCol && isFloat(cols[useCol]) {
        dVal := dVal + [RStrip(cols[useCol])];
      }
      ii := ii + 1;
    }
    WindowRows(lines, startR, endR, ii);
  }

  /** Where the loop stops, the rows it has seen are the window. */
  lemma WindowRows(lines: seq<string>, startR: nat, endR: int, ii: nat)
    requires var end := ClampEnd(endR, |lines|); startR <= ii && ii >= end && (ii <= end || ii == startR)
    ensures RowsFrom(lines, startR, ii) == Window(lines, startR, endR)
  {
  }

  // ---------------------------------------------------------------------
  // printAllFiles
  // ---------------------------------------------------------------------

  /** A CSV file: its base name and its lines. */
  datatype CsvFile = CsvFile(name: string, lines: seq<string>)

  /** `"0,1,...,n-1,"`. */
  function Indices(n: nat): (r: seq<string>)
    ensures |r| == n
    ensures forall i :: 0 <= i < n ==> r[i] == NatToString(i)
  {
    if n == 0 then [] else Indices(n - 1) + [NatToString(n - 1)]
  }

  /** The header: `"file, pa, W,"`, then one column index per value of the first file. */
  function HeaderLine(n: nat): string {
    "file, pa, W," + Terminated(Indices(n), ',')
  }

  /** A data line: name, pressure, power, then every value, each followed by a comma. */
  function DataLine(name: string, values: seq<string>): string {
    name + "," + GetParam(name).0 + "," + GetParam(name).1 + "," + Terminated(values, ',')
  }

  /** The line of one file. */
  function FileLine(f: CsvFile, startR: nat, endR: int, useCol: nat, isFloat: string -> bool): string {
    DataLine(f.name, ReadCsvValues(f.lines, startR, endR, useCol, isFloat))
  }

  /** The lines of the files, in file order. */
  function FileLines(files: seq<CsvFile>, startR: nat, endR: int, useCol: nat, isFloat: string -> bool): (r: seq<string>)
    ensures |r| == |files|
    decreases |files|
  {
    if files == [] then []
    else FileLines(files[..|files| - 1], startR, endR, useCol, isFloat) + [FileLine(files[|files| - 1], startR, endR, useCol, isFloat)]
  }

  lemma {:induction false} FileLinesAt(files: seq<CsvFile>, startR: nat, endR: int, useCol: nat, isFloat: string -> bool, i: nat)
    requires i < |files|
    ensures FileLines(files, startR, endR, useCol, isFloat)[i] == FileLine(files[i], startR, endR, useCol, isFloat)
    decreases |files|
  {
    if i < |files| - 1 {
      FileLinesAt(files[..|files| - 1], startR, endR, useCol, isFloat, i);
    }
  }

  /** What `printAllFiles` prints: nothing without files, else the header and one line per file. */
  function PrintedLines(files: seq<CsvFile>, startR: nat, endR: int, useCol: nat, isFloat: string -> bool): seq<string> {
    if files == [] then []
    else [HeaderLine(|ReadCsvValues(files[0].lines, startR, endR, useCol, isFloat)|)] + FileLines(files, startR, endR, useCol, isFloat)
  }

  /** Splitting comma-terminated comma-free fields gives them back, then an empty last field. */
  lemma TerminatedFields(xs: seq<string>)
    requires forall i :: 0 <= i < |xs| ==> ',' !in xs[i]
    ensures Split(Terminated(xs, ','), ',') == xs + [""]
  {
    TerminatedColumns(xs, "", ',');
    assert Terminated(xs, ',') + "" == Terminated(xs, ',');
    assert Split("", ',') == [""];
  }

  /** Terminating two blocks one after the other terminates their concatenation. */
  lemma {:induction false} TerminatedAppend(xs: seq<string>, ys: seq<string>, sep: char)
    ensures Terminated(xs, sep) + Terminated(ys, sep) == Terminated(xs + ys, sep)
    decreases |ys|
  {
    if ys == [] {
      assert xs + ys == xs;
    } else {
      var ys', y := ys[..|ys| - 1], ys[|ys| - 1];
      TerminatedAppend(xs, ys', sep);
      assert (xs + ys)[..|xs + ys| - 1] == xs + ys';
      assert Terminated(xs + ys, sep) == Terminated(xs + ys', sep) + y + [sep];
      assert Terminated(ys, sep) == Terminated(ys', sep) + y + [sep];
      var a, b := Terminated(xs, sep), Terminated(ys', sep);
      Assoc(a, b, y);
      Assoc(a, b + y, [sep]);
    }
  }

  lemma TerminatedSnoc(xs: seq<string>, x: string, sep: char)
    ensures Terminated(xs + [x], sep) == Terminated(xs, sep) + x + [sep]
  {
    assert (xs + [x])[..|xs|] == xs;
  }

  lemma Terminated3(a: string, b: string, c: string)
    ensures Terminated([a, b, c], ',') == a + "," + b + "," + c + ","
  {
    assert [a][..0] == [];
    assert Terminated([a], ',') == a + ",";
    assert [a, b][..1] == [a];
    assert Terminated([a, b], ',') == a + "," + b + ",";
    assert [a, b, c][..2] == [a, b];
  }

  /** The header splits into `file`, ` pa`, ` W`, the indices `0 .. n-1` and a final empty field. */
  lemma HeaderColumns(n: nat)
    ensures Split(HeaderLine(n), ',') == ["file", " pa", " W"] + Indices(n) + [""]
  {
    var xs := ["file", " pa", " W"] + Indices(n);
    forall i | 0 <= i < |xs| ensures ',' !in xs[i] {
      if i >= 3 {
        assert xs[i] == NatToString(i - 3);
      }
    }
    TerminatedAppend(["file", " pa", " W"], Indices(n), ',');
    Terminated3("file", " pa", " W");
    assert "file" + "," + " pa" + "," + " W" + "," == "file, pa, W,";
    assert HeaderLine(n) == Terminated(xs, ',');
    TerminatedFields(xs);
  }

  /** The header's index columns read back as `0 .. n-1`. */
  lemma HeaderIndices(n: nat, i: nat)
    requires i < n
    ensures |Split(HeaderLine(n), ',')| == n + 4
    ensures Split(HeaderLine(n), ',')[3 + i] == NatToString(i)
    ensures DecimalValue(Split(HeaderLine(n), ',')[3 + i]) == i
  {
    HeaderColumns(n);
    assert Split(HeaderLine(n), ',')[3 + i] == NatToString(i);
    NatToStringRoundTrip(i);
  }

  /** Each field `readCsv` selects holds no comma. */
  lemma {:induction false} SelectedCommaFree(rows: seq<string>, useCol: nat, isFloat: string -> bool)
    ensures forall i :: 0 <= i < |Selected(rows, useCol, isFloat)| ==> ',' !in Selected(rows, useCol, isFloat)[i]
    decreases |rows|
  {
    if rows != [] {
      SelectedCommaFree(rows[1..], useCol, isFloat);
      var cols := Split(rows[0], ',');
      if |cols| > useCol {
        assert ',' !in cols[useCol];
        assert RStrip(cols[useCol]) <= cols[useCol];
      }
    }
  }

  /** The digits `getParam` returns hold no comma. */
  lemma ParamsCommaFree(name: string)
    ensures ',' !in GetParam(name).0 && ',' !in GetParam(name).1
  {
    GroupIsLeftmostMatch(name, Pascal);
    GroupIsLeftmostMatch(name, Watt);
  }

  /** A file's line splits into its name, pressure, power and values, then a final empty field. */
  lemma DataColumns(name: string, vs: seq<string>)
    requires ',' !in name
    requires forall i :: 0 <= i < |vs| ==> ',' !in vs[i]
    ensures Split(DataLine(name, vs), ',') == [name, GetParam(name).0, GetParam(name).1] + vs + [""]
  {
    var p1, p2 := GetParam(name).0, GetParam(name).1;
    ParamsCommaFree(name);
    var xs := [name, p1, p2] + vs;
    forall i | 0 <= i < |xs| ensures ',' !in xs[i] {
      if i >= 3 {
        assert xs[i] == vs[i - 3];
      }
    }
    TerminatedAppend([name, p1, p2], vs, ',');
    Terminated3(name, p1, p2);
    TerminatedFields(xs);
  }

  /** A file's printed line splits into its name, pressure, power and values, then a final empty field. */
  lemma FileLineColumns(f: CsvFile, startR: nat, endR: int, useCol: nat, isFloat: string -> bool)
    requires ',' !in f.name
    ensures Split(FileLine(f, startR, endR, useCol, isFloat), ',')
              == [f.name, GetParam(f.name).0, GetParam(f.name).1] + ReadCsvValues(f.lines, startR, endR, useCol, isFloat) + [""]
  {
    if f.lines != [] {
      SelectedCommaFree(Window(f.lines, startR, endR), useCol, isFloat);
    }
    DataColumns(f.name, ReadCsvValues(f.lines, startR, endR, useCol, isFloat));
  }

  /**
   * The printed table: nothing without files; otherwise a header and then
   * one line per file, in file order. Splitting the header at commas gives
   * `file`, ` pa`, ` W`, the indices `0 .. n-1` for the first file's `n`
   * values and a final empty field; splitting a file's line (when its name
   * has no comma) gives the name, the pressure, the power, its values and a
   * final empty field.
   */
  lemma PrintedColumns(files: seq<CsvFile>, startR: nat, endR: int, useCol: nat, isFloat: string -> bool)
    ensures files == [] ==> PrintedLines(files, startR, endR, useCol, isFloat) == []
    ensures files != [] ==>
              var out := PrintedLines(files, startR, endR, useCol, isFloat);
              && |out| == |files| + 1
              && Split(out[0], ',') == ["file", " pa", " W"] + Indices(|ReadCsvValues(files[0].lines, startR, endR, useCol, isFloat)|) + [""]
              && forall i :: 0 <= i < |files| && ',' !in files[i].name ==>
                   Split(out[i + 1], ',') == [files[i].name, GetParam(files[i].name).0, GetParam(files[i].name).1]
                                             + ReadCsvValues(files[i].lines, startR, endR, useCol, isFloat) + [""]
  {
    if files != [] {
      var out := PrintedLines(files, startR, endR, useCol, isFloat);
      PrintedHeader(files, startR, endR, useCol, isFloat);
      forall i | 0 <= i < |files| && ',' !in files[i].name
        ensures Split(out[i + 1], ',') == [files[i].name, GetParam(files[i].name).0, GetParam(files[i].name).1]
                                          + ReadCsvValues(files[i].lines, startR, endR, useCol, isFloat) + [""]
      {
        PrintedLine(files, startR, endR, useCol, isFloat, i);
      }
    }
  }

  lemma PrintedHeader(files: seq<CsvFile>, startR: nat, endR: int, useCol: nat, isFloat: string -> bool)
    requires files != []
    ensures var out := PrintedLines(files, startR, endR, useCol, isFloat);
            && |out| == |files| + 1
            && Split(out[0], ',') == ["file", " pa", " W"] + Indices(|ReadCsvValues(files[0].lines, startR, endR, useCol, isFloat)|) + [""]
  {
    var n := |ReadCsvValues(files[0].lines, startR, endR, useCol, isFloat)|;
    assert PrintedLines(files, startR, endR, useCol, isFloat)[0] == HeaderLine(n);
    HeaderColumns(n);
  }

  lemma PrintedLine(files: seq<CsvFile>, startR: nat, endR: int, useCol: nat, isFloat: string -> bool, i: nat)
    requires i < |files| && ',' !in files[i].name
    ensures |PrintedLines(files, startR, endR, useCol, isFloat)| == |files| + 1
    ensures Split(PrintedLines(files, startR, endR, useCol, isFloat)[i + 1], ',')
              == [files[i].name, GetParam(files[i].name).0, GetParam(files[i].name).1]
                 + ReadCsvValues(files[i].lines, startR, endR, useCol, isFloat) + [""]
  {
    var fl := FileLines(files, startR, endR, useCol, isFloat);
    assert PrintedLines(files, startR, endR, useCol, isFloat)[i + 1] == fl[i];
    FileLinesAt(files, startR, endR, useCol, isFloat, i);
    FileLineColumns(files[i], startR, endR, useCol, isFloat);
  }

  /** One more index column: the header grows by the index and a comma. */
  lemma HeaderLineStep(n: nat)
    ensures HeaderLine(n + 1) == HeaderLine(n) + NatToString(n) + ","
  {
    TerminatedSnoc(Indices(n), NatToString(n), ',');
  }

  /** The header loop of `printAllFiles`: `headerText += str(ii) + ","` for each index. */
  method BuildHeader(n: nat) returns (headerText: string)
    ensures headerText == HeaderLine(n)
  {
    headerText := "file, pa, W,";
    assert HeaderLine(0) == headerText;
    for ii := 0 to n
      invariant headerText == HeaderLine(ii)
    {
      HeaderLineStep(ii);
      headerText := headerText + NatToString(ii) + ",";
    }
  }

  /** The line loop of `printAllFiles`: the name and parameters, then `tline += str(rr) + ","` for each value. */
  method BuildLine(name: string, p1: string, p2: string, values: seq<string>) returns (tline: string)
    ensures tline == name + "," + p1 + "," + p2 + "," + Terminated(values, ',')
  {
    tline := name + "," + p1 + "," + p2 + ",";
    for r := 0 to |values|
      invariant tline == name + "," + p1 + "," + p2 + "," + Terminated(values[..r], ',')
    {
      assert values[..r + 1][..r] == values[..r];
      tline := tline + values[r] + ",";
    }
    assert values[..|values|] == values;
  }

  /** The base names of the files, in order. */
  function FileNames(files: seq<CsvFile>): (r: seq<string>)
    ensures |r| == |files| && forall i :: 0 <= i < |files| ==> r[i] == files[i].name
  {
    seq(|files|, i requires 0 <= i < |files| => files[i].name)
  }

  /** The pressure parameter of each file's name. */
  function Pressures(files: seq<CsvFile>): (r: seq<string>)
    ensures |r| == |files| && forall i :: 0 <= i < |files| ==> r[i] == GetParam(files[i].name).0
  {
    seq(|files|, i requires 0 <= i < |files| => GetParam(files[i].name).0)
  }

  /** The power parameter of each file's name. */
  function Powers(files: seq<CsvFile>): (r: seq<string>)
    ensures |r| == |files| && forall i :: 0 <= i < |files| ==> r[i] == GetParam(files[i].name).1
  {
    seq(|files|, i requires 0 <= i < |files| => GetParam(files[i].name).1)
  }

  /** The values `readCsv` gives for each file. */
  function FileValues(files: seq<CsvFile>, startR: nat, endR: int, useCol: nat, isFloat: string -> bool): (r: seq<seq<string>>)
    ensures |r| == |files|
    ensures forall i :: 0 <= i < |files| ==> r[i] == ReadCsvValues(files[i].lines, startR, endR, useCol, isFloat)
  {
    seq(|files|, i requires 0 <= i < |files| => ReadCsvValues(files[i].lines, startR, endR, useCol, isFloat))
  }

  /** One more file read: the values grow by that file's values. */
  lemma ValuesStep(files: seq<CsvFile>, k: nat, startR: nat, endR: int, useCol: nat, isFloat: string -> bool)
    requires k < |files|
    ensures FileValues(files[..k + 1], startR, endR, useCol, isFloat)
              == FileValues(files[..k], startR, endR, useCol, isFloat) + [ReadCsvValues(files[k].lines, startR, endR, useCol, isFloat)]
  {
  }

  /** One more file read: the names grow by that file's name. */
  lemma NamesStep(files: seq<CsvFile>, k: nat)
    requires k < |files|
    ensures FileNames(files[..k + 1]) == FileNames(files[..k]) + [files[k].name]
  {
  }

  /** One more file read: the parameters grow by that file's parameters. */
  lemma ParamsStep(files: seq<CsvFile>, k: nat)
    requires k < |files|
    ensures Pressures(files[..k + 1]) == Pressures(files[..k]) + [GetParam(files[k].name).0]
    ensures Powers(files[..k + 1]) == Powers(files[..k]) + [GetParam(files[k].name).1]
  {
  }

  /** The reading loop of `printAllFiles`: the values, base name and parameters of each file, in order. */
  method ReadAllFiles(files: seq<CsvFile>, startR: nat, endR: int, useCol: nat, isFloat: string -> bool)
    returns (slineList: seq<seq<string>>, fileList: seq<string>, para1: seq<string>, para2: seq<string>)
    ensures slineList == FileValues(files, startR, endR, useCol, isFloat)
    ensures fileList == FileNames(files)
    ensures para1 == Pressures(files) && para2 == Powers(files)
  {
    slineList, fileList, para1, para2 := [], [], [], [];
    for k := 0 to |files|
      invariant slineList == FileValues(files[..k], startR, endR, useCol, isFloat)
      invariant fileList == FileNames(files[..k])
      invariant para1 == Pressures(files[..k])
      invariant para2 == Powers(files[..k])
    {
      ValuesStep(files, k, startR, endR, useCol, isFloat);
      NamesStep(files, k);
      ParamsStep(files, k);
      var ret := ReadCsv(files[k].lines, startR, endR, useCol, isFloat);
      slineList := slineList + [ret];
      fileList := fileList + [files[k].name];
      var p := GetParam(files[k].name);
      para1 := para1 + [p.0];
      para2 := para2 + [p.1];
    }
    assert files[..|files|] == files;
  }

  /** One more file printed: the lines grow by that file's line. */
  lemma PrintStep(files: seq<CsvFile>, k: nat, startR: nat, endR: int, useCol: nat, isFloat: string -> bool)
    requires k < |files|
    ensures FileLines(files[..k + 1], startR, endR, useCol, isFloat)
              == FileLines(files[..k], startR, endR, useCol, isFloat) + [FileLine(files[k], startR, endR, useCol, isFloat)]
  {
    assert files[..k + 1][..k] == files[..k];
  }

  /** The line built from a file's name, parameters and values is that file's line. */
  lemma LineOfFile(f: CsvFile, startR: nat, endR: int, useCol: nat, isFloat: string -> bool,
                   name: string, p1: string, p2: string, values: seq<string>)
    requires name == f.name && p1 == GetParam(f.name).0 && p2 == GetParam(f.name).1
    requires values == ReadCsvValues(f.lines, startR, endR, useCol, isFloat)
    ensures name + "," + p1 + "," + p2 + "," + Terminated(values, ',') == FileLine(f, startR, endR, useCol, isFloat)
  {
  }

  /** The data-line loop of `printAllFiles`: one line per file after what was printed before. */
  method PrintFileLines(files: seq<CsvFile>, startR: nat, endR: int, useCol: nat, isFloat: string -> bool,
                        slineList: seq<seq<string>>, fileList: seq<string>, para1: seq<string>, para2: seq<string>,
                        before: seq<string>)
    returns (printed: seq<string>)
    requires slineList == FileValues(files, startR, endR, useCol, isFloat)
    requires fileList == FileNames(files)
    requires para1 == Pressures(files) && para2 == Powers(files)
    ensures printed == before + FileLines(files, startR, endR, useCol, isFloat)
  {
    printed := before;
    for ii := 0 to |fileList|
      invariant printed == before + FileLines(files[..ii], startR, endR, useCol, isFloat)
    {
      var tline := BuildLine(fileList[ii], para1[ii], para2[ii], slineList[ii]);
      PrintStep(files, ii, startR, endR, useCol, isFloat);
      LineOfFile(files[ii], startR, endR, useCol, isFloat, fileList[ii], para1[ii], para2[ii], slineList[ii]);
      Assoc(before, FileLines(files[..ii], startR, endR, useCol, isFloat), [tline]);
      printed := printed + [tline];
    }
    assert files[..|files|] == files;
  }

  /**
   * `printAllFiles`: read every file, take the parameters from its name,
   * then print the header and one line per file.
   */
  method PrintAllFiles(files: seq<CsvFile>, startR: nat, endR: int, useCol: nat, isFloat: string -> bool)
    returns (printed: seq<string>)
    ensures printed == PrintedLines(files, startR, endR, useCol, isFloat)
  {
    printed := [];
    if |files| < 1 {
      return;
    }
    var slineList, fileList, para1, para2 := ReadAllFiles(files, startR, endR, useCol, isFloat);
    var headerText := BuildHeader(|slineList[0]|);
    printed := PrintFileLines(files, startR, endR, useCol, isFloat, slineList, fileList, para1, para2, [headerText]);
  }
}
