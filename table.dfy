/**
 * The tag table of the editor window: rows of (key, value, value list)
 * cells, where a cell is either absent (`item()` returns None) or holds a
 * text. Only the rules the window applies to it are modelled: extracting
 * the key/value mapping, the trailing blank row, and the value-list
 * candidates of the cell editor.
 */
module TagTable {
  import opened Wrappers
  import opened Text
  import opened Tags

  type Row = seq<Option<string>>

  /** The column of the candidate value list. */
  const ValueListColumn: int := 2

  /** `item(c)` of one row: None for an absent cell or a column out of range. */
  function Cell(row: Row, c: int): (cell: Option<string>)
    ensures (c < 0 || c >= |row|) ==> cell.None?
  {
    if 0 <= c < |row| then row[c] else None
  }

  /** The key of a row, when its key cell is present and not empty. */
  function KeyOf(row: Row): (k: Option<string>)
    ensures k.Some? <==> Cell(row, 0).Some? && Cell(row, 0).value != ""
    ensures k.Some? ==> k.value == Cell(row, 0).value
  {
    match Cell(row, 0)
    case None => None
    case Some(text) => if text == "" then None else Some(text)
  }

  /** `get_table_dict` fails when a row has a key but no cell in the value column (`None.text()`). */
  datatype TableError = MissingValueCell(row: nat)

  /**
   * What `get_table_dict(col)` computes over the rows: rows without a key
   * are skipped, every other row assigns its value cell's text to its key,
   * so a later row overwrites an earlier one; the first keyed row without
   * a value cell raises.
   */
  function TableDictOf(rows: seq<Row>, col: int): Result<TagList, TableError>
    decreases |rows|
  {
    if rows == [] then Success([])
    else
      var n := |rows| - 1;
      match TableDictOf(rows[..n], col)
      case Failure(e) => Failure(e)
      case Success(d) =>
        match KeyOf(rows[n])
        case None => Success(d)
        case Some(k) =>
          match Cell(rows[n], col)
          case None => Failure(MissingValueCell(n))
          case Some(v) => Success(Set(d, k, v))
  }

  /** A keyed row is complete when it has a cell in the value column. */
  predicate RowComplete(row: Row, col: int) {
    KeyOf(row).Some? ==> Cell(row, col).Some?
  }

  /**
   * Extraction fails exactly when some keyed row has no value cell, and
   * then it names the first such row.
   */
  lemma {:induction false} TableDictFails(rows: seq<Row>, col: int)
    ensures TableDictOf(rows, col).Failure? <==> exists i :: 0 <= i < |rows| && !RowComplete(rows[i], col)
    ensures TableDictOf(rows, col).Failure? ==>
              var i := TableDictOf(rows, col).error.row;
              && i < |rows| && !RowComplete(rows[i], col)
              && forall j :: 0 <= j < i ==> RowComplete(rows[j], col)
    decreases |rows|
  {
    if rows != [] {
      var n := |rows| - 1;
      TableDictFails(rows[..n], col);
      assert forall i :: 0 <= i < n ==> rows[..n][i] == rows[i];
    }
  }

  /**
   * On success the result is a dict holding exactly the keys of the table,
   * and each key's value is the text in column `col` of the last row with
   * that key.
   */
  lemma TableDictLookup(rows: seq<Row>, col: int, k: string)
    requires TableDictOf(rows, col).Success?
    ensures UniqueKeys(TableDictOf(rows, col).value)
    ensures Lookup(TableDictOf(rows, col).value, k).None? <==>
              forall i :: 0 <= i < |rows| ==> KeyOf(rows[i]) != Some(k)
    ensures forall i :: 0 <= i < |rows| && KeyOf(rows[i]) == Some(k) &&
                        (forall j :: i < j < |rows| ==> KeyOf(rows[j]) != Some(k)) ==>
              Lookup(TableDictOf(rows, col).value, k) == Cell(rows[i], col)
  {
    TableDictUnique(rows, col);
    TableDictKeys(rows, col, k);
    TableDictLast(rows, col, k);
  }

  lemma {:induction false} TableDictUnique(rows: seq<Row>, col: int)
    requires TableDictOf(rows, col).Success?
    ensures UniqueKeys(TableDictOf(rows, col).value)
    decreases |rows|
  {
    if rows != [] {
      var n := |rows| - 1;
      TableDictUnique(rows[..n], col);
      var d := TableDictOf(rows[..n], col).value;
      match KeyOf(rows[n])
      case None =>
      case Some(k0) =>
        SetUnique(d, k0, Cell(rows[n], col).value);
    }
  }

  lemma {:induction false} TableDictKeys(rows: seq<Row>, col: int, k: string)
    requires TableDictOf(rows, col).Success?
    ensures Lookup(TableDictOf(rows, col).value, k).None? <==>
              forall i :: 0 <= i < |rows| ==> KeyOf(rows[i]) != Some(k)
    decreases |rows|
  {
    if rows != [] {
      var n := |rows| - 1;
      var prefix := rows[..n];
      TableDictKeys(prefix, col, k);
      assert forall i :: 0 <= i < n ==> prefix[i] == rows[i];
      var d := TableDictOf(prefix, col).value;
      match KeyOf(rows[n])
      case None =>
      case Some(k0) =>
        SetLookup(d, k0, Cell(rows[n], col).value);
    }
  }

  lemma {:induction false} TableDictLast(rows: seq<Row>, col: int, k: string)
    requires TableDictOf(rows, col).Success?
    ensures forall i :: 0 <= i < |rows| && KeyOf(rows[i]) == Some(k) &&
                        (forall j :: i < j < |rows| ==> KeyOf(rows[j]) != Some(k)) ==>
              Lookup(TableDictOf(rows, col).value, k) == Cell(rows[i], col)
    decreases |rows|
  {
    if rows != [] {
      var n := |rows| - 1;
      var prefix := rows[..n];
      TableDictLast(prefix, col, k);
      assert forall i :: 0 <= i < n ==> prefix[i] == rows[i];
      var d := TableDictOf(prefix, col).value;
      match KeyOf(rows[n])
      case None =>
      case Some(k0) =>
        SetLookup(d, k0, Cell(rows[n], col).value);
    }
  }

  /** An empty table gives `{}`. */
  lemma EmptyTableDict(col: int)
    ensures TableDictOf([], col) == Success([])
  {
  }

  /** `v.strip()` of each piece, keeping the ones that are not empty. */
  function CleanList(vs: seq<string>): seq<string> {
    if vs == [] then []
    else (if Strip(vs[0]) != "" then [Strip(vs[0])] else []) + CleanList(vs[1..])
  }

  /**
   * The candidates `createEditor` offers for a value list: the text split
   * at commas and line breaks, each piece stripped, empty pieces dropped.
   */
  function Candidates(text: string): seq<string> {
    CleanList(Split(ReplaceChar(text, '\n', ','), ','))
  }

  /** A candidate as the editor offers it: not empty, stripped, free of both separators. */
  predicate IsCandidate(c: string) {
    c != "" && Trimmed(c) && ',' !in c && '\n' !in c
  }

  /** Every candidate is not empty, carries no surrounding whitespace and no separator. */
  lemma CandidatesClean(text: string)
    ensures forall i :: 0 <= i < |Candidates(text)| ==> IsCandidate(Candidates(text)[i])
  {
    var replaced := ReplaceChar(text, '\n', ',');
    assert '\n' !in replaced by {
      forall i | 0 <= i < |replaced| ensures replaced[i] != '\n' { }
    }
    var pieces := Split(replaced, ',');
    JoinSplit(replaced, ',');
    PiecesLack(pieces, ',', '\n');
    CleanListClean(pieces);
  }

  lemma {:induction false} CleanListClean(vs: seq<string>)
    requires forall i :: 0 <= i < |vs| ==> ',' !in vs[i] && '\n' !in vs[i]
    ensures forall i :: 0 <= i < |CleanList(vs)| ==> IsCandidate(CleanList(vs)[i])
  {
    if vs != [] {
      CleanListClean(vs[1..]);
      StripInside(vs[0]);
    }
  }

  /** Stripping removes characters only, so it adds no separator, and its result is trimmed. */
  lemma StripInside(s: string)
    ensures forall c :: c in Strip(s) ==> c in s
    ensures Trimmed(Strip(s))
  {
    var l := LStrip(s);
    assert forall c :: c in RStrip(l) ==> c in l;
    assert forall c :: c in l ==> c in s;
  }

  lemma {:induction false} JoinNoChar(cs: seq<string>, sep: char, x: char)
    requires x != sep
    requires forall i :: 0 <= i < |cs| ==> x !in cs[i]
    ensures x !in Join(cs, sep)
  {
    if |cs| > 1 {
      JoinNoChar(cs[1..], sep, x);
    }
  }

  /** A character absent from a join is absent from every piece. */
  lemma {:induction false} PiecesLack(xs: seq<string>, sep: char, x: char)
    requires x !in Join(xs, sep)
    ensures forall i :: 0 <= i < |xs| ==> x !in xs[i]
  {
    if |xs| > 1 {
      assert Join(xs, sep) == xs[0] + [sep] + Join(xs[1..], sep);
      PiecesLack(xs[1..], sep, x);
      forall i | 1 <= i < |xs| ensures x !in xs[i] {
        assert xs[i] == xs[1..][i - 1];
      }
    }
  }

  lemma {:induction false} ReplaceAbsent(s: string, x: char, y: char)
    requires x !in s
    ensures ReplaceChar(s, x, y) == s
  {
  }

  /**
   * Round trip: writing a list of candidates as one comma-separated value
   * list gives the same candidates back, in order.
   */
  lemma CandidatesRoundTrip(cs: seq<string>)
    requires forall i :: 0 <= i < |cs| ==> IsCandidate(cs[i])
    ensures Candidates(Join(cs, ',')) == cs
  {
    JoinNoChar(cs, ',', '\n');
    ReplaceAbsent(Join(cs, ','), '\n', ',');
    if cs == [] {
      assert Split("", ',') == [""];
    } else {
      SplitJoin(cs, ',');
      CleanListKeeps(cs);
    }
  }

  lemma {:induction false} CleanListKeeps(cs: seq<string>)
    requires forall i :: 0 <= i < |cs| ==> IsCandidate(cs[i])
    ensures CleanList(cs) == cs
  {
    if cs != [] {
      CleanListKeeps(cs[1..]);
      assert Strip(cs[0]) == cs[0];
    }
  }

  /** The row count and cells of the window's table, which the window edits in place. */
  class ParameterTable {
    var rows: seq<Row>
    const columnCount: nat

    /** Every row has one cell slot per column. */
    predicate Valid()
      reads this
    {
      forall r :: 0 <= r < |rows| ==> |rows[r]| == columnCount
    }

    constructor (columnCount: nat)
      ensures Valid() && rows == [] && this.columnCount == columnCount
    {
      rows := [];
      this.columnCount := columnCount;
    }

    /** `table.item(r, c)`: None for an absent cell or a position out of range. */
    function Item(r: int, c: int): (cell: Option<string>)
      reads this
      ensures !(0 <= r < |rows|) ==> cell.None?
    {
      if 0 <= r < |rows| then Cell(rows[r], c) else None
    }

    /** `insertRow(n)`: a row of absent cells at position `n`. */
    method InsertRow(n: int)
      requires Valid() && 0 <= n <= |rows|
      modifies this
      ensures Valid()
      ensures rows == old(rows[..n]) + [seq(columnCount, _ => None)] + old(rows[n..])
    {
      rows := rows[..n] + [seq(columnCount, _ => None)] + rows[n..];
    }

    /** `setItem(r, c, item)` on an existing position. */
    method SetItem(r: int, c: int, text: string)
      requires Valid() && 0 <= r < |rows| && 0 <= c < columnCount
      modifies this
      ensures Valid()
      ensures rows == old(rows[r := rows[r][c := Some(text)]])
    {
      rows := rows[r := rows[r][c := Some(text)]];
    }

    /**
     * `get_table_dict(col)`: for each row with a present, non-empty key cell,
     * `ret[key] = item(row, col).text()`.
     */
    method GetTableDict(col: int) returns (r: Result<TagList, TableError>)
      ensures r == TableDictOf(rows, col)
    {
      var ret: TagList := [];
      var ii := 0;
      while ii < |rows|
        invariant 0 <= ii <= |rows|
        invariant TableDictOf(rows[..ii], col) == Success(ret)
      {
        assert rows[..ii + 1][..ii] == rows[..ii];
        var keyItem := Item(ii, 0);
        if keyItem.Some? {
          var key := keyItem.value;
          if key != "" {
            var valueItem := Item(ii, col);
            if valueItem.None? {
              assert TableDictOf(rows[..ii + 1], col) == Failure(MissingValueCell(ii));
              TableDictPrefixFails(rows, col, ii + 1);
              return Failure(MissingValueCell(ii));
            }
            ret := Set(ret, key, valueItem.value);
          }
        }
        ii := ii + 1;
      }
      assert rows[..ii] == rows;
      return Success(ret);
    }

    /**
     * `on_cell_changed` for an edit in row `row`: when that is the last row
     * and at least one of its cells is present, a row of empty cells is
     * appended; otherwise the table is left as it is.
     */
    method OnCellChanged(row: int)
      requires Valid()
      modifies this
      ensures Valid()
      ensures rows == AfterCellChanged(old(rows), row, columnCount)
    {
      var currentRowCount := |rows|;
      if row == currentRowCount - 1 {
        var itemExist := false;
        for col := 0 to columnCount
          invariant itemExist <==> exists c :: 0 <= c < col && Item(row, c).Some?
        {
          if Item(row, col).Some? {
            itemExist := true;
          }
        }
        assert itemExist <==> HasItem(rows, row, columnCount) by {
          if HasItem(rows, row, columnCount) {
            var c :| 0 <= c < columnCount && Cell(rows[row], c).Some?;
            assert Item(row, c).Some?;
          }
        }
        if itemExist {
          var newRow := |rows|;
          InsertRow(newRow);
          for col := 0 to columnCount
            invariant Valid() && |rows| == newRow + 1
            invariant rows[..newRow] == old(rows)
            invariant rows[newRow] == seq(col, _ => Some("")) + seq(columnCount - col, _ => None)
          {
            SetItem(newRow, col, "");
            assert rows[newRow] == seq(col + 1, _ => Some("")) + seq(columnCount - (col + 1), _ => None);
          }
          assert seq(columnCount, _ => Some("")) + seq(0, _ => None) == seq(columnCount, _ => Some(""));
          assert rows == rows[..newRow] + [rows[newRow]];
        }
      }
    }
  }

  /** The cells of row `r` of `rows` that are present, over `cc` columns. */
  predicate HasItem(rows: seq<Row>, r: int, cc: nat) {
    0 <= r < |rows| && exists c :: 0 <= c < cc && Cell(rows[r], c).Some?
  }

  /** The table after `on_cell_changed(row)`. */
  function AfterCellChanged(rows: seq<Row>, row: int, cc: nat): seq<Row> {
    if row == |rows| - 1 && HasItem(rows, row, cc) then rows + [seq(cc, _ => Some(""))] else rows
  }

  /**
   * The trailing-row rule: exactly one row, of `cc` empty cells, is added,
   * and only when the edited row is the last one and holds a cell;
   * otherwise nothing changes. The new last row holds cells, so editing it
   * adds the next row.
   */
  lemma TrailingRow(rows: seq<Row>, row: int, cc: nat)
    requires cc > 0
    ensures var after := AfterCellChanged(rows, row, cc);
            && (|after| == |rows| + 1 <==> row == |rows| - 1 && HasItem(rows, row, cc))
            && (|after| != |rows| + 1 ==> after == rows)
            && after[..|rows|] == rows
            && (|after| == |rows| + 1 ==> forall c :: 0 <= c < cc ==> Cell(after[|rows|], c) == Some(""))
            && (|after| == |rows| + 1 ==> |AfterCellChanged(after, |after| - 1, cc)| == |after| + 1)
  {
    var after := AfterCellChanged(rows, row, cc);
    if |after| == |rows| + 1 {
      assert Cell(after[|rows|], 0) == Some("");
    }
  }

  /**
   * The candidates the editor of row `row` offers: those of the text in the
   * value-list column, none when that cell is absent or empty.
   */
  function EditorCandidates(t: ParameterTable, row: int): (cs: seq<string>)
    reads t
    ensures forall i :: 0 <= i < |cs| ==> IsCandidate(cs[i])
    ensures t.Item(row, ValueListColumn).None? ==> cs == []
  {
    match t.Item(row, ValueListColumn)
    case None => []
    case Some(text) =>
      CandidatesClean(text);
      if text == "" then [] else Candidates(text)
  }

  /** Once extraction fails on a prefix of the rows, it fails the same way on all of them. */
  lemma {:induction false} TableDictPrefixFails(rows: seq<Row>, col: int, n: nat)
    requires n <= |rows| && TableDictOf(rows[..n], col).Failure?
    ensures TableDictOf(rows, col) == TableDictOf(rows[..n], col)
    decreases |rows| - n
  {
    if n < |rows| {
      assert rows[..n + 1][..n] == rows[..n];
      TableDictPrefixFails(rows, col, n + 1);
    } else {
      assert rows[..n] == rows;
    }
  }
}
