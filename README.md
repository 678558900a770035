# EDTA data tag tool: a verified model of its core

The tool attaches tags to measurement directories. Each directory may hold
a JSON tag file. The tags of a directory are those of its own file merged
with the files of every directory above it, up to a chosen root; a nearer
directory overrides a farther one. A batch run walks the tree below root,
runs an analysis script in every directory that carries no "no analysis"
marker file, and gathers the script's output into one CSV result file. It
puts the directory's tag values in front of every line and writes a header
of tag keys once.

This project models, in Dafny:

- **Paths** (`paths.dfy`, module `Paths`): directory paths are sequences of
  components. It covers `os.path.commonpath`, the escape test
  `over_root_path`, `dirname`, the parent chain and `os.path.relpath` with the
  Windows separator.
- **The directory tree** (`filesystem.dfy`, module `FileSystem`): a map from
  each existing directory to its parsed tag file, its marker flag and its
  `os.listdir` entries.
- **Tag mappings** (`tags.dfy`, module `Tags`): insertion-ordered Python
  dicts as association lists. It covers key assignment and the dict union
  `l | r` of PEP 584.
- **The path-chain resolver** `get_diff_path_list` (`chain.dfy`, module
  `PathChain`).
- **The tag merge** `get_overwrite_json_dict` (`merge.dfy`, module
  `TagMerge`).
- **The report writer** `subProc` (`report.dfy`, module `Report`): the result
  file is a class whose lines grow, and `useHeader` is a one-element array.
- **The batch walk** `startExeJson` / `recExeJson` (`batch.dfy`, module
  `Batch`). It is modelled twice: once as written and once as evidently
  intended (see Findings).
- **The tag table of the editor window** (`table.dfy`, module `TagTable`):
  `get_table_dict`, the trailing-row rule of `on_cell_changed`, and the
  value-list candidates of the cell editor `createEditor`.
- **The sample analysis script `sub_print_csv.py`** (`sub_print_csv.dfy`,
  module `SubPrintCsv`): `getParam` as
  regular-expression semantics, `readCsv`, and `printAllFiles`.
- **Helpers** (`text.dfy` and `wrappers.dfy`): the Python string built-ins
  the code relies on, and the `Option`/`Result` types.

Imperative code is kept imperative. The loops of `get_diff_path_list`,
`get_overwrite_json_dict`, `subProc`, `get_table_dict`, `on_cell_changed`,
`readCsv` and `printAllFiles` are methods with loop invariants. The
recursion of `recExeJson` is a recursive method that writes to the shared
result file. Each method is proved equal to a specification function, and
the properties are proved as lemmas about those functions.

Apart from the two findings below, the model follows the code as written,
also where its comments suggest another behaviour:

- The `maxiter` cap of `get_diff_path_list` never fires, because `iter` is
  never advanced.
- The no-analysis marker does not keep the walk out of a directory's
  children.
- `get_table_dict` raises on a keyed row without a value cell: the `None`
  test of parameter_table.py line 438 comes after `.text()` has already been called.
- `on_cell_changed` adds a row when a cell of the last row is present, even
  when the cell is empty.

## Model

| member | source | states |
|---|---|---|
| Paths.CommonPath | parameter_table.py:582 | the common path is a prefix of both paths, and it cannot be extended: it ends one of them or is followed by differing components |
| Paths.OverRootPath | parameter_table.py:578-583 | a path escapes root exactly when root is not a prefix of it, i.e. root is neither the path nor one of its ancestors |
| Paths.Parent | parameter_table.py:607 | `dirname` drops the last component; the top of the tree is its own parent |
| Paths.ParentChainShape | parameter_table.py:600-609 | the chain from `t` to root has one entry per level plus one; entry `i` is `t` less `i` components; it starts at `t`, steps to the parent and ends at root |
| Paths.RelPathBelowRoot | parameter_table.py:692 | below root the relative path is the components under root joined by the separator, and splitting it and appending to root gives the directory back |
| PathChain.DiffPathListCases | parameter_table.py:585-613 | `[]` when root or current is missing or current escapes root; otherwise `k+1` entries from current up to root, each the parent of the one before; `[root]` for current equal to root |
| PathChain.GetDiffPathList | parameter_table.py:585-613 | the loop with `iter` never advanced returns exactly the chain `DiffPathList` defines |
| Tags.Keys | parameter_table.py:706 | `keys()` lists the keys of the entries in order |
| Tags.Values | parameter_table.py:726 | `values()` lists the values of the entries in the order of the keys |
| Tags.Lookup | parameter_table.py:439 | a key is found exactly when it is among the keys |
| Tags.LookupAt | parameter_table.py:706-727 | in a dict, the key of entry `j` looks up the value of entry `j` |
| Tags.SetLookup | parameter_table.py:439 | after `d[k] = v`, `k` maps to `v` and every other key is unchanged |
| Tags.SetKeys | parameter_table.py:439 | after `d[k] = v` an existing key keeps its place and a new key goes last |
| Tags.SetUnique | parameter_table.py:439 | assignment keeps the keys distinct |
| Tags.NewKeys | parameter_table.py:574 | the keys of the right operand that the left lacks, and only those |
| Tags.UnionUnique | parameter_table.py:574 | `l \| r` of dicts has distinct keys |
| Tags.UnionLookup | parameter_table.py:574 | in `l \| r` a key of `r` takes `r`'s value, any other key keeps `l`'s |
| Tags.UnionKeys | parameter_table.py:574 | in `l \| r` the keys of `l` keep their order and the keys only `r` has follow in `r`'s order |
| TagMerge.FirstDefiningSnoc | parameter_table.py:569-574 | a directory added at the far end of the chain only fills in keys no nearer directory defines |
| TagMerge.MergePrecedence | parameter_table.py:564-576 | the merge is a dict, and each key's value comes from the nearest directory of the chain whose tag file holds it; keys no file holds are absent |
| TagMerge.RootKeysFirst | parameter_table.py:569-574 | when root has a tag file, the merged keys are root's keys in root's order, then the keys only nearer directories add |
| TagMerge.NoTagFileNoEffect | parameter_table.py:570 | a directory without a tag file, wherever it sits in the chain, changes no key's value |
| TagMerge.SaveThenMerge | parameter_table.py:564-576 | merging a single directory gives back exactly the tags written to its file |
| TagMerge.GetOverwriteJsonDict | parameter_table.py:564-576 | the loop computes the merge; an empty chain gives `{}`; over well-formed tag files the result is a dict with nearest-directory precedence |
| Report.ReportFile.constructor | parameter_table.py:645 | opening with mode `w+` starts an empty file |
| Report.ReportFile.Write | parameter_table.py:715 | a write appends exactly one line and changes nothing else |
| Report.NonEmpty | parameter_table.py:723 | a line is kept exactly when it is one of the lines and is not empty |
| Report.NonEmptyAppend | parameter_table.py:722-723 | dropping empty lines keeps the order: the kept lines of two blocks are those of the first, then those of the second |
| Report.SkipCount | parameter_table.py:704 | `skip_row` is clamped to the number of lines: it is the smaller of the two |
| Report.HeaderAfter | parameter_table.py:705-718 | a call never sets the header flag: once clear it stays clear |
| Report.SubProcLinesShape | parameter_table.py:703-733 | with the flag set and output present, exactly `min(skip_row, len)` header lines come first, line `i` being the key prefix then line `i`; then the data lines, one per non-empty line from `skip` on and in the order of those lines, each value prefix then relative path then the line, and nothing else |
| Report.HeaderSplit | parameter_table.py:706-714 | splitting a header line at commas gives the keys, `dir`, then the script's columns |
| Report.DataSplit | parameter_table.py:726-730 | splitting a data line at commas gives the values, the relative path, then the script's columns |
| Report.ColumnsLineUp | parameter_table.py:703-733 | for a header line and a data line built from the same merged tags, with comma-free keys, values and path, the value in column `j` of the data line is the tag value of the key heading column `j` |
| Report.CommaTerminated | parameter_table.py:706-708 | the `+= str(x) + ","` loop builds the comma-terminated fields |
| Report.WriteHeaderLines | parameter_table.py:713-716 | the header loop appends the key prefix followed by each line, in order |
| Report.WriteDataLines | parameter_table.py:722-733 | the data loop appends the prefixed non-empty lines, in order |
| Report.SubProc | parameter_table.py:686-735 | the file grows by exactly the lines `SubProcLines` defines, and the flag ends as `HeaderAfter` says |
| Batch.BelowShrinks | parameter_table.py:680-684 | a child has fewer directories below it than its parent, so the intended walk terminates |
| Batch.AsWrittenRunsNearRoot | parameter_table.py:680-684 | as written, every directory the script runs in is the starting one or a direct child name of root |
| Batch.AsWrittenEntriesRunsNearRoot | parameter_table.py:680-684 | the same for the child loop as written |
| Batch.AsWrittenTwoLevelFails | parameter_table.py:683 | as written, the tree `r/a/b` aborts with `os.listdir` failing on `r/b` |
| Batch.AsWrittenRepeatedNameLoops | parameter_table.py:683 | as written, a directory `a` holding an `a` recurses until the recursion limit, whatever the limit |
| Batch.RevisitLoops | parameter_table.py:680-684 | as written, `r/a` of that tree revisits itself until the recursion limit |
| Batch.RunAllAppend | parameter_table.py:658-684 | running the script over two blocks of directories is running it over the first, then the second |
| Batch.WalkIsPreorder | parameter_table.py:658-684 | the intended walk runs the script in exactly the reference preorder of unmarked directories |
| Batch.EntriesArePreorder | parameter_table.py:680-684 | the same for the child loop over a directory's entries |
| Batch.WalkNeverFails | parameter_table.py:658-684 | the intended walk raises nothing |
| Batch.VisitsSound | parameter_table.py:667 | every visited directory exists, lies at or below the start and carries no marker |
| Batch.EntriesSound | parameter_table.py:680-681 | every directory the child loop visits exists, lies strictly below and carries no marker |
| Batch.MarkerDoesNotPrune | parameter_table.py:667-684 | everything below a child is visited from its parent, whether the child is marked or not |
| Batch.VisitsMono | parameter_table.py:680-684 | when the listings agree with the tree, everything visited from a directory below `t` is visited from `t` |
| Batch.VisitsComplete | parameter_table.py:658-684 | when the listings agree with the tree, every existing unmarked directory at or below `t` is visited |
| Batch.EntriesUnder | parameter_table.py:680-684 | the child loop visits only directories below a child it names |
| Batch.VisitsDistinct | parameter_table.py:658-684 | with each listing naming every entry once, no directory is visited twice |
| Batch.EntriesDistinct | parameter_table.py:680-684 | the same for the child loop over distinct entries |
| Batch.RunScriptFields | parameter_table.py:667-675 | one run records its directory, keeps the status and clears the flag once output appears |
| Batch.RunAllHeader | parameter_table.py:705-718 | the flag is still set after a sequence of runs exactly when it was set and no directory printed anything; once clear it stays clear; the runs are recorded in order |
| Batch.SilentAddsNothing | parameter_table.py:705-733 | directories that print nothing write nothing and leave the flag alone |
| Batch.DataStep | parameter_table.py:722-733 | with the flag clear, a directory writes its data lines only |
| Batch.RunAllDataOnly | parameter_table.py:722-733 | with the flag clear, each directory in turn writes its data lines and nothing else |
| Batch.HeaderOnce | parameter_table.py:703-733 | the header lines come from the first directory that prints anything, and every later directory writes only data lines |
| Batch.StartRunShape | parameter_table.py:634-656 | a run fails exactly when root has no tag file; otherwise it starts with the flag set and runs the script in the reference preorder, every member of which is an unmarked directory strictly below root; when the listings agree with the tree every such directory is run, and when the listings name each entry once none is run twice |
| Batch.TwoLevelVisits | parameter_table.py:648-684 | the reference order of the tree `r/a/b` is `r/a`, then `r/a/b` |
| Batch.RepeatedNameVisits | parameter_table.py:648-684 | the reference order of the tree `r/a/a` is `r/a`, then `r/a/a` |
| Batch.IntendedWalkTwoLevel | parameter_table.py:648-684 | the intended walk analyses the tree `r/a/b` in full and completes |
| Batch.IntendedWalkRepeatedName | parameter_table.py:648-684 | the intended walk analyses the tree `r/a/a` in full and completes |
| Batch.AnalyseDir | parameter_table.py:667-675 | one unmarked directory: the file and flag change as one script run says, and the run is recorded |
| Batch.RecExeJson | parameter_table.py:658-684 | the recursive method leaves the file, the flag and the process list as the intended walk defines |
| Batch.RecExeJsonAsWritten | parameter_table.py:658-684 | the same for the walk as written, with a recursion limit |
| Batch.StartExeJson | parameter_table.py:634-656 | the method's status, report and process list are those of the intended run |
| Batch.StartExeJsonAsWritten | parameter_table.py:634-656 | the same for the run as written |
| TagTable.Cell | parameter_table.py:433-437 | `item()` of a column out of range is absent |
| TagTable.KeyOf | parameter_table.py:433-436 | a row has a key exactly when its key cell is present and not empty, and the key is that text |
| TagTable.TableDictFails | parameter_table.py:437 | extraction raises exactly when some keyed row has no value cell, and it names the first such row |
| TagTable.TableDictUnique | parameter_table.py:430-441 | on success the result is a dict |
| TagTable.TableDictKeys | parameter_table.py:431-436 | a key is absent from the result exactly when no row carries it |
| TagTable.TableDictLast | parameter_table.py:437-439 | each key's value is the text in column `col` of the last row with that key |
| TagTable.TableDictLookup | parameter_table.py:426-441 | the three facts above together |
| TagTable.EmptyTableDict | parameter_table.py:427-430 | an empty table gives `{}` |
| TagTable.TableDictPrefixFails | parameter_table.py:431-441 | once extraction fails on some rows, adding rows fails the same way |
| TagTable.ParameterTable.constructor | parameter_table.py:155-156 | a fresh table has no rows |
| TagTable.ParameterTable.Item | parameter_table.py:227 | `item()` of a row out of range is absent |
| TagTable.ParameterTable.InsertRow | parameter_table.py:232 | a row of absent cells is inserted at the position, and the other rows are unchanged |
| TagTable.ParameterTable.SetItem | parameter_table.py:236 | exactly one cell changes |
| TagTable.ParameterTable.GetTableDict | parameter_table.py:426-441 | the loop returns exactly what `TableDictOf` defines, including the failure |
| TagTable.ParameterTable.OnCellChanged | parameter_table.py:203-241 | the table becomes exactly `AfterCellChanged` of the old table |
| TagTable.TrailingRow | parameter_table.py:219-236 | one row is added exactly when the edited row is the last and holds a cell; otherwise nothing changes; the new row has `columnCount` empty cells and editing it adds the next one |
| TagTable.CandidatesClean | parameter_table.py:44 | every candidate is non-empty, stripped and free of commas and line breaks |
| TagTable.CandidatesRoundTrip | parameter_table.py:44 | writing clean candidates as one comma-separated list gives the same candidates back, in order |
| TagTable.CleanListKeeps | parameter_table.py:44 | the filter keeps clean candidates unchanged |
| TagTable.EditorCandidates | parameter_table.py:37-46 | the editor offers only clean candidates, and none when the value-list cell is absent |
| Text.RStrip | sub_print_csv.py:101 | `rstrip` removes exactly the trailing whitespace |
| Text.Strip | parameter_table.py:44 | `strip` leaves no whitespace at either end and keeps text that has none |
| Text.Split | sub_print_csv.py:99 | `split` gives at least one piece and no piece holds the separator |
| Text.JoinSplit | sub_print_csv.py:99 | joining the pieces with the separator gives the string back |
| Text.SplitJoin | parameter_table.py:44 | splitting a join of separator-free pieces gives the pieces back |
| Text.TerminatedColumns | parameter_table.py:706-730 | splitting `x1,...,xn,` followed by a tail gives the fields, then the tail's fields |
| Text.ReplaceChar | parameter_table.py:44 | `replace` maps the one character and keeps the others |
| Text.NatToString | sub_print_csv.py:71 | `str(n)` is a non-empty run of digits without a leading zero |
| Text.NatToStringRoundTrip | sub_print_csv.py:71 | the digits of `str(n)` denote `n` |
| SubPrintCsv.DigitsEnd | sub_print_csv.py:37-38 | the greedy `\d+` stops at the first non-digit |
| SubPrintCsv.SpacesEnd | sub_print_csv.py:37-38 | the greedy `\s*` stops at the first non-space |
| SubPrintCsv.GreedyIsExact | sub_print_csv.py:37-38 | the pattern matches at a position exactly when the greedy match does, with the greedy digit group |
| SubPrintCsv.Search | sub_print_csv.py:37-38 | the scan returns the first position at which the pattern matches, or none when it matches nowhere |
| SubPrintCsv.GroupIsLeftmostMatch | sub_print_csv.py:37-41 | the group is `""` exactly when the pattern matches nowhere; otherwise it is the digit group of the leftmost match |
| SubPrintCsv.GetParamExample | sub_print_csv.py:33-43 | for `12 Pa_3W` the pressure is `12` and the power `3` |
| SubPrintCsv.Window | sub_print_csv.py:95-97 | the window holds `min(end_r, len) - start_r` rows, or none |
| SubPrintCsv.SelectedAppend | sub_print_csv.py:97-101 | the values keep row order |
| SubPrintCsv.SelectedSound | sub_print_csv.py:99-101 | each value is the right-stripped field of a row with the column whose field passes `isFloat`; at most one value per row |
| SubPrintCsv.PickCases | sub_print_csv.py:99-101 | a row without the column gives nothing; a row whose field passes gives that field right-stripped |
| SubPrintCsv.ReadCsvBounds | sub_print_csv.py:82-104 | `[]` for an empty file; never more values than rows in the clamped window, each from one of them |
| SubPrintCsv.AsWrittenAgrees | sub_print_csv.py:97-101 | as written, the loop raises exactly when a row of the window has exactly `use_col` fields; otherwise it returns what the corrected guard returns |
| SubPrintCsv.AsWrittenRaisesOnShortRow | sub_print_csv.py:100 | with the script's settings, a blank line in the window makes the loop as written raise, while the corrected loop returns `1.5` |
| SubPrintCsv.ReadCsv | sub_print_csv.py:82-104 | the method with the corrected guard returns exactly `ReadCsvValues` |
| SubPrintCsv.Indices | sub_print_csv.py:70-71 | the index columns are `0 .. n-1` in order |
| SubPrintCsv.FileLines | sub_print_csv.py:74-80 | one line per file |
| SubPrintCsv.FileLinesAt | sub_print_csv.py:74-80 | line `i` is the line of file `i` |
| SubPrintCsv.HeaderColumns | sub_print_csv.py:69-72 | the header splits into `file`, ` pa`, ` W`, the indices and a final empty field |
| SubPrintCsv.HeaderIndices | sub_print_csv.py:70-71 | index column `i` of the header reads back as `i` |
| SubPrintCsv.DataColumns | sub_print_csv.py:76-79 | a data line splits into the name, the pressure, the power, the values and a final empty field |
| SubPrintCsv.PrintedColumns | sub_print_csv.py:55-80 | nothing is printed without files; otherwise the header and then one line per file, in file order, that split into their columns |
| SubPrintCsv.BuildHeader | sub_print_csv.py:69-71 | the header loop builds the header for `n` values |
| SubPrintCsv.BuildLine | sub_print_csv.py:75-79 | the line loop builds name, pressure, power and the comma-terminated values |
| SubPrintCsv.ReadAllFiles | sub_print_csv.py:58-66 | the read loop collects each file's values, base name and parameters, in file order |
| SubPrintCsv.PrintFileLines | sub_print_csv.py:74-80 | the data-line loop adds one line per file after what was printed before |
| SubPrintCsv.PrintAllFiles | sub_print_csv.py:45-80 | the printed lines are exactly `PrintedLines`: nothing for no files, else the header and the file lines |

## Left out

- I/O is not modelled: opening and parsing JSON tag files, `os.path.exists`, `os.listdir`, `glob.glob` and file writing. The tree is a given map, the listing order a given sequence, and written lines are kept in a sequence.
- The analysis script's process is not modelled (`subprocess.Popen`, `communicate`, `wait`, the decode and `splitlines` of its output, the `QThread` worker). What the script prints in each directory is a given function from the directory to its output lines.
- The Qt user interface is not modelled: widgets, signals, dialogs, the disconnect and reconnect around the row insertion, the combo box itself, and the debug prints. `createEditor` is modelled as the candidates it would add, for a delegate attached to a table: the `if self.table_widget:` test of line 37 is not modelled.
- `file_explorer.py` and `threadTest` are not part of this model. They are UI wiring and a numeric script.
- Paths are canonical component sequences. `os.path.samefile` is equality; drive letters, case folding, symbolic links and the error `commonpath` raises for paths on different drives are not modelled.
- The tag file name, result file name and marker name are fixed per run. The tree records only whether each directory holds its tag file and its marker.
- The tree is any map. Completeness and "once" of the walk are proved for trees whose listings name every existing subdirectory (`FileSystem.Listed`) and name each entry once (`FileSystem.ListingsDistinct`), as `os.listdir` does.
- `Report.ColumnsLineUp`: the report's columns line up only while every printing directory's merged keys are those of the first directory that prints, which wrote the single header. A directory with other or fewer keys writes data lines whose columns sit under other headings, as the source does; the model states alignment for one directory's tags only.
- Tag values are strings. The `str()` of non-string JSON values is not modelled.
- `startExeJson` reads root's tag file into `jdata` but never uses it; the model only records whether that read fails.
- `Batch.WalkDirAsWritten`: Python's recursion limit is the fuel parameter. The model does not capture the limit's actual size.
- `SubPrintCsv.ReadCsv`: `isFloat` (a `float()` parse) is a parameter, not defined. Negative `start_r` or row indices are excluded by `nat`.
- `Report.SubProc`: `skip_row` is a `nat`; Python's negative-index behaviour for a negative `skip_row` is not modelled.
- `SubPrintCsv.GetParam`: `\d` is ASCII digits only. Python's `\d` on a `str` pattern also matches other Unicode decimal digits.
- `SubPrintCsv.PrintAllFiles`: it uses the corrected guard of `readCsv`. As written, the script raises whenever `ReadCsvAsWritten` fails for some file, that is whenever a row of exactly `use_col` fields (a one-field row, such as a blank line) lies inside any file's row window; the model does not return that failure.
- `SubPrintCsv.PrintAllFiles`: `print` becomes the sequence of lines returned. The files and their order are a given sequence, as `glob` returns them; the command-line entry point is not modelled.

## Findings

| source | as written | input that shows it | evidently intended | confidence | as-written member | corrected member |
|---|---|---|---|---|---|---|
| parameter_table.py:683 | the child of `tpath` is visited at `os.path.join(root_path, ff)` | root `r` holding `a`, which holds `b`: the walk descends into `r/b`, which does not exist, and `os.listdir` raises; and `r/a` holding `a` makes `r/a` revisit itself until the recursion limit | the child is visited at `os.path.join(tpath, ff)`, so every unmarked directory below root is analysed once, in preorder (given listings that agree with the tree and name each entry once) | not executed | Batch.AsWrittenTwoLevelFails | Batch.WalkIsPreorder |
| sub_print_csv.py:100 | the guard is `len(cols) >= use_col` and then `cols[use_col]` is read | with `use_col = 1`, a blank line (one field) inside the row window raises `IndexError` | the guard `len(cols) > use_col`, so a short row contributes nothing | not executed | SubPrintCsv.AsWrittenRaisesOnShortRow | SubPrintCsv.ReadCsvBounds |

For the first row, `Batch.AsWrittenRepeatedNameLoops` shows the endless
recursion. `Batch.IntendedWalkTwoLevel` and `Batch.IntendedWalkRepeatedName`
show the corrected walk completing on both trees, and `Batch.StartExeJson`
runs the corrected walk. For the second row, `SubPrintCsv.AsWrittenAgrees`
characterises exactly when the code as written raises, and
`SubPrintCsv.ReadCsv` and `SubPrintCsv.PrintAllFiles` use the corrected
guard.
