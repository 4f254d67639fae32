/**
 * The browser version's CSV helper: the file-name rule of `save_results` and
 * the concatenation of `merge_results`. Writing the file is an outcome the
 * caller supplies.
 */
module CsvUtils {
  import opened Text
  import opened Dict

  /** A result table: its rows, in order. */
  type Table = seq<Dict<string>>

  /** Where a table was written, and what. */
  datatype Saved = Saved(path: string, rows: Table)

  /** The file name: the given one, or a timestamped default, with `.csv` appended unless present. */
  function ResultsFilename(filename: Option<string>, timestamp: string): string {
    var name := if filename.Some? then filename.value else "search_results_" + timestamp + ".csv";
    if EndsWith(name, ".csv") then name else name + ".csv"
  }

  /** The file name always ends in `.csv`; one already ending so is kept, otherwise one `.csv` is appended. */
  lemma FilenameSuffix(filename: Option<string>, timestamp: string)
    ensures EndsWith(ResultsFilename(filename, timestamp), ".csv")
    ensures filename.Some? && EndsWith(filename.value, ".csv") ==> ResultsFilename(filename, timestamp) == filename.value
    ensures filename.Some? && !EndsWith(filename.value, ".csv") ==> ResultsFilename(filename, timestamp) == filename.value + ".csv"
    ensures filename.None? ==> ResultsFilename(filename, timestamp) == "search_results_" + timestamp + ".csv"
  {
    var name := if filename.Some? then filename.value else "search_results_" + timestamp + ".csv";
    if !EndsWith(name, ".csv") {
      assert (name + ".csv")[|name + ".csv"| - 4..] == ".csv";
    }
    if filename.None? {
      assert name[|name| - 4..] == ".csv";
    }
  }

  /** Applying the rule to its own result changes nothing. */
  lemma FilenameIdempotent(filename: Option<string>, timestamp: string, other: string)
    ensures ResultsFilename(Some(ResultsFilename(filename, timestamp)), other) == ResultsFilename(filename, timestamp)
  {
    FilenameSuffix(filename, timestamp);
  }

  /** `os.path.join(directory, name)` on POSIX paths. */
  function PathJoin(directory: string, name: string): string {
    if StartsWith(name, "/") then name
    else if directory == "" || EndsWith(directory, "/") then directory + name
    else directory + "/" + name
  }

  lemma PathJoinEnds(directory: string, name: string)
    ensures EndsWith(PathJoin(directory, name), name)
  {
    var p := PathJoin(directory, name);
    assert p[|p| - |name|..] == name;
  }

  /** `save_results`: the table written under the output directory, or None when writing fails. */
  function SaveResults(outputDir: string, results: Table, filename: Option<string>, timestamp: string, writeOk: bool): Option<Saved> {
    if writeOk then Some(Saved(PathJoin(outputDir, ResultsFilename(filename, timestamp)), results)) else None
  }

  /** The rows of the tables, table after table. */
  function Flatten(tables: seq<Table>): Table {
    if tables == [] then [] else Flatten(tables[..|tables| - 1]) + tables[|tables| - 1]
  }

  function TotalRows(tables: seq<Table>): nat {
    if tables == [] then 0 else |tables[0]| + TotalRows(tables[1..])
  }

  /** `merge_results`: the concatenation saved; `pd.concat` of no tables raises, giving None. */
  function MergeResults(outputDir: string, tables: seq<Table>, filename: Option<string>, timestamp: string, writeOk: bool): Option<Saved> {
    if tables == [] then None else SaveResults(outputDir, Flatten(tables), filename, timestamp, writeOk)
  }

  lemma {:induction false} FlattenCons(t: Table, tables: seq<Table>)
    ensures Flatten([t] + tables) == t + Flatten(tables)
    decreases |tables|
  {
    if tables == [] {
      assert [t] + tables == [t];
      assert Flatten([t]) == Flatten([]) + t;
    } else {
      var init := tables[..|tables| - 1];
      assert ([t] + tables)[..|tables|] == [t] + init;
      FlattenCons(t, init);
    }
  }

  /** The merged table has as many rows as the inputs together. */
  lemma {:induction false} FlattenLength(tables: seq<Table>)
    ensures |Flatten(tables)| == TotalRows(tables)
  {
    if tables != [] {
      assert tables == [tables[0]] + tables[1..];
      FlattenCons(tables[0], tables[1..]);
      FlattenLength(tables[1..]);
    }
  }

  /** Row `j` of table `i` sits after all rows of the tables before it. */
  lemma {:induction false} FlattenPosition(tables: seq<Table>, i: nat, j: nat)
    requires i < |tables| && j < |tables[i]|
    ensures |Flatten(tables[..i])| + j < |Flatten(tables)|
    ensures Flatten(tables)[|Flatten(tables[..i])| + j] == tables[i][j]
    decreases |tables|
  {
    var n := |tables|;
    if i < n - 1 {
      FlattenPosition(tables[..n - 1], i, j);
      assert tables[..n - 1][..i] == tables[..i];
    } else {
      assert tables[..n - 1] == tables[..i];
    }
  }

  /**
   * Merging succeeds exactly when there is a table and the write succeeds; the
   * rows saved are the inputs concatenated in list order, under the file-name rule.
   */
  lemma MergeOutcome(outputDir: string, tables: seq<Table>, filename: Option<string>, timestamp: string, writeOk: bool)
    ensures MergeResults(outputDir, tables, filename, timestamp, writeOk).Some? <==> tables != [] && writeOk
    ensures var m := MergeResults(outputDir, tables, filename, timestamp, writeOk);
      m.Some? ==>
        m.value.rows == Flatten(tables) && |m.value.rows| == TotalRows(tables)
        && EndsWith(m.value.path, ResultsFilename(filename, timestamp))
  {
    FlattenLength(tables);
    PathJoinEnds(outputDir, ResultsFilename(filename, timestamp));
  }
}
