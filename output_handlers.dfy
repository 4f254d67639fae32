/**
 * The CSV writer of the API version: records sorted by date then time slot,
 * written under a fixed header as unquoted comma-separated lines.
 */
module OutputHandlers {
  import opened Text
  import opened Dict
  import opened Sorting

  /** One facility record of the API output. */
  type Record = Dict<string>

  /** `record.get(key, "")`. */
  function Get(r: Record, k: string): string {
    var v := Lookup(r, k);
    if v.Some? then v.value else ""
  }

  /** The written columns, in order; they are also the header. */
  const Columns: seq<string> := ["施設", "室場", "日付", "時間帯"]

  const HeaderRow := "施設,室場,日付,時間帯"

  /** The sort key: the date, then the time slot, missing ones as "". */
  function SortKey(r: Record): Key {
    [Get(r, "日付"), Get(r, "時間帯")]
  }

  /** The four written fields of a record. */
  function Fields(r: Record): (f: seq<string>)
    ensures |f| == 4 && forall i :: 0 <= i < 4 ==> f[i] == Get(r, Columns[i])
  {
    seq(4, i requires 0 <= i < 4 => Get(r, Columns[i]))
  }

  /** A data line without its terminator. */
  function Row(r: Record): string {
    Join(Fields(r), ",")
  }

  /** The lines of the file for records already in output order. */
  function CsvLines(sorted: seq<Record>): (lines: seq<string>)
    ensures |lines| == |sorted| + 1 && lines[0] == HeaderRow
    ensures forall i :: 0 <= i < |sorted| ==> lines[i + 1] == Row(sorted[i])
  {
    [HeaderRow] + seq(|sorted|, i requires 0 <= i < |sorted| => Row(sorted[i]))
  }

  /** The text `save_csv_result` writes. */
  function CsvText(facilities: seq<Record>): string {
    Concat(Terminated(CsvLines(SortBy(facilities, SortKey))))
  }

  lemma HeaderText()
    ensures Join(Columns, ",") == HeaderRow
  {
  }

  lemma RowText(r: Record)
    ensures Row(r) == Get(r, "施設") + "," + Get(r, "室場") + "," + Get(r, "日付") + "," + Get(r, "時間帯")
  {
    var f := Fields(r);
    JoinFour(f, ",");
    assert f[0] == Get(r, "施設") && f[1] == Get(r, "室場") && f[2] == Get(r, "日付") && f[3] == Get(r, "時間帯");
  }

  lemma CsvStart(sorted: seq<Record>)
    ensures Concat(Terminated(CsvLines(sorted[..0]))) == "施設,室場,日付,時間帯\n"
  {
    var t := Terminated(CsvLines(sorted[..0]));
    assert t == [HeaderRow + "\n"];
    assert Concat(t) == t[0] + Concat(t[1..]);
  }

  lemma CsvStep(sorted: seq<Record>, i: nat)
    requires i < |sorted|
    ensures Concat(Terminated(CsvLines(sorted[..i + 1]))) == Concat(Terminated(CsvLines(sorted[..i]))) + Row(sorted[i]) + "\n"
  {
    assert CsvLines(sorted[..i + 1]) == CsvLines(sorted[..i]) + [Row(sorted[i])];
    assert Terminated(CsvLines(sorted[..i + 1])) == Terminated(CsvLines(sorted[..i])) + [Row(sorted[i]) + "\n"];
    ConcatAppend(Terminated(CsvLines(sorted[..i])), Row(sorted[i]) + "\n");
  }

  /** `save_csv_result` without the file: sorts, writes the header, then one line per record. */
  method SaveCsvText(facilities: seq<Record>) returns (text: string)
    ensures text == CsvText(facilities)
  {
    var sorted := SortBy(facilities, SortKey);
    text := "施設,室場,日付,時間帯\n";
    CsvStart(sorted);
    for i := 0 to |sorted|
      invariant text == Concat(Terminated(CsvLines(sorted[..i])))
    {
      CsvStep(sorted, i);
      RowText(sorted[i]);
      var f := sorted[i];
      var row := Get(f, "施設") + "," + Get(f, "室場") + "," + Get(f, "日付") + "," + Get(f, "時間帯") + "\n";
      text := text + row;
    }
    assert sorted[..|sorted|] == sorted;
  }

  /** No field of the record holds the character `c`. */
  predicate FieldsFree(r: Record, c: char) {
    forall i :: 0 <= i < 4 ==> c !in Get(r, Columns[i])
  }

  /**
   * When no field holds a newline, the file's lines are the header, then one
   * line per record in sorted order, then the empty piece after the last `\n`.
   */
  lemma CsvFileLines(facilities: seq<Record>)
    requires forall r :: r in facilities ==> FieldsFree(r, '\n')
    ensures var lines := Split(CsvText(facilities), '\n');
      var sorted := SortBy(facilities, SortKey);
      |lines| == |facilities| + 2 && lines[0] == HeaderRow && lines[|facilities| + 1] == ""
      && forall i :: 0 <= i < |facilities| ==> lines[i + 1] == Row(sorted[i])
  {
    var sorted := SortBy(facilities, SortKey);
    var lines := CsvLines(sorted);
    forall r | r in sorted ensures FieldsFree(r, '\n') {
      assert r in multiset(sorted);
    }
    CsvLinesFree(sorted);
    SplitTerminatedLines(lines);
    assert Terminated(lines) == seq(|lines|, i requires 0 <= i < |lines| => lines[i] + "\n");
  }

  lemma CsvLinesFree(sorted: seq<Record>)
    requires forall r :: r in sorted ==> FieldsFree(r, '\n')
    ensures forall l :: l in CsvLines(sorted) ==> '\n' !in l
  {
    var lines := CsvLines(sorted);
    forall k | 0 <= k < |lines| ensures '\n' !in lines[k] {
      if k == 0 {
        HeaderText();
        JoinFree(Columns, ",", '\n');
      } else {
        var r := sorted[k - 1];
        forall p | p in Fields(r) ensures '\n' !in p {
          var i :| 0 <= i < 4 && Fields(r)[i] == p;
          assert r in sorted && FieldsFree(r, '\n');
          assert p == Get(r, Columns[i]);
        }
        JoinFree(Fields(r), ",", '\n');
      }
    }
  }

  /** When no field holds a comma, splitting a data line on `,` gives the four fields back. */
  lemma RowFields(r: Record)
    requires FieldsFree(r, ',')
    ensures Split(Row(r), ',') == Fields(r)
  {
    SplitJoin(Fields(r), ',');
  }

  /** The first line is exactly the header, terminated. */
  lemma CsvHeader(facilities: seq<Record>)
    ensures StartsWith(CsvText(facilities), "施設,室場,日付,時間帯\n")
  {
    var lines := Terminated(CsvLines(SortBy(facilities, SortKey)));
    assert Concat(lines) == lines[0] + Concat(lines[1..]);
    assert lines[0] == "施設,室場,日付,時間帯\n";
  }

  /**
   * The data lines come in order of (date, time slot), and records with the
   * same date and time slot keep their input order.
   */
  lemma CsvOrder(facilities: seq<Record>, k: Key)
    ensures var sorted := SortBy(facilities, SortKey);
      multiset(sorted) == multiset(facilities)
      && (forall i, j :: 0 <= i < j < |sorted| ==> !KeyLt(SortKey(sorted[j]), SortKey(sorted[i])))
      && WithKey(sorted, k, SortKey) == WithKey(facilities, k, SortKey)
  {
    SortStable(facilities, k, SortKey);
  }
}
