/**
 * Reading the facility search results out of the browser: the results table
 * is read again after every "load more" click, rows already seen (by their
 * stripped text) are skipped, and each new row gives one record made of its
 * cells and the codes in its hidden inputs.
 */
module SearchResultsPage {
  import opened Text

  /** A hidden `<input>` of a result row; `get_attribute` gives None for a missing attribute. */
  datatype Input = Input(name: Option<string>, value: Option<string>)

  /** A `<tr>` as the browser shows it at one moment: its text, the texts of its `td` cells, its inputs. */
  datatype TableRow = TableRow(text: string, cells: seq<string>, inputs: seq<Input>)

  /** The rows of the results table at one moment, header row first. */
  type Snapshot = seq<TableRow>

  /** One extracted result: the four visible columns and the three hidden codes. */
  datatype Record = Record(
    facility: string, room: string, date: string, slot: string,
    facilityCode: Option<string>, objectCode: Option<string>, useDate: Option<string>)

  /** The code an input supplies, by its name; the tests are tried in this order. */
  datatype Kind = FacilityCodeInput | ObjectCodeInput | UseDateInput | OtherInput

  function KindOf(name: string): Kind {
    if Contains(name, "FacilityCode") then FacilityCodeInput
    else if Contains(name, "ObjectCode") then ObjectCodeInput
    else if Contains(name, "UseDate") && !Contains(name, "Display") then UseDateInput
    else OtherInput
  }

  /** Every input has a name; a nameless one makes the `in` test raise. */
  predicate Named(inputs: seq<Input>) {
    forall i :: 0 <= i < |inputs| ==> inputs[i].name.Some?
  }

  /** The value of the last input of kind `k`, or None when there is none. */
  function LastOf(inputs: seq<Input>, k: Kind): Option<string>
    requires Named(inputs)
  {
    if inputs == [] then None
    else if KindOf(inputs[|inputs| - 1].name.value) == k then inputs[|inputs| - 1].value
    else LastOf(inputs[..|inputs| - 1], k)
  }

  datatype Codes = Codes(facilityCode: Option<string>, objectCode: Option<string>, useDate: Option<string>)

  /** The three codes of a row, or None when reading them raises. */
  function HiddenCodes(inputs: seq<Input>): Option<Codes> {
    if Named(inputs) then
      Some(Codes(LastOf(inputs, FacilityCodeInput), LastOf(inputs, ObjectCodeInput), LastOf(inputs, UseDateInput)))
    else None
  }

  /** The inner loop over a row's hidden inputs: each matching input overwrites its code. */
  method ReadHiddenCodes(inputs: seq<Input>) returns (r: Option<Codes>)
    ensures r == HiddenCodes(inputs)
  {
    var facilityCode, objectCode, useDate := None, None, None;
    var i := 0;
    while i < |inputs|
      invariant 0 <= i <= |inputs|
      invariant Named(inputs[..i])
      invariant facilityCode == LastOf(inputs[..i], FacilityCodeInput)
      invariant objectCode == LastOf(inputs[..i], ObjectCodeInput)
      invariant useDate == LastOf(inputs[..i], UseDateInput)
    {
      var input := inputs[i];
      if input.name.None? {
        assert !Named(inputs);
        return None;
      }
      var name := input.name.value;
      if Contains(name, "FacilityCode") {
        facilityCode := input.value;
      } else if Contains(name, "ObjectCode") {
        objectCode := input.value;
      } else if Contains(name, "UseDate") && !Contains(name, "Display") {
        useDate := input.value;
      }
      assert inputs[..i + 1][..i] == inputs[..i];
      i := i + 1;
    }
    assert inputs[..i] == inputs;
    return Some(Codes(facilityCode, objectCode, useDate));
  }

  /** The record of one row: None when it has fewer than five cells or its inputs cannot be read. */
  function Extract(row: TableRow): Option<Record> {
    if |row.cells| < 5 then None
    else
      match HiddenCodes(row.inputs)
      case None => None
      case Some(c) =>
        Some(Record(Strip(row.cells[1]), Strip(row.cells[2]), Strip(row.cells[3]), Strip(row.cells[4]),
                    c.facilityCode, c.objectCode, c.useDate))
  }

  /** Lines 50-86 for a row not seen before. */
  method ExtractRow(row: TableRow) returns (r: Option<Record>)
    ensures r == Extract(row)
  {
    if |row.cells| < 5 {
      return None;
    }
    var facility := Strip(row.cells[1]);
    var room := Strip(row.cells[2]);
    var date := Strip(row.cells[3]);
    var slot := Strip(row.cells[4]);
    var codes := ReadHiddenCodes(row.inputs);
    if codes.None? {
      return None;
    }
    r := Some(Record(facility, room, date, slot, codes.value.facilityCode, codes.value.objectCode, codes.value.useDate));
  }

  /** A row's identity: its stripped text. */
  function Key(row: TableRow): string {
    Strip(row.text)
  }

  /** The non-empty keys of a run of rows. */
  function Keys(rows: seq<TableRow>): set<string> {
    set i | 0 <= i < |rows| && Key(rows[i]) != "" :: Key(rows[i])
  }

  /**
   * The rows that pass the de-duplication, in order, when the keys in `seen`
   * were processed before: a row is kept when its key is non-empty and not yet
   * processed, and its key is then processed.
   */
  function Scan(rows: seq<TableRow>, seen: set<string>): seq<TableRow> {
    if rows == [] then []
    else
      var k := Key(rows[0]);
      if k != "" && k !in seen then [rows[0]] + Scan(rows[1..], seen + {k})
      else Scan(rows[1..], seen)
  }

  /** The records of a run of rows, in order. */
  function ExtractAll(rows: seq<TableRow>): seq<Record> {
    if rows == [] then []
    else (if Extract(rows[0]).Some? then [Extract(rows[0]).value] else []) + ExtractAll(rows[1..])
  }

  /** The records the rows add to `all_data` when the keys in `seen` were processed before. */
  function Collect(rows: seq<TableRow>, seen: set<string>): seq<Record> {
    ExtractAll(Scan(rows, seen))
  }

  /** The `all_data` list after a run of rows. */
  function Records(rows: seq<TableRow>): seq<Record> {
    Collect(rows, {})
  }

  /** A snapshot without its header row (`rows[1:]`). */
  function Tail(s: Snapshot): seq<TableRow> {
    if s == [] then [] else s[1..]
  }

  /** The data rows the paging loop reads: page after page, until a page has no rows. */
  function Read(snapshots: seq<Snapshot>): seq<TableRow> {
    if snapshots == [] || snapshots[0] == [] then [] else Tail(snapshots[0]) + Read(snapshots[1..])
  }

  /** `load_all_results`: the records, or None when there are none. */
  function Load(snapshots: seq<Snapshot>): Option<seq<Record>> {
    var r := Records(Read(snapshots));
    if r == [] then None else Some(r)
  }

  /** One row of the loop: a fresh key is processed, and its row's record, if any, is appended. */
  lemma CollectStep(rows: seq<TableRow>, seen: set<string>)
    requires rows != []
    ensures var k := Key(rows[0]);
      Collect(rows, seen) ==
        if k != "" && k !in seen then
          (if Extract(rows[0]).Some? then [Extract(rows[0]).value] else []) + Collect(rows[1..], seen + {k})
        else Collect(rows[1..], seen)
  {
    var k := Key(rows[0]);
    if k != "" && k !in seen {
      var t := Scan(rows[1..], seen + {k});
      assert ([rows[0]] + t)[0] == rows[0] && ([rows[0]] + t)[1..] == t;
    }
  }

  /** The loop over one snapshot's data rows (lines 40-90); `rest` stands for the rows read after them. */
  method ProcessPage(page: Snapshot, ghost rest: seq<TableRow>, data: seq<Record>, seen: set<string>)
    returns (allData: seq<Record>, processed: set<string>)
    ensures allData + Collect(rest, processed) == data + Collect(Tail(page) + rest, seen)
  {
    allData, processed := data, seen;
    if page == [] {
      assert Tail(page) + rest == rest;
      return;
    }
    var m := 1;
    while m < |page|
      invariant 1 <= m <= |page|
      invariant allData + Collect(page[m..] + rest, processed) == data + Collect(page[1..] + rest, seen)
    {
      SplitFirst(page, m, rest);
      allData, processed := ProcessRow(page[m], page[m + 1..] + rest, allData, processed);
      m := m + 1;
    }
    assert page[m..] + rest == rest;
  }

  /** One pass of the row loop: a row with a fresh non-empty key is processed, and its record kept if it has one. */
  method ProcessRow(row: TableRow, ghost rest: seq<TableRow>, data: seq<Record>, seen: set<string>)
    returns (allData: seq<Record>, processed: set<string>)
    ensures allData + Collect(rest, processed) == data + Collect([row] + rest, seen)
  {
    allData, processed := data, seen;
    CollectCons(row, rest, seen);
    var content := Strip(row.text);
    if content != "" && content !in processed {
      processed := processed + {content};
      var record := ExtractRow(row);
      var head := if record.Some? then [record.value] else [];
      allData := allData + head;
      AppendAssoc(data, head, Collect(rest, processed));
    }
  }

  lemma CollectCons(row: TableRow, rest: seq<TableRow>, seen: set<string>)
    ensures var k := Key(row);
      Collect([row] + rest, seen) ==
        if k != "" && k !in seen then
          (if Extract(row).Some? then [Extract(row).value] else []) + Collect(rest, seen + {k})
        else Collect(rest, seen)
  {
    CollectStep([row] + rest, seen);
    assert ([row] + rest)[0] == row && ([row] + rest)[1..] == rest;
  }

  /** The paging loop of `load_all_results`: the snapshots are the table as read before each "load more" click. */
  method ReadPages(snapshots: seq<Snapshot>) returns (allData: seq<Record>)
    ensures allData == Records(Read(snapshots))
  {
    allData := [];
    var processed: set<string> := {};
    var k := 0;
    while k < |snapshots| && snapshots[k] != []
      invariant 0 <= k <= |snapshots|
      invariant allData + Collect(Read(snapshots[k..]), processed) == Records(Read(snapshots))
    {
      ReadStep(snapshots, k);
      allData, processed := ProcessPage(snapshots[k], Read(snapshots[k + 1..]), allData, processed);
      k := k + 1;
    }
    ReadDone(snapshots, k, processed);
  }

  lemma ReadStep(snapshots: seq<Snapshot>, k: nat)
    requires k < |snapshots| && snapshots[k] != []
    ensures Read(snapshots[k..]) == Tail(snapshots[k]) + Read(snapshots[k + 1..])
  {
    assert snapshots[k..][1..] == snapshots[k + 1..];
  }

  /** The loop stops at the first empty page, or after the last. */
  lemma ReadDone(snapshots: seq<Snapshot>, k: nat, seen: set<string>)
    requires k <= |snapshots| && (k == |snapshots| || snapshots[k] == [])
    ensures Collect(Read(snapshots[k..]), seen) == []
  {
  }

  /** `load_all_results`: None when no record was extracted. */
  method LoadAllResults(snapshots: seq<Snapshot>) returns (result: Option<seq<Record>>)
    ensures result == Load(snapshots)
  {
    var allData := ReadPages(snapshots);
    if allData == [] {
      return None;
    }
    return Some(allData);
  }

  /** The last input of a kind supplies its code; with none, the code stays None. */
  lemma {:induction false} LastWins(inputs: seq<Input>, k: Kind, i: int)
    requires Named(inputs)
    requires -1 <= i < |inputs|
    requires i >= 0 ==> KindOf(inputs[i].name.value) == k
    requires forall j :: i < j < |inputs| ==> KindOf(inputs[j].name.value) != k
    ensures LastOf(inputs, k) == if i >= 0 then inputs[i].value else None
    decreases |inputs|
  {
    if inputs != [] && i < |inputs| - 1 {
      var init := inputs[..|inputs| - 1];
      assert Named(init);
      LastWins(init, k, i);
    }
  }

  /** A name is tested for FacilityCode first, then ObjectCode, then UseDate without Display. */
  lemma KindPriority(name: string)
    ensures Contains(name, "FacilityCode") ==> KindOf(name) == FacilityCodeInput
    ensures Contains(name, "UseDate") && Contains(name, "Display") ==> KindOf(name) != UseDateInput
    ensures KindOf(name) == UseDateInput ==> !Contains(name, "FacilityCode") && !Contains(name, "ObjectCode")
  {
  }

  /** A row yields a record iff it has at least five cells and readable inputs; its columns are cells 1 to 4, stripped. */
  lemma ExtractFields(row: TableRow)
    ensures Extract(row).Some? <==> |row.cells| >= 5 && Named(row.inputs)
    ensures Extract(row).Some? ==>
      var r := Extract(row).value;
      r.facility == Strip(row.cells[1]) && r.room == Strip(row.cells[2])
      && r.date == Strip(row.cells[3]) && r.slot == Strip(row.cells[4])
      && r.facilityCode == LastOf(row.inputs, FacilityCodeInput)
      && r.objectCode == LastOf(row.inputs, ObjectCodeInput)
      && r.useDate == LastOf(row.inputs, UseDateInput)
  {
  }

  lemma {:induction false} ExtractAllAppend(a: seq<TableRow>, b: seq<TableRow>)
    ensures ExtractAll(a + b) == ExtractAll(a) + ExtractAll(b)
  {
    if a == [] {
      assert a + b == b;
    } else {
      assert (a + b)[0] == a[0] && (a + b)[1..] == a[1..] + b;
      ExtractAllAppend(a[1..], b);
    }
  }

  lemma KeysCons(a: seq<TableRow>)
    requires a != []
    ensures Keys(a) == (if Key(a[0]) != "" then {Key(a[0])} else {}) + Keys(a[1..])
  {
    var k := Key(a[0]);
    forall t | t in Keys(a) ensures t in (if k != "" then {k} else {}) + Keys(a[1..]) {
      var i :| 0 <= i < |a| && Key(a[i]) != "" && Key(a[i]) == t;
      if i > 0 {
        assert a[1..][i - 1] == a[i];
      }
    }
    forall t | t in Keys(a[1..]) ensures t in Keys(a) {
      var i :| 0 <= i < |a[1..]| && Key(a[1..][i]) != "" && Key(a[1..][i]) == t;
      assert a[i + 1] == a[1..][i];
    }
  }

  /** Reading `a` then `b` keeps what `a` keeps, then what `b` keeps once the keys of `a` are processed. */
  lemma {:induction false} ScanAppend(a: seq<TableRow>, b: seq<TableRow>, seen: set<string>)
    ensures Scan(a + b, seen) == Scan(a, seen) + Scan(b, seen + Keys(a))
  {
    if a == [] {
      assert a + b == b && Keys(a) == {};
      assert seen + Keys(a) == seen;
    } else {
      var k := Key(a[0]);
      var seen' := if k != "" && k !in seen then seen + {k} else seen;
      assert (a + b)[0] == a[0] && (a + b)[1..] == a[1..] + b;
      ScanAppend(a[1..], b, seen');
      KeysCons(a);
      assert seen' + Keys(a[1..]) == seen + Keys(a);
    }
  }

  /** Kept rows are rows read, with non-empty keys none of which was processed before. */
  lemma {:induction false} KeptFresh(rows: seq<TableRow>, seen: set<string>)
    ensures forall x :: x in Scan(rows, seen) ==> x in rows && Key(x) != "" && Key(x) !in seen
  {
    if rows != [] {
      var k := Key(rows[0]);
      KeptFresh(rows[1..], if k != "" && k !in seen then seen + {k} else seen);
    }
  }

  /** No two kept rows share a key. */
  lemma {:induction false} KeptDistinct(rows: seq<TableRow>, seen: set<string>)
    ensures forall a, b :: 0 <= a < b < |Scan(rows, seen)| ==> Key(Scan(rows, seen)[a]) != Key(Scan(rows, seen)[b])
  {
    if rows != [] {
      var k := Key(rows[0]);
      if k != "" && k !in seen {
        KeptDistinct(rows[1..], seen + {k});
        KeptFresh(rows[1..], seen + {k});
        var t := Scan(rows[1..], seen + {k});
        forall b | 0 < b < |t| + 1 ensures Key(([rows[0]] + t)[b]) != k {
          assert ([rows[0]] + t)[b] == t[b - 1] && t[b - 1] in t;
        }
      } else {
        KeptDistinct(rows[1..], seen);
      }
    }
  }

  /** Every non-empty key not processed before is the key of a kept row. */
  lemma {:induction false} KeptCovers(rows: seq<TableRow>, seen: set<string>)
    ensures forall i :: 0 <= i < |rows| && Key(rows[i]) != "" && Key(rows[i]) !in seen ==>
      exists x :: x in Scan(rows, seen) && Key(x) == Key(rows[i])
  {
    if rows != [] {
      var k := Key(rows[0]);
      KeptCovers(rows[1..], if k != "" && k !in seen then seen + {k} else seen);
      forall i | 0 < i < |rows| ensures rows[i] == rows[1..][i - 1] {
      }
    }
  }

  /** A later row with the key of an earlier one adds nothing, whatever the earlier row's cells were. */
  lemma LaterDuplicateDropped(rows: seq<TableRow>, i: nat, j: nat)
    requires i < j < |rows|
    requires Key(rows[i]) != "" && Key(rows[i]) == Key(rows[j])
    ensures Scan(rows[..j + 1], {}) == Scan(rows[..j], {})
    ensures Records(rows[..j + 1]) == Records(rows[..j])
  {
    assert rows[..j + 1] == rows[..j] + [rows[j]];
    ScanAppend(rows[..j], [rows[j]], {});
    assert rows[..j][i] == rows[i];
    assert Key(rows[j]) in Keys(rows[..j]);
    assert Scan([rows[j]], {} + Keys(rows[..j])) == [];
    assert Scan(rows[..j], {}) + [] == Scan(rows[..j], {});
  }

  /** A row with fewer than five cells adds no record. */
  lemma ShortRowNoRecord(rows: seq<TableRow>, i: nat)
    requires i < |rows| && |rows[i].cells| < 5
    ensures Records(rows[..i + 1]) == Records(rows[..i])
  {
    assert rows[..i + 1] == rows[..i] + [rows[i]];
    ScanAppend(rows[..i], [rows[i]], {});
    var t := Scan([rows[i]], {} + Keys(rows[..i]));
    assert [rows[i]][1..] == [];
    assert ExtractAll(t) == [];
    ExtractAllAppend(Scan(rows[..i], {}), t);
    assert ExtractAll(Scan(rows[..i], {})) + [] == ExtractAll(Scan(rows[..i], {}));
  }

  lemma {:induction false} ReadSameTails(s1: seq<Snapshot>, s2: seq<Snapshot>)
    requires |s1| == |s2|
    requires forall j :: 0 <= j < |s1| ==> (s1[j] == [] <==> s2[j] == []) && Tail(s1[j]) == Tail(s2[j])
    ensures Read(s1) == Read(s2)
  {
    if s1 != [] && s1[0] != [] {
      ReadSameTails(s1[1..], s2[1..]);
    }
  }

  /** The first row of every snapshot is ignored: replacing it changes nothing. */
  lemma HeaderIgnored(snapshots: seq<Snapshot>, k: nat, header: TableRow)
    requires k < |snapshots| && snapshots[k] != []
    ensures Load(snapshots[k := [header] + snapshots[k][1..]]) == Load(snapshots)
  {
    var s2 := snapshots[k := [header] + snapshots[k][1..]];
    forall j | 0 <= j < |snapshots|
      ensures (snapshots[j] == [] <==> s2[j] == []) && Tail(snapshots[j]) == Tail(s2[j])
    {
      if j == k {
        assert ([header] + snapshots[k][1..])[1..] == snapshots[k][1..];
      }
    }
    ReadSameTails(snapshots, s2);
  }
}
