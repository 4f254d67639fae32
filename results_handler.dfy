/**
 * Publishing the latest search results on the scheduling site: finding the
 * newest `all_results.csv`, deleting the event's existing candidate slots,
 * typing one line per result row into the candidate textarea, stamping the
 * name field and saving. The event page's elements are the fields of
 * `EventPage`; the output folders and the CSV table read are inputs.
 */
module ResultsHandler {
  import opened Text
  import opened CsvUtils
  import opened Pandas

  /** A folder under the output directory with its modification time. */
  datatype Folder = Folder(path: string, mtime: int, hasAllResults: bool)

  /** Python's `max(folders, key=mtime)`: the first folder of greatest mtime. */
  function Latest(folders: seq<Folder>): Folder
    requires folders != []
  {
    if |folders| == 1 then folders[0]
    else
      var rest := Latest(folders[1..]);
      if rest.mtime > folders[0].mtime then rest else folders[0]
  }

  /** `get_latest_results_file`: `all_results.csv` of the latest folder, when there is one and it is there. */
  function LatestResultsFile(folders: seq<Folder>): Option<string> {
    if folders == [] then None
    else
      var latest := Latest(folders);
      if latest.hasAllResults then Some(PathJoin(latest.path, "all_results.csv")) else None
  }

  /** The latest folder is one of the folders, none is newer, and every folder before it is strictly older. */
  lemma {:induction false} LatestIsFirstNewest(folders: seq<Folder>)
    requires folders != []
    ensures exists i :: 0 <= i < |folders| && folders[i] == Latest(folders)
                        && forall j :: 0 <= j < i ==> folders[j].mtime < folders[i].mtime
    ensures forall j :: 0 <= j < |folders| ==> folders[j].mtime <= Latest(folders).mtime
  {
    if |folders| > 1 {
      var rest := folders[1..];
      LatestIsFirstNewest(rest);
      var latest := Latest(rest);
      var i :| 0 <= i < |rest| && rest[i] == latest && forall j :: 0 <= j < i ==> rest[j].mtime < rest[i].mtime;
      if latest.mtime > folders[0].mtime {
        assert Latest(folders) == latest == folders[i + 1];
        forall j | 0 <= j < i + 1 ensures folders[j].mtime < folders[i + 1].mtime {
          if j > 0 {
            assert folders[j] == rest[j - 1];
          }
        }
        assert 0 <= i + 1 < |folders| && folders[i + 1] == Latest(folders)
               && forall j :: 0 <= j < i + 1 ==> folders[j].mtime < folders[i + 1].mtime;
      } else {
        assert Latest(folders) == folders[0];
      }
      forall j | 0 <= j < |folders| ensures folders[j].mtime <= Latest(folders).mtime {
        if j > 0 {
          assert folders[j] == rest[j - 1];
        }
      }
    } else {
      assert folders[0] == Latest(folders);
    }
  }

  /** A results file is found iff there is a folder and the latest one holds `all_results.csv`. */
  lemma LatestResultsFileSome(folders: seq<Folder>)
    ensures LatestResultsFile(folders).Some? <==> folders != [] && Latest(folders).hasAllResults
    ensures LatestResultsFile(folders).Some? ==> EndsWith(LatestResultsFile(folders).value, "all_results.csv")
  {
    if folders != [] {
      PathJoinEnds(Latest(folders).path, "all_results.csv");
    }
  }

  /** A CSV file as `pd.read_csv` reads it: the header's column names and each data row's cells. */
  datatype Frame = Frame(columns: seq<string>, rows: seq<seq<Value>>)

  /** Where the four columns the text uses are. */
  datatype Positions = Positions(facility: nat, room: nat, date: nat, slot: nat)

  /** The position of the first column with that name (pandas renames later duplicates). */
  function ColumnIndex(columns: seq<string>, name: string): (r: Option<nat>)
    ensures r.Some? ==> r.value < |columns| && columns[r.value] == name
    ensures r.Some? ==> forall j :: 0 <= j < r.value ==> columns[j] != name
    ensures r.None? ==> name !in columns
  {
    if columns == [] then None
    else if columns[0] == name then Some(0)
    else match ColumnIndex(columns[1..], name)
      case None => None
      case Some(j) => Some(j + 1)
  }

  /** The columns `row['设施名称']` and the others read; None when one is missing (`KeyError`). */
  function TextColumns(columns: seq<string>): (r: Option<Positions>)
    ensures r.None? <==> "设施名称" !in columns || "室场名称" !in columns || "日期" !in columns || "时间段" !in columns
  {
    var f, r, d, t := ColumnIndex(columns, "设施名称"), ColumnIndex(columns, "室场名称"), ColumnIndex(columns, "日期"), ColumnIndex(columns, "时间段");
    if f.Some? && r.Some? && d.Some? && t.Some? then Some(Positions(f.value, r.value, d.value, t.value)) else None
  }

  /**
   * A row's cell as the f-string prints it: pandas reads a missing value as
   * NaN and fills a short row with NaN, and NaN prints as "nan".
   */
  function Cell(row: seq<Value>, j: nat): (c: string)
    ensures j < |row| && row[j].Str? ==> c == row[j].text
    ensures j >= |row| || row[j].NaN? ==> c == "nan"
  {
    if j < |row| then Format(row[j]) else "nan"
  }

  /** One row's line: facility, room, date and time slot separated by single spaces. */
  function Line(p: Positions, row: seq<Value>): string {
    Cell(row, p.facility) + " " + Cell(row, p.room) + " " + Cell(row, p.date) + " " + Cell(row, p.slot)
  }

  /** The rows' lines, in row order. */
  function Lines(p: Positions, rows: seq<seq<Value>>): (ls: seq<string>)
    ensures |ls| == |rows| && forall i :: 0 <= i < |rows| ==> ls[i] == Line(p, rows[i])
  {
    seq(|rows|, i requires 0 <= i < |rows| => Line(p, rows[i]))
  }

  /** Lines each followed by a newline, concatenated. */
  function LinesText(lines: seq<string>): string {
    Concat(Terminated(lines))
  }

  lemma TextAppend(lines: seq<string>, l: string)
    ensures LinesText(lines + [l]) == LinesText(lines) + (l + "\n")
  {
    assert Terminated(lines + [l]) == Terminated(lines) + [l + "\n"];
    ConcatAppend(Terminated(lines), l + "\n");
  }

  /** The textarea text: every row's line followed by a newline. */
  function InputText(p: Positions, rows: seq<seq<Value>>): string {
    LinesText(Lines(p, rows))
  }

  /**
   * When no cell holds a newline, the text is exactly the lines: splitting it
   * at newlines gives row `i`'s line at `i`, then the empty piece after the
   * last newline.
   */
  lemma InputTextLines(p: Positions, rows: seq<seq<Value>>)
    requires forall i :: 0 <= i < |rows| ==> '\n' !in Line(p, rows[i])
    ensures Split(InputText(p, rows), '\n') == Lines(p, rows) + [""]
  {
    var ls := Lines(p, rows);
    assert Terminated(ls) == seq(|ls|, i requires 0 <= i < |ls| => ls[i] + "\n");
    forall l | l in ls ensures '\n' !in l {
      var i :| 0 <= i < |ls| && ls[i] == l;
    }
    SplitTerminatedLines(ls);
  }

  /**
   * The text `update_with_search_results` types, or None when it gives up
   * before touching the textarea: no results file, a file `read_csv` cannot
   * read, an empty table, or a missing column.
   */
  function TypedText(folders: seq<Folder>, frame: Option<Frame>): Option<string> {
    if LatestResultsFile(folders).None? || frame.None? || frame.value.rows == [] then None
    else match TextColumns(frame.value.columns)
      case None => None
      case Some(p) => Some(InputText(p, frame.value.rows))
  }

  /** The name field's text for a save at `now`. */
  function NameStamp(now: string): string {
    "更新日期: " + now
  }

  /** `input_text += line + "\n"` over the rows. */
  method BuildInputText(p: Positions, rows: seq<seq<Value>>) returns (text: string)
    ensures text == InputText(p, rows)
  {
    text := "";
    for i := 0 to |rows|
      invariant text == InputText(p, rows[..i])
    {
      var line := Line(p, rows[i]);
      assert Lines(p, rows[..i + 1]) == Lines(p, rows[..i]) + [line];
      TextAppend(Lines(p, rows[..i]), line);
      text := text + (line + "\n");
    }
    assert rows[..|rows|] == rows;
  }

  class EventPage {
    /** The event's existing candidate slots, one garbage button each. */
    const slots: seq<string>
    /** Whether clicking each slot's garbage button (and reading its icon) succeeds. */
    const clickWorks: seq<bool>
    /** The slots whose button click went through. */
    var deleted: seq<bool>
    /** Whether the page has the `kouho` textarea, the name input and the save button. */
    const hasTextarea: bool
    const hasNameInput: bool
    const saveWorks: bool
    var textarea: string
    var name: string
    var submitted: bool

    ghost predicate Valid()
      reads this
    {
      |clickWorks| == |slots| && |deleted| == |slots|
    }

    constructor(slots: seq<string>, clickWorks: seq<bool>, hasTextarea: bool, hasNameInput: bool, saveWorks: bool)
      requires |clickWorks| == |slots|
      ensures Valid()
      ensures this.slots == slots && this.clickWorks == clickWorks
      ensures this.hasTextarea == hasTextarea && this.hasNameInput == hasNameInput && this.saveWorks == saveWorks
      ensures deleted == seq(|slots|, _ => false)
      ensures textarea == "" && name == "" && !submitted
    {
      this.slots := slots;
      this.clickWorks := clickWorks;
      this.hasTextarea := hasTextarea;
      this.hasNameInput := hasNameInput;
      this.saveWorks := saveWorks;
      deleted := seq(|slots|, _ => false);
      textarea, name, submitted := "", "", false;
    }

    /** The slots still on the page. */
    function Remaining(): seq<string>
      requires Valid()
      reads this
    {
      Kept(slots, deleted)
    }

    /**
     * `delete_existing_slots`: every garbage button is clicked in turn, a
     * failing click does not stop the later ones, and the step succeeds iff
     * the textarea is found afterwards, whatever the buttons did.
     */
    method DeleteExistingSlots() returns (ok: bool)
      requires Valid()
      modifies this`deleted
      ensures Valid()
      ensures forall i :: 0 <= i < |slots| ==> deleted[i] == (old(deleted)[i] || clickWorks[i])
      ensures ok == hasTextarea
    {
      for i := 0 to |slots|
        invariant Valid()
        invariant forall j :: 0 <= j < i ==> deleted[j] == (old(deleted)[j] || clickWorks[j])
        invariant forall j :: i <= j < |slots| ==> deleted[j] == old(deleted)[j]
      {
        if clickWorks[i] {
          deleted := deleted[i := true];
        }
      }
      ok := hasTextarea;
    }

    /**
     * `update_with_search_results`: without a typed text it fails and the
     * page is untouched; otherwise the textarea holds the text, the name
     * field is stamped when present (its absence is not a failure), and the
     * step succeeds iff the save button is clicked.
     */
    method UpdateWithSearchResults(folders: seq<Folder>, frame: Option<Frame>, now: string) returns (ok: bool)
      modifies this`textarea, this`name, this`submitted
      ensures TypedText(folders, frame).None? ==>
                !ok && textarea == old(textarea) && name == old(name) && submitted == old(submitted)
      ensures TypedText(folders, frame).Some? ==>
                textarea == TypedText(folders, frame).value
                && name == (if hasNameInput then NameStamp(now) else old(name))
                && submitted == (old(submitted) || saveWorks)
                && ok == saveWorks
    {
      var file := LatestResultsFile(folders);
      if file.None? || frame.None? {
        return false;
      }
      var rows := frame.value.rows;
      if rows == [] {
        return false;
      }
      var p := TextColumns(frame.value.columns);
      if p.None? {
        return false;
      }
      var text := BuildInputText(p.value, rows);
      textarea := text;
      if hasNameInput {
        name := NameStamp(now);
      }
      if !saveWorks {
        return false;
      }
      submitted := true;
      ok := true;
    }
  }

  /** The slots not deleted, in page order. */
  function Kept(slots: seq<string>, deleted: seq<bool>): (r: seq<string>)
    requires |deleted| == |slots|
    ensures forall s :: s in r ==> s in slots
  {
    if slots == [] then []
    else (if deleted[0] then [] else [slots[0]]) + Kept(slots[1..], deleted[1..])
  }

  /** The filter distributes over concatenation. */
  lemma {:induction false} KeptAppend(a: seq<string>, da: seq<bool>, b: seq<string>, db: seq<bool>)
    requires |da| == |a| && |db| == |b|
    ensures Kept(a + b, da + db) == Kept(a, da) + Kept(b, db)
  {
    if a == [] {
      assert a + b == b && da + db == db;
    } else {
      var ab, dab, head := a + b, da + db, if da[0] then [] else [a[0]];
      assert ab[1..] == a[1..] + b && dab[1..] == da[1..] + db;
      assert ab[0] == a[0] && dab[0] == da[0];
      assert Kept(ab, dab) == head + Kept(a[1..] + b, da[1..] + db);
      KeptAppend(a[1..], da[1..], b, db);
      assert Kept(ab, dab) == head + (Kept(a[1..], da[1..]) + Kept(b, db));
    }
  }

  /** Nothing deleted leaves every slot. */
  lemma {:induction false} KeptNoneDeleted(a: seq<string>, da: seq<bool>)
    requires |da| == |a|
    requires forall i :: 0 <= i < |a| ==> !da[i]
    ensures Kept(a, da) == a
  {
    if a != [] {
      assert forall i :: 0 <= i < |a| - 1 ==> da[1..][i] == da[i + 1];
      KeptNoneDeleted(a[1..], da[1..]);
      assert a == [a[0]] + a[1..];
    }
  }

  /**
   * `Kept` is the order-preserving filter: it distributes over concatenation,
   * keeps a slot iff it is not deleted, and keeps all when nothing is deleted.
   */
  lemma KeptOrder(a: seq<string>, da: seq<bool>, b: seq<string>, db: seq<bool>)
    requires |da| == |a| && |db| == |b|
    ensures Kept(a + b, da + db) == Kept(a, da) + Kept(b, db)
    ensures forall s, d :: Kept([s], [d]) == if d then [] else [s]
    ensures (forall i :: 0 <= i < |a| ==> !da[i]) ==> Kept(a, da) == a
  {
    KeptAppend(a, da, b, db);
    forall s, d ensures Kept([s], [d]) == if d then [] else [s] {
      assert [s][1..] == [] && [d][1..] == [];
    }
    if forall i :: 0 <= i < |a| ==> !da[i] {
      KeptNoneDeleted(a, da);
    }
  }

  /** Slot `i` holds `s` and its click failed. */
  predicate FailedAt(slots: seq<string>, works: seq<bool>, s: string, i: int)
    requires |works| == |slots|
  {
    0 <= i < |slots| && slots[i] == s && !works[i]
  }

  /**
   * After the deletions from a fresh page (`deleted[i]` is whether slot `i`'s
   * click worked), a slot text remains iff some slot holding it failed; none
   * remain when every click works, and all when none does.
   */
  lemma {:induction false} DeletionLeavesFailed(slots: seq<string>, works: seq<bool>, deleted: seq<bool>, s: string)
    requires |works| == |slots| && |deleted| == |slots|
    requires forall i :: 0 <= i < |slots| ==> deleted[i] == works[i]
    ensures s in Kept(slots, deleted) <==> exists i :: FailedAt(slots, works, s, i)
    ensures (forall i :: 0 <= i < |slots| ==> works[i]) ==> Kept(slots, deleted) == []
    ensures (forall i :: 0 <= i < |slots| ==> !works[i]) ==> Kept(slots, deleted) == slots
  {
    if slots != [] {
      var rest, wr, dr := slots[1..], works[1..], deleted[1..];
      DeletionLeavesFailed(rest, wr, dr, s);
      assert Kept(slots, deleted) == (if deleted[0] then [] else [slots[0]]) + Kept(rest, dr);
      assert s in Kept(slots, deleted) <==> (!works[0] && s == slots[0]) || s in Kept(rest, dr);
      if exists i :: FailedAt(slots, works, s, i) {
        var i :| FailedAt(slots, works, s, i);
        if i > 0 {
          assert FailedAt(rest, wr, s, i - 1);
        }
      }
      if !works[0] && s == slots[0] {
        assert FailedAt(slots, works, s, 0);
      }
      if exists i :: FailedAt(rest, wr, s, i) {
        var i :| FailedAt(rest, wr, s, i);
        assert FailedAt(slots, works, s, i + 1);
      }
      if forall i :: 0 <= i < |slots| ==> !works[i] {
        assert forall i :: 0 <= i < |rest| ==> !wr[i] by {
          forall i | 0 <= i < |rest| ensures !wr[i] {
            assert wr[i] == works[i + 1];
          }
        }
        assert slots == [slots[0]] + rest;
      }
      if forall i :: 0 <= i < |slots| ==> works[i] {
        assert forall i :: 0 <= i < |rest| ==> wr[i] by {
          forall i | 0 <= i < |rest| ensures wr[i] {
            assert wr[i] == works[i + 1];
          }
        }
      }
    }
  }
}
