/**
 * The cell texts of the summary table image: a header row, then one row per
 * search type, facility and room, in sorted order, whose last cell lists the
 * distinct "date time slot" strings of that group, two per line. `groupby`
 * leaves out the rows with a NaN search type, facility or room, and a NaN
 * date or slot in a group that is kept makes the table construction raise.
 * The figure itself (fonts, column widths, sizes) is not modelled.
 */
module TableGenerator {
  import opened Text
  import opened Sorting
  import opened Pandas

  /** A row of the results CSV as `read_csv` reads it, with the columns the table uses. */
  datatype Row = Row(searchType: Value, facility: Value, room: Value, date: Value, slot: Value)

  /** The header row of the table. */
  const Headers: seq<string> := ["时间", "设施名称", "室场名称", "日期和时间段"]

  /** The combined column `df['日期'] + ' ' + df['时间段']`: NaN when either part is NaN. */
  function DateTime(r: Row): Value {
    if r.date.Str? && r.slot.Str? then Str(r.date.text + " " + r.slot.text) else NaN
  }

  /** A row `groupby` keeps: its search type, facility and room are all read as text. */
  predicate Grouped(r: Row) {
    r.searchType.Str? && r.facility.Str? && r.room.Str?
  }

  /** The nested `groupby` key of a kept row: search type, then facility and room. */
  function GroupKey(r: Row): Key {
    [Format(r.searchType), Format(r.facility), Format(r.room)]
  }

  function Identity(k: Key): Key {
    k
  }

  /** pandas' `unique`: the distinct values, each where it first appears. */
  function Unique<T(==)>(xs: seq<T>): seq<T> {
    if xs == [] then []
    else
      var u := Unique(xs[..|xs| - 1]);
      if xs[|xs| - 1] in u then u else u + [xs[|xs| - 1]]
  }

  /** The keys of the rows `groupby` keeps, in row order. */
  function Keys(rows: seq<Row>): seq<Key> {
    if rows == [] then []
    else (if Grouped(rows[0]) then [GroupKey(rows[0])] else []) + Keys(rows[1..])
  }

  /** The group keys of the rows, distinct, in the sorted order `groupby` visits them. */
  function GroupKeys(rows: seq<Row>): seq<Key> {
    SortBy(Unique(Keys(rows)), Identity)
  }

  /** The kept rows of the group with key `k`, in row order. */
  function Group(rows: seq<Row>, k: Key): seq<Row> {
    if rows == [] then []
    else (if Grouped(rows[0]) && GroupKey(rows[0]) == k then [rows[0]] else []) + Group(rows[1..], k)
  }

  /** The date-times of a group's rows, in row order. */
  function DateTimes(group: seq<Row>): (r: seq<Value>)
    ensures |r| == |group| && forall i :: 0 <= i < |group| ==> r[i] == DateTime(group[i])
  {
    seq(|group|, i requires 0 <= i < |group| => DateTime(group[i]))
  }

  /** The distinct date-times of the group with key `k`, each once, by first appearance. */
  function GroupTimes(rows: seq<Row>, k: Key): seq<Value> {
    Unique(DateTimes(Group(rows, k)))
  }

  /** A data row: the group's search type, facility and room, and its date-times one per line. */
  function DataRow(rows: seq<Row>, k: Key): (r: seq<string>)
    requires |k| == 3
    ensures |r| == 4
  {
    [k[0], k[1], k[2], Join(Texts(GroupTimes(rows, k)), "\n")]
  }

  /** `generate_table_image` raises: a kept row has a NaN date or slot, which `'\n'.join` rejects. */
  predicate Raises(rows: seq<Row>) {
    exists i :: 0 <= i < |rows| && Grouped(rows[i]) && DateTime(rows[i]).NaN?
  }

  /** The chunks of `formatted_times` from position `i`: two date-times per chunk, joined by a newline. */
  function PairsFrom(dts: seq<string>, i: nat): seq<string>
    decreases |dts| - i
  {
    if i >= |dts| then []
    else
      var end := if i + 2 <= |dts| then i + 2 else |dts|;
      [Join(dts[i..end], "\n")] + PairsFrom(dts, i + 2)
  }

  /** Joining the two-per-line chunks by newlines is joining all the date-times by newlines. */
  lemma {:induction false} PairsJoin(dts: seq<string>, i: nat)
    requires i <= |dts|
    ensures Join(PairsFrom(dts, i), "\n") == Join(dts[i..], "\n")
    decreases |dts| - i
  {
    var n := |dts|;
    if i + 1 == n {
      assert dts[i..i + 1] == dts[i..];
    } else if i + 2 == n {
      assert dts[i..i + 2] == dts[i..];
      assert dts[i..][1..] == [dts[i + 1]];
    } else if i + 2 < n {
      PairsJoin(dts, i + 2);
      var chunk := dts[i..i + 2];
      var rest := PairsFrom(dts, i + 2);
      assert rest != [];
      assert Join([Join(chunk, "\n")] + rest, "\n") == Join(chunk, "\n") + "\n" + Join(rest, "\n");
      assert Join(chunk, "\n") == dts[i] + "\n" + dts[i + 1] by {
        assert chunk[1..] == [dts[i + 1]];
      }
      assert dts[i..][1..] == dts[i + 1..] && dts[i + 1..][1..] == dts[i + 2..];
    }
  }

  /** The inner loop of the table construction: `formatted_times`, two date-times per entry. */
  method FormatTimes(dts: seq<string>) returns (formatted: seq<string>)
    ensures formatted == PairsFrom(dts, 0)
  {
    formatted := [];
    var i := 0;
    while i < |dts|
      invariant formatted + PairsFrom(dts, i) == PairsFrom(dts, 0)
      decreases |dts| - i
    {
      var end := if i + 2 <= |dts| then i + 2 else |dts|;
      formatted := formatted + [Join(dts[i..end], "\n")];
      i := i + 2;
    }
    assert PairsFrom(dts, i) == [];
  }

  /**
   * `table_data`: None when the construction raises; otherwise the header
   * row, then for each group key in order its data row; each data row has
   * four cells and its last one lists the group's distinct date-times, one
   * per line.
   */
  method BuildTableData(rows: seq<Row>) returns (table: Option<seq<seq<string>>>)
    ensures table.None? <==> Raises(rows)
    ensures table.Some? ==> |table.value| == |GroupKeys(rows)| + 1 && table.value[0] == Headers
    ensures table.Some? ==> forall g :: 0 <= g < |GroupKeys(rows)| ==>
      |GroupKeys(rows)[g]| == 3 && table.value[g + 1] == DataRow(rows, GroupKeys(rows)[g])
  {
    var keys := GroupKeys(rows);
    GroupKeysParts(rows);
    table := TableRows(rows, keys);
    RaisesIff(rows);
  }

  /** The outer loop of the table construction over the sorted group keys; a group with a NaN date-time raises. */
  method TableRows(rows: seq<Row>, keys: seq<Key>) returns (table: Option<seq<seq<string>>>)
    requires forall g :: 0 <= g < |keys| ==> |keys[g]| == 3
    ensures table.None? <==> exists g :: 0 <= g < |keys| && NaN in GroupTimes(rows, keys[g])
    ensures table.Some? ==> |table.value| == |keys| + 1 && table.value[0] == Headers
    ensures table.Some? ==> forall g :: 0 <= g < |keys| ==> table.value[g + 1] == DataRow(rows, keys[g])
  {
    var data := [Headers];
    for g := 0 to |keys|
      invariant |data| == g + 1 && data[0] == Headers
      invariant forall h :: 0 <= h < g ==> NaN !in GroupTimes(rows, keys[h]) && data[h + 1] == DataRow(rows, keys[h])
    {
      var row := GroupRow(rows, keys[g]);
      if row.None? {
        return None;
      }
      ghost var before := data;
      data := data + [row.value];
      assert forall h :: 0 <= h <= g ==> data[h] == before[h];
    }
    table := Some(data);
  }

  /** Every group key has its three parts. */
  lemma GroupKeysParts(rows: seq<Row>)
    ensures forall g :: 0 <= g < |GroupKeys(rows)| ==> |GroupKeys(rows)[g]| == 3
  {
    var keys := GroupKeys(rows);
    forall g | 0 <= g < |keys| ensures |keys[g]| == 3 {
      GroupKeyIn(rows, keys[g]);
    }
  }

  /**
   * One pass of the outer loop: the group's cells, date-times two per chunk,
   * chunks joined by newlines; a NaN date-time makes the join raise.
   */
  method GroupRow(rows: seq<Row>, k: Key) returns (row: Option<seq<string>>)
    requires |k| == 3
    ensures row.None? <==> NaN in GroupTimes(rows, k)
    ensures row.Some? ==> row.value == DataRow(rows, k)
  {
    var dts := GroupTimes(rows, k);
    if NaN in dts {
      return None;
    }
    var texts := Texts(dts);
    var formatted := FormatTimes(texts);
    var text := Join(formatted, "\n");
    PairsJoin(texts, 0);
    assert texts[0..] == texts;
    row := Some([k[0], k[1], k[2], text]);
  }

  // ----- properties -----

  /** Row `i` is kept by `groupby` and has key `k`. */
  predicate KeyAt(rows: seq<Row>, k: Key, i: int) {
    0 <= i < |rows| && Grouped(rows[i]) && GroupKey(rows[i]) == k
  }

  lemma {:induction false} KeysIn(rows: seq<Row>, k: Key)
    ensures k in Keys(rows) <==> exists i :: KeyAt(rows, k, i)
  {
    if rows != [] {
      var rest := rows[1..];
      KeysIn(rest, k);
      var head := if Grouped(rows[0]) then [GroupKey(rows[0])] else [];
      assert Keys(rows) == head + Keys(rest);
      assert k in head <==> KeyAt(rows, k, 0);
      if exists i :: KeyAt(rows, k, i) {
        var i :| KeyAt(rows, k, i);
        if i > 0 {
          assert rest[i - 1] == rows[i];
          assert KeyAt(rest, k, i - 1);
        }
      }
      if exists i :: KeyAt(rest, k, i) {
        var i :| KeyAt(rest, k, i);
        assert rest[i] == rows[i + 1];
        assert KeyAt(rows, k, i + 1);
      }
    }
  }

  /**
   * A key is a group key iff some row `groupby` keeps has it; a row with a
   * NaN search type, facility or room forms no group. Each key has three parts.
   */
  lemma GroupKeyIn(rows: seq<Row>, k: Key)
    ensures k in GroupKeys(rows) <==> exists i :: 0 <= i < |rows| && Grouped(rows[i]) && GroupKey(rows[i]) == k
    ensures k in GroupKeys(rows) ==> |k| == 3
  {
    assert k in GroupKeys(rows) <==> k in multiset(Unique(Keys(rows)));
    UniqueElements(Keys(rows), k);
    KeysIn(rows, k);
    if exists i :: KeyAt(rows, k, i) {
      var i :| KeyAt(rows, k, i);
      assert 0 <= i < |rows| && Grouped(rows[i]) && GroupKey(rows[i]) == k;
    }
    if exists i :: 0 <= i < |rows| && Grouped(rows[i]) && GroupKey(rows[i]) == k {
      var i :| 0 <= i < |rows| && Grouped(rows[i]) && GroupKey(rows[i]) == k;
      assert KeyAt(rows, k, i);
    }
  }

  /** The table construction raises iff some group it visits has a NaN date-time. */
  lemma RaisesIff(rows: seq<Row>)
    ensures Raises(rows) <==> exists g :: 0 <= g < |GroupKeys(rows)| && NaN in GroupTimes(rows, GroupKeys(rows)[g])
  {
    var keys := GroupKeys(rows);
    if Raises(rows) {
      var i :| 0 <= i < |rows| && Grouped(rows[i]) && DateTime(rows[i]).NaN?;
      var k := GroupKey(rows[i]);
      GroupKeyIn(rows, k);
      var g :| 0 <= g < |keys| && keys[g] == k;
      GroupTimesDistinct(rows, k, NaN);
      assert TimeAt(rows, k, NaN, i);
    }
    if exists g :: 0 <= g < |keys| && NaN in GroupTimes(rows, keys[g]) {
      var g :| 0 <= g < |keys| && NaN in GroupTimes(rows, keys[g]);
      GroupTimesDistinct(rows, keys[g], NaN);
      var i :| TimeAt(rows, keys[g], NaN, i);
    }
  }

  /** The group keys are strictly increasing: sorted, and each group appears once. */
  lemma GroupKeysIncreasing(rows: seq<Row>)
    ensures forall g, h :: 0 <= g < h < |GroupKeys(rows)| ==> KeyLt(GroupKeys(rows)[g], GroupKeys(rows)[h])
  {
    var ks := Keys(rows);
    var u := Unique(ks);
    var s := GroupKeys(rows);
    UniqueDistinct(ks);
    PermutationDistinct(s, u);
    SortedDistinctIncreasing(s, Identity);
  }

  /** `unique` keeps exactly the values of its input. */
  lemma {:induction false} UniqueElements<T>(xs: seq<T>, x: T)
    ensures x in Unique(xs) <==> x in xs
  {
    if xs != [] {
      var init := xs[..|xs| - 1];
      UniqueElements(init, x);
      assert xs == init + [xs[|xs| - 1]];
    }
  }

  /** `unique` gives each value once. */
  lemma {:induction false} UniqueDistinct<T>(xs: seq<T>)
    ensures forall i, j :: 0 <= i < j < |Unique(xs)| ==> Unique(xs)[i] != Unique(xs)[j]
  {
    if xs != [] {
      var init := xs[..|xs| - 1];
      UniqueDistinct(init);
    }
  }

  /** The distinct values of a prefix come first, in the same order. */
  lemma {:induction false} UniquePrefix<T>(xs: seq<T>, k: nat)
    requires k <= |xs|
    ensures Unique(xs[..k]) <= Unique(xs)
    decreases |xs| - k
  {
    if k < |xs| {
      UniquePrefix(xs, k + 1);
      assert xs[..k + 1][..k] == xs[..k];
    } else {
      assert xs[..k] == xs;
    }
  }

  /**
   * First-appearance order: a value's first occurrence at `j` puts it right
   * after the distinct values of `xs[..j]`, so every value seen before `j`
   * comes earlier in `unique`'s output.
   */
  lemma FirstAppearance<T>(xs: seq<T>, j: nat)
    requires j < |xs| && xs[j] !in xs[..j]
    ensures Unique(xs[..j]) + [xs[j]] <= Unique(xs)
    ensures forall i :: 0 <= i < j ==> xs[i] in Unique(xs[..j])
  {
    assert xs[..j + 1][..j] == xs[..j];
    UniqueElements(xs[..j], xs[j]);
    UniquePrefix(xs, j + 1);
    forall i | 0 <= i < j ensures xs[i] in Unique(xs[..j]) {
      assert xs[..j][i] == xs[i];
      UniqueElements(xs[..j], xs[i]);
    }
  }

  /** The date-times of a data row are the group's distinct date-times: no repeats, none missing, none extra. */
  lemma GroupTimesDistinct(rows: seq<Row>, k: Key, t: Value)
    ensures forall i, j :: 0 <= i < j < |GroupTimes(rows, k)| ==> GroupTimes(rows, k)[i] != GroupTimes(rows, k)[j]
    ensures t in GroupTimes(rows, k) <==> exists i :: TimeAt(rows, k, t, i)
  {
    var group := Group(rows, k);
    UniqueDistinct(DateTimes(group));
    UniqueElements(DateTimes(group), t);
    GroupIn(rows, k, t);
  }

  /** Row `i` is kept by `groupby`, belongs to the group with key `k` and has date-time `t`. */
  predicate TimeAt(rows: seq<Row>, k: Key, t: Value, i: int) {
    0 <= i < |rows| && Grouped(rows[i]) && GroupKey(rows[i]) == k && DateTime(rows[i]) == t
  }

  lemma {:induction false} GroupIn(rows: seq<Row>, k: Key, t: Value)
    ensures t in DateTimes(Group(rows, k)) <==> exists i :: TimeAt(rows, k, t, i)
  {
    if rows != [] {
      var rest := rows[1..];
      GroupIn(rest, k, t);
      var head := if Grouped(rows[0]) && GroupKey(rows[0]) == k then [rows[0]] else [];
      var tail := Group(rest, k);
      assert Group(rows, k) == head + tail;
      DateTimesAppend(head, tail);
      InAppend(DateTimes(head), DateTimes(tail), t);
      assert t in DateTimes(head) <==> TimeAt(rows, k, t, 0);
      if exists i :: TimeAt(rows, k, t, i) {
        var i :| TimeAt(rows, k, t, i);
        if i > 0 {
          assert rest[i - 1] == rows[i];
          assert TimeAt(rest, k, t, i - 1);
        }
      }
      if exists i :: TimeAt(rest, k, t, i) {
        var i :| TimeAt(rest, k, t, i);
        assert rest[i] == rows[i + 1];
        assert TimeAt(rows, k, t, i + 1);
      }
    }
  }

  lemma DateTimesAppend(a: seq<Row>, b: seq<Row>)
    ensures DateTimes(a + b) == DateTimes(a) + DateTimes(b)
  {
  }
}
