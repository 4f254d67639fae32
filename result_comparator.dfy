/**
 * The snapshot diff: which facilities are new, which disappeared, and which
 * changed their availability between two result tables keyed by facility name.
 */
module ResultComparator {
  import opened Text
  import opened Dict
  import opened Pandas

  /**
   * A result row as `read_csv` reads it: its facility name (施設名),
   * availability (空き状況) and other columns. A NaN name matches a NaN name
   * in `isin` and `merge`, so names compare as values.
   */
  datatype Row = Row(name: Value, status: Value, other: Dict<Value>)

  /** The facility names of a table, in order. */
  function Names(t: seq<Row>): (ns: seq<Value>)
    ensures |ns| == |t| && forall i :: 0 <= i < |t| ==> ns[i] == t[i].name
  {
    seq(|t|, i requires 0 <= i < |t| => t[i].name)
  }

  /** `t[~t['施設名'].isin(names)]`: the rows whose name is not listed, in order. */
  function Unmatched(t: seq<Row>, names: seq<Value>): (r: seq<Row>)
    ensures forall x :: x in r <==> x in t && x.name !in names
    ensures |r| <= |t|
  {
    if t == [] then []
    else (if t[0].name in names then [] else [t[0]]) + Unmatched(t[1..], names)
  }

  /** The rows of `previous` matching one current row, paired with it, in `previous` order. */
  function Matches(c: Row, previous: seq<Row>): (r: seq<(Row, Row)>)
    ensures forall x :: x in r <==> x.0 == c && x.1 in previous && x.1.name == c.name
  {
    if previous == [] then []
    else (if previous[0].name == c.name then [(c, previous[0])] else []) + Matches(c, previous[1..])
  }

  /** `pd.merge(current, previous, on='施設名')`: every pair of rows with equal names, current order first. */
  function Joined(current: seq<Row>, previous: seq<Row>): (r: seq<(Row, Row)>)
    ensures forall x :: x in r <==> x.0 in current && x.1 in previous && x.0.name == x.1.name
  {
    if current == [] then [] else Matches(current[0], previous) + Joined(current[1..], previous)
  }

  /** pandas' `!=` on two cells: NaN differs from everything, itself included. */
  predicate Differs(a: Value, b: Value) {
    a.NaN? || b.NaN? || a != b
  }

  /** The merged pairs whose availability differs under pandas' `!=`. */
  function StatusChanged(pairs: seq<(Row, Row)>): (r: seq<(Row, Row)>)
    ensures forall x :: x in r <==> x in pairs && Differs(x.0.status, x.1.status)
  {
    if pairs == [] then []
    else (if Differs(pairs[0].0.status, pairs[0].1.status) then [pairs[0]] else []) + StatusChanged(pairs[1..])
  }

  datatype Diff = Diff(added: seq<Row>, removed: seq<Row>, changed: seq<(Row, Row)>)

  /** `ResultComparator.compare` on tables already read. */
  function Compare(current: seq<Row>, previous: seq<Row>): Diff {
    Diff(Unmatched(current, Names(previous)), Unmatched(previous, Names(current)), StatusChanged(Joined(current, previous)))
  }

  /** A CSV file as `read_csv` reads it: its column names and its rows. */
  datatype Table = Table(columns: seq<string>, rows: seq<Row>)

  /** The columns `compare` indexes: 施設名 for the masks and the merge, 空き状況 for the status test. */
  predicate HasColumns(t: Table) {
    "施設名" in t.columns && "空き状況" in t.columns
  }

  /**
   * `ResultComparator.compare`: None when a file cannot be read or lacks a
   * column it indexes. A missing 施設名 raises `KeyError` in the masks or the
   * merge. A 空き状況 missing from either file leaves the merge without
   * `空き状況_current` or `空き状況_previous`, which raises `KeyError` too. The
   * `except Exception` turns either into None.
   */
  function CompareFiles(current: Option<Table>, previous: Option<Table>): (r: Option<Diff>)
    ensures current.None? || previous.None? ==> r.None?
    ensures current.Some? && "施設名" !in current.value.columns ==> r.None?
    ensures previous.Some? && "施設名" !in previous.value.columns ==> r.None?
    ensures current.Some? && "空き状況" !in current.value.columns ==> r.None?
    ensures previous.Some? && "空き状況" !in previous.value.columns ==> r.None?
    ensures r.Some? <==> current.Some? && previous.Some? && HasColumns(current.value) && HasColumns(previous.value)
    ensures r.Some? ==> r.value == Compare(current.value.rows, previous.value.rows)
  {
    if current.Some? && previous.Some? && HasColumns(current.value) && HasColumns(previous.value) then
      Some(Compare(current.value.rows, previous.value.rows))
    else None
  }

  /** The mask distributes over concatenation: rows keep their order and multiplicity. */
  lemma {:induction false} UnmatchedAppend(a: seq<Row>, b: seq<Row>, names: seq<Value>)
    ensures Unmatched(a + b, names) == Unmatched(a, names) + Unmatched(b, names)
  {
    if a == [] {
      assert a + b == b;
    } else {
      var ab, head := a + b, if a[0].name in names then [] else [a[0]];
      assert ab[1..] == a[1..] + b;
      assert ab[0] == a[0];
      assert Unmatched(ab, names) == head + Unmatched(a[1..] + b, names);
      UnmatchedAppend(a[1..], b, names);
      assert Unmatched(ab, names) == head + (Unmatched(a[1..], names) + Unmatched(b, names));
    }
  }

  /** A table none of whose names is listed is kept whole. */
  lemma {:induction false} UnmatchedNoneListed(t: seq<Row>, names: seq<Value>)
    requires forall i :: 0 <= i < |t| ==> t[i].name !in names
    ensures Unmatched(t, names) == t
  {
    if t != [] {
      UnmatchedNoneListed(t[1..], names);
      assert t == [t[0]] + t[1..];
    }
  }

  /**
   * The mask keeps rows in their order and with their multiplicity: it
   * distributes over concatenation, keeps one row iff its name is not listed,
   * and keeps a table none of whose names is listed as it is.
   */
  lemma UnmatchedOrder(a: seq<Row>, b: seq<Row>, names: seq<Value>)
    ensures Unmatched(a + b, names) == Unmatched(a, names) + Unmatched(b, names)
    ensures forall x :: Unmatched([x], names) == if x.name in names then [] else [x]
    ensures (forall i :: 0 <= i < |a| ==> a[i].name !in names) ==> Unmatched(a, names) == a
  {
    UnmatchedAppend(a, b, names);
    forall x ensures Unmatched([x], names) == if x.name in names then [] else [x] {
      assert [x][1..] == [];
    }
    if forall i :: 0 <= i < |a| ==> a[i].name !in names {
      UnmatchedNoneListed(a, names);
    }
  }

  lemma NamesIn(t: seq<Row>, n: Value)
    ensures n in Names(t) <==> exists x :: x in t && x.name == n
  {
    if n in Names(t) {
      var i :| 0 <= i < |t| && Names(t)[i] == n;
      assert t[i] in t;
    }
  }

  /**
   * The three parts of a diff: rows only in the current table, rows only in the
   * previous one, and the same-named pairs whose availability differs.
   */
  lemma CompareParts(current: seq<Row>, previous: seq<Row>)
    ensures var d := Compare(current, previous);
      (forall x :: x in d.added <==> x in current && forall p :: p in previous ==> p.name != x.name)
      && (forall x :: x in d.removed <==> x in previous && forall c :: c in current ==> c.name != x.name)
      && (forall c, p :: (c, p) in d.changed <==> c in current && p in previous && c.name == p.name && Differs(c.status, p.status))
  {
    forall n
      ensures (n in Names(previous) <==> exists x :: x in previous && x.name == n)
      ensures (n in Names(current) <==> exists x :: x in current && x.name == n)
    {
      NamesIn(previous, n);
      NamesIn(current, n);
    }
  }

  /** No added row occurs in a changed pair, and every current row is added or named in the previous table. */
  lemma AddedApart(current: seq<Row>, previous: seq<Row>)
    ensures var d := Compare(current, previous);
      (forall x, pr :: x in d.added && pr in d.changed ==> pr.0.name != x.name)
      && (forall c :: c in current ==> c in d.added || c.name in Names(previous))
  {
    var d := Compare(current, previous);
    forall x, pr | x in d.added && pr in d.changed ensures pr.0.name != x.name {
      assert pr.1 in previous && pr.1.name == pr.0.name;
      NamesIn(previous, x.name);
    }
  }

  predicate UniqueNames(t: seq<Row>) {
    forall i, j :: 0 <= i < |t| && 0 <= j < |t| && t[i].name == t[j].name ==> i == j
  }

  /**
   * A table compared with itself: nothing added or removed; nothing changed
   * when names are unique and no availability is NaN; and a row whose
   * availability is NaN is always changed against itself.
   */
  lemma SelfCompare(t: seq<Row>)
    ensures Compare(t, t).added == [] && Compare(t, t).removed == []
    ensures UniqueNames(t) && (forall x :: x in t ==> x.status.Str?) ==> Compare(t, t).changed == []
    ensures forall x :: x in t && x.status.NaN? ==> (x, x) in Compare(t, t).changed
  {
    forall x | x in t ensures x.name in Names(t) {
      NamesIn(t, x.name);
    }
    UnmatchedNone(t, Names(t));
    if UniqueNames(t) && forall x :: x in t ==> x.status.Str? {
      forall pr | pr in Joined(t, t) ensures !Differs(pr.0.status, pr.1.status) {
        var i :| 0 <= i < |t| && t[i] == pr.0;
        var j :| 0 <= j < |t| && t[j] == pr.1;
      }
      StatusChangedNone(Joined(t, t));
    }
  }

  lemma {:induction false} UnmatchedNone(t: seq<Row>, names: seq<Value>)
    requires forall x :: x in t ==> x.name in names
    ensures Unmatched(t, names) == []
  {
    if t != [] {
      UnmatchedNone(t[1..], names);
    }
  }

  lemma {:induction false} StatusChangedNone(pairs: seq<(Row, Row)>)
    requires forall x :: x in pairs ==> !Differs(x.0.status, x.1.status)
    ensures StatusChanged(pairs) == []
  {
    if pairs != [] {
      StatusChangedNone(pairs[1..]);
    }
  }
}
