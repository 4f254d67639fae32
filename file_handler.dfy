/**
 * The output directory of the scraper: one timestamped sub-directory per run,
 * chosen once and reused, task and merged CSV files written into it, and a
 * cleanup that keeps only the two newest run directories (by name) besides
 * the "differ" directory and any plain files.
 */
module FileHandler {
  import opened Text
  import opened Sorting
  import opened CsvUtils

  /** An entry of the base output directory, as `os.listdir` and `os.path.isdir` see it. */
  datatype Entry = Entry(name: string, isDir: bool)

  /** Directory listings never repeat a name. */
  predicate UniqueNames(entries: seq<Entry>) {
    forall i, j :: 0 <= i < j < |entries| ==> entries[i].name != entries[j].name
  }

  /** An entry the cleanup may delete: a directory other than "differ". */
  predicate Candidate(e: Entry) {
    e.isDir && e.name != "differ"
  }

  /** The names of the candidate directories, in listing order (lines 31-33). */
  function Candidates(entries: seq<Entry>): seq<string> {
    if entries == [] then []
    else (if Candidate(entries[0]) then [entries[0].name] else []) + Candidates(entries[1..])
  }

  /** The set of candidate names. */
  function CandSet(entries: seq<Entry>): set<string> {
    set e | e in entries && Candidate(e) :: e.name
  }

  /** The list of candidates holds exactly the candidate names. */
  lemma {:induction false} CandidatesIn(entries: seq<Entry>, d: string)
    ensures d in Candidates(entries) <==> d in CandSet(entries)
  {
    if entries != [] {
      CandidatesIn(entries[1..], d);
      if d in CandSet(entries[1..]) {
        var e :| e in entries[1..] && Candidate(e) && e.name == d;
        assert e in entries;
      }
      if d in CandSet(entries) {
        var e :| e in entries && Candidate(e) && e.name == d;
        if e != entries[0] {
          assert e in entries[1..];
        }
      }
    }
  }

  /** `dirs.sort()`: Python orders strings by code points. */
  function DirKey(d: string): Key {
    [d]
  }

  /** The directories `dirs[:-2]` after sorting, when there are more than two. */
  function Doomed(entries: seq<Entry>): seq<string> {
    var c := Candidates(entries);
    if |c| > 2 then SortBy(c, DirKey)[..|c| - 2] else []
  }

  /** The listing after deleting the named entries. */
  function Keep(entries: seq<Entry>, deleted: seq<string>): (r: seq<Entry>)
    ensures forall e :: e in r <==> e in entries && e.name !in deleted
  {
    if entries == [] then []
    else (if entries[0].name in deleted then [] else [entries[0]]) + Keep(entries[1..], deleted)
  }

  /** The listing after `_cleanup_old_dirs`. */
  function Cleaned(entries: seq<Entry>): seq<Entry> {
    Keep(entries, Doomed(entries))
  }

  /**
   * `os.makedirs(path, exist_ok=True)` for an entry of the base directory:
   * None when a plain file already holds the name (`FileExistsError`);
   * otherwise the listing now holds the directory, added only when the name
   * is new.
   */
  function MakeDir(entries: seq<Entry>, name: string): (r: Option<seq<Entry>>)
    ensures r.None? <==> Entry(name, false) in entries
    ensures r.Some? ==> Entry(name, true) in r.value
    ensures r.Some? && (exists e :: e in entries && e.name == name) ==> r.value == entries
    ensures (forall e :: e in entries ==> e.name != name) ==> r == Some(entries + [Entry(name, true)])
  {
    if Entry(name, false) in entries then None
    else if Entry(name, true) in entries then Some(entries)
    else Some(entries + [Entry(name, true)])
  }

  /** A successful `makedirs` keeps the names of the listing unique. */
  lemma MakeDirUnique(entries: seq<Entry>, name: string)
    requires UniqueNames(entries) && MakeDir(entries, name).Some?
    ensures UniqueNames(MakeDir(entries, name).value)
  {
    if Entry(name, true) !in entries {
      forall e | e in entries ensures e.name != name {
        assert e != Entry(name, false);
      }
    }
  }

  lemma {:induction false} KeepStep(entries: seq<Entry>, deleted: seq<string>, d: string)
    ensures Keep(Keep(entries, deleted), [d]) == Keep(entries, deleted + [d])
  {
    if entries != [] {
      var e := entries[0];
      KeepStep(entries[1..], deleted, d);
      var rest := Keep(entries[1..], deleted);
      assert e.name in deleted + [d] <==> e.name in deleted || e.name == d;
      if e.name in deleted {
        assert Keep(entries, deleted) == rest;
      } else {
        assert Keep(entries, deleted) == [e] + rest;
        assert ([e] + rest)[0] == e && ([e] + rest)[1..] == rest;
      }
    }
  }

  class OutputStore {
    /** `os.path.join(os.getcwd(), "output")`. */
    const baseOutputDir: string
    /** The output directory of the CSV handler. */
    const csvOutputDir: string
    var currentTimestamp: Option<string>
    var currentDir: Option<string>
    /** What `os.listdir(self.base_output_dir)` would list. */
    var entries: seq<Entry>
    /** Every CSV file the handler wrote, in order. */
    var saved: seq<Saved>

    ghost predicate Valid()
      reads this
    {
      UniqueNames(entries)
      && (currentTimestamp.None? <==> currentDir.None?)
      && (currentTimestamp.Some? ==> currentDir.value == PathJoin(baseOutputDir, currentTimestamp.value))
    }

    /** `FileHandler()`: `listing` is what the base output directory already holds. */
    constructor(cwd: string, csvDir: string, listing: seq<Entry>)
      requires UniqueNames(listing)
      ensures Valid()
      ensures baseOutputDir == PathJoin(cwd, "output") && csvOutputDir == csvDir
      ensures currentTimestamp.None? && entries == listing && saved == []
    {
      baseOutputDir := PathJoin(cwd, "output");
      csvOutputDir := csvDir;
      currentTimestamp := None;
      currentDir := None;
      entries := listing;
      saved := [];
    }

    /**
     * `_get_timestamp_dir`: the first call fixes the timestamp and the
     * directory from the clock reading `now`, then creates the directory; a
     * plain file of that name makes `makedirs` raise, after the timestamp was
     * already fixed. Later calls return the fixed directory and change nothing.
     */
    method TimestampDir(now: string) returns (dir: Option<string>)
      requires Valid()
      modifies this`currentTimestamp, this`currentDir, this`entries
      ensures Valid()
      ensures old(currentTimestamp).Some? ==>
        currentTimestamp == old(currentTimestamp) && currentDir == old(currentDir) && entries == old(entries)
        && dir == currentDir
      ensures old(currentTimestamp).None? ==> currentTimestamp == Some(now)
      ensures old(currentTimestamp).None? && MakeDir(old(entries), now).Some? ==>
        entries == MakeDir(old(entries), now).value && dir == currentDir
      ensures old(currentTimestamp).None? && MakeDir(old(entries), now).None? ==>
        entries == old(entries) && dir.None?
    {
      if currentTimestamp.None? {
        currentTimestamp := Some(now);
        currentDir := Some(PathJoin(baseOutputDir, now));
        var made := MakeDir(entries, now);
        if made.None? {
          return None;
        }
        MakeDirUnique(entries, now);
        entries := made.value;
      }
      dir := currentDir;
    }

    /** `_cleanup_old_dirs`: sorts the candidates and deletes all but the last two. */
    method CleanupOldDirs()
      requires Valid()
      modifies this`entries
      ensures Valid()
      ensures entries == Cleaned(old(entries))
    {
      var dirs := Candidates(entries);
      ghost var listing := entries;
      if |dirs| > 2 {
        var sorted := SortBy(dirs, DirKey);
        DeleteDirs(sorted[..|dirs| - 2]);
      } else {
        KeepNothing(entries);
      }
      KeepUnique(listing, Doomed(listing));
    }

    /** The `shutil.rmtree` loop of `_cleanup_old_dirs`: each named directory is deleted in turn. */
    method DeleteDirs(doomed: seq<string>)
      modifies this`entries
      ensures entries == Keep(old(entries), doomed)
    {
      entries := DeleteEach(entries, doomed);
    }

    /**
     * `save_task_results`: the task file is `<current_dir>/<task_name>.csv`;
     * when the directory cannot be made the call raises before writing.
     */
    method SaveTaskResults(results: Table, taskName: string, now: string, writeOk: bool) returns (outputFile: Option<string>)
      requires Valid()
      modifies this`currentTimestamp, this`currentDir, this`entries, this`saved
      ensures Valid()
      ensures old(currentTimestamp).Some? ==> currentTimestamp == old(currentTimestamp) && entries == old(entries)
      ensures old(currentTimestamp).None? ==> currentTimestamp == Some(now)
      ensures old(currentTimestamp).None? && MakeDir(old(entries), now).Some? ==> entries == MakeDir(old(entries), now).value
      ensures outputFile.None? <==> old(currentTimestamp).None? && MakeDir(old(entries), now).None?
      ensures outputFile.None? ==> entries == old(entries) && saved == old(saved)
      ensures outputFile.Some? ==> outputFile.value == PathJoin(currentDir.value, taskName + ".csv")
      ensures outputFile.Some? ==>
        var w := SaveResults(csvOutputDir, results, outputFile, now, writeOk);
        saved == old(saved) + (if w.Some? then [w.value] else [])
    {
      var dir := TimestampDir(now);
      if dir.None? {
        return None;
      }
      outputFile := Some(PathJoin(dir.value, taskName + ".csv"));
      var w := SaveResults(csvOutputDir, results, outputFile, now, writeOk);
      if w.Some? {
        saved := saved + [w.value];
      }
    }

    /**
     * `save_merged_results`: the merged file is written, then the old
     * directories are cleaned up; when the directory cannot be made the call
     * raises before either.
     */
    method SaveMergedResults(allResults: seq<Table>, now: string, writeOk: bool) returns (mergedFile: Option<string>)
      requires Valid()
      modifies this`currentTimestamp, this`currentDir, this`entries, this`saved
      ensures Valid()
      ensures old(currentTimestamp).Some? ==> currentTimestamp == old(currentTimestamp) && entries == Cleaned(old(entries))
      ensures old(currentTimestamp).None? ==> currentTimestamp == Some(now)
      ensures old(currentTimestamp).None? && MakeDir(old(entries), now).Some? ==>
        entries == Cleaned(MakeDir(old(entries), now).value)
      ensures mergedFile.None? <==> old(currentTimestamp).None? && MakeDir(old(entries), now).None?
      ensures mergedFile.None? ==> entries == old(entries) && saved == old(saved)
      ensures mergedFile.Some? ==> mergedFile.value == PathJoin(currentDir.value, "all_results.csv")
      ensures mergedFile.Some? ==>
        var w := MergeResults(csvOutputDir, allResults, mergedFile, now, writeOk);
        saved == old(saved) + (if w.Some? then [w.value] else [])
    {
      var dir := TimestampDir(now);
      if dir.None? {
        return None;
      }
      mergedFile := Some(PathJoin(dir.value, "all_results.csv"));
      var w := MergeResults(csvOutputDir, allResults, mergedFile, now, writeOk);
      if w.Some? {
        saved := saved + [w.value];
      }
      CleanupOldDirs();
    }
  }

  /** The listing after removing each named directory in turn. */
  method DeleteEach(listing: seq<Entry>, doomed: seq<string>) returns (kept: seq<Entry>)
    ensures kept == Keep(listing, doomed)
  {
    kept := listing;
    KeepPrefixStart(listing, doomed);
    for i := 0 to |doomed|
      invariant kept == Keep(listing, doomed[..i])
    {
      kept := DeleteOne(listing, doomed, i, kept);
    }
    KeepPrefixAll(listing, doomed);
  }

  /** One `shutil.rmtree`: the next named directory leaves the listing. */
  method DeleteOne(listing: seq<Entry>, doomed: seq<string>, i: nat, kept: seq<Entry>) returns (next: seq<Entry>)
    requires i < |doomed| && kept == Keep(listing, doomed[..i])
    ensures next == Keep(listing, doomed[..i + 1])
  {
    KeepPrefixStep(listing, doomed, i);
    next := Keep(kept, [doomed[i]]);
  }

  lemma KeepPrefixAll(entries: seq<Entry>, doomed: seq<string>)
    ensures Keep(entries, doomed[..|doomed|]) == Keep(entries, doomed)
  {
    assert doomed[..|doomed|] == doomed;
  }

  lemma KeepPrefixStart(entries: seq<Entry>, sorted: seq<string>)
    ensures Keep(entries, sorted[..0]) == entries
  {
    assert sorted[..0] == [];
    KeepNothing(entries);
  }

  /** One more deletion of the loop in `_cleanup_old_dirs`. */
  lemma KeepPrefixStep(entries: seq<Entry>, sorted: seq<string>, i: nat)
    requires i < |sorted|
    ensures Keep(Keep(entries, sorted[..i]), [sorted[i]]) == Keep(entries, sorted[..i + 1])
  {
    KeepStep(entries, sorted[..i], sorted[i]);
    assert sorted[..i + 1] == sorted[..i] + [sorted[i]];
  }

  lemma {:induction false} KeepNothing(entries: seq<Entry>)
    ensures Keep(entries, []) == entries
  {
    if entries != [] {
      KeepNothing(entries[1..]);
      assert entries == [entries[0]] + entries[1..];
    }
  }

  lemma {:induction false} KeepUnique(entries: seq<Entry>, deleted: seq<string>)
    requires UniqueNames(entries)
    ensures UniqueNames(Keep(entries, deleted))
  {
    if entries != [] {
      KeepUnique(entries[1..], deleted);
      var rest := Keep(entries[1..], deleted);
      if entries[0].name !in deleted {
        forall j | 0 < j < |rest| + 1 ensures ([entries[0]] + rest)[j].name != entries[0].name {
          assert ([entries[0]] + rest)[j] == rest[j - 1] && rest[j - 1] in rest;
          var k :| 0 <= k < |entries[1..]| && entries[1..][k] == rest[j - 1];
          assert entries[k + 1] == rest[j - 1];
        }
      }
    }
  }

  /** With at most two candidate directories, cleanup deletes nothing. */
  lemma FewDirsKept(entries: seq<Entry>)
    requires |Candidates(entries)| <= 2
    ensures Cleaned(entries) == entries
  {
    KeepNothing(entries);
  }

  /** Every doomed directory is a candidate. */
  lemma DoomedCandidate(entries: seq<Entry>, d: string)
    requires d in Doomed(entries)
    ensures d in CandSet(entries)
  {
    var s := SortBy(Candidates(entries), DirKey);
    PrefixIn(s, |Candidates(entries)| - 2, d);
    CandSetSorted(entries, d);
  }

  /** Plain files and the "differ" directory survive cleanup. */
  lemma NonCandidatesKept(entries: seq<Entry>, e: Entry)
    requires UniqueNames(entries) && e in entries && !Candidate(e)
    ensures e in Cleaned(entries)
  {
    forall f | f in entries && Candidate(f) ensures f.name != e.name {
      var a :| 0 <= a < |entries| && entries[a] == e;
      var b :| 0 <= b < |entries| && entries[b] == f;
    }
    if e.name in Doomed(entries) {
      DoomedCandidate(entries, e.name);
    }
  }

  lemma {:induction false} CandidatesDistinct(entries: seq<Entry>)
    requires UniqueNames(entries)
    ensures forall i, j :: 0 <= i < j < |Candidates(entries)| ==> Candidates(entries)[i] != Candidates(entries)[j]
  {
    if entries != [] {
      var rest := entries[1..];
      assert UniqueNames(rest);
      CandidatesDistinct(rest);
      if Candidate(entries[0]) {
        var c := Candidates(rest);
        forall j | 0 <= j < |c| ensures c[j] != entries[0].name {
          CandidatesIn(rest, c[j]);
          var f :| f in rest && Candidate(f) && f.name == c[j];
          var k :| 0 <= k < |rest| && rest[k] == f;
          assert entries[k + 1] == f;
        }
        assert forall j :: 0 < j < |c| + 1 ==> ([entries[0].name] + c)[j] == c[j - 1];
      }
    }
  }

  /** The sorted candidates are strictly increasing. */
  lemma SortedDirsIncreasing(entries: seq<Entry>)
    requires UniqueNames(entries)
    ensures var s := SortBy(Candidates(entries), DirKey);
      forall i, j :: 0 <= i < j < |s| ==> StrLt(s[i], s[j])
  {
    var c := Candidates(entries);
    var s := SortBy(c, DirKey);
    CandidatesDistinct(entries);
    PermutationDistinct(s, c);
    forall i, j | 0 <= i < j < |s| ensures StrLt(s[i], s[j]) {
      assert !KeyLt(DirKey(s[j]), DirKey(s[i]));
      StrLtTotal(s[i], s[j]);
    }
  }

  lemma CandSetKeep(entries: seq<Entry>, deleted: seq<string>, d: string)
    ensures d in CandSet(Keep(entries, deleted)) <==> d in CandSet(entries) && d !in deleted
  {
    if d in CandSet(entries) && d !in deleted {
      var e :| e in entries && Candidate(e) && e.name == d;
      assert e in Keep(entries, deleted);
    }
  }

  /** The candidate names are the elements of the sorted candidates. */
  lemma CandSetSorted(entries: seq<Entry>, d: string)
    ensures d in CandSet(entries) <==> d in SortBy(Candidates(entries), DirKey)
  {
    var c := Candidates(entries);
    assert d in multiset(SortBy(c, DirKey)) <==> d in multiset(c);
    CandidatesIn(entries, d);
  }

  /** In a strictly increasing sequence, the last two are the elements outside `s[..|s| - 2]`, and above all others. */
  lemma IncreasingLastTwo(s: seq<string>, d: string)
    requires |s| >= 2
    requires forall i, j :: 0 <= i < j < |s| ==> StrLt(s[i], s[j])
    ensures (d in s && d !in s[..|s| - 2]) <==> (d == s[|s| - 2] || d == s[|s| - 1])
    ensures d in s && d != s[|s| - 2] && d != s[|s| - 1] ==> StrLt(d, s[|s| - 2])
  {
    var n := |s|;
    if d in s {
      var i :| 0 <= i < n && s[i] == d;
      if i < n - 2 {
        assert s[..n - 2][i] == d;
      }
    }
    if d in s[..n - 2] {
      var i :| 0 <= i < n - 2 && s[..n - 2][i] == d;
      assert s[i] == d;
      StrLtIrreflexive(s[n - 2]);
      StrLtIrreflexive(s[n - 1]);
    }
  }

  /** With more than two candidates, the candidates left are the last two sorted. */
  lemma RemainingLastTwo(entries: seq<Entry>)
    requires UniqueNames(entries) && |Candidates(entries)| > 2
    ensures var s := SortBy(Candidates(entries), DirKey);
      CandSet(Cleaned(entries)) == {s[|s| - 2], s[|s| - 1]}
  {
    var s := SortBy(Candidates(entries), DirKey);
    var n := |s|;
    SortedDirsIncreasing(entries);
    forall d ensures d in CandSet(Cleaned(entries)) <==> d == s[n - 2] || d == s[n - 1] {
      CandSetKeep(entries, s[..n - 2], d);
      CandSetSorted(entries, d);
      IncreasingLastTwo(s, d);
    }
  }

  /**
   * With more than two candidate directories, exactly the two greatest names
   * remain: two names `a < b` survive, and every other candidate, deleted, is
   * below both.
   */
  lemma TwoGreatestKept(entries: seq<Entry>)
    requires UniqueNames(entries) && |Candidates(entries)| > 2
    ensures exists a, b ::
      (StrLt(a, b) && CandSet(Cleaned(entries)) == {a, b}
       && forall d :: d in CandSet(entries) && d != a && d != b ==> StrLt(d, a))
  {
    var s := SortBy(Candidates(entries), DirKey);
    var n := |s|;
    SortedDirsIncreasing(entries);
    RemainingLastTwo(entries);
    var a, b := s[n - 2], s[n - 1];
    forall d | d in CandSet(entries) && d != a && d != b ensures StrLt(d, a) {
      CandSetSorted(entries, d);
      IncreasingLastTwo(s, d);
    }
    assert StrLt(a, b);
  }

  /** When every other candidate is older, the current run's directory survives cleanup. */
  lemma NewestDirKept(entries: seq<Entry>, now: string)
    requires UniqueNames(entries) && Entry(now, true) in entries && now != "differ"
    requires forall d :: d in CandSet(entries) && d != now ==> StrLt(d, now)
    ensures Entry(now, true) in Cleaned(entries)
  {
    if |Candidates(entries)| > 2 {
      TwoGreatestKept(entries);
      var a, b :| StrLt(a, b) && CandSet(Cleaned(entries)) == {a, b}
        && forall d :: d in CandSet(entries) && d != a && d != b ==> StrLt(d, a);
      CandSetKeep(entries, Doomed(entries), now);
      assert now in CandSet(entries);
      if now != a && now != b {
        assert b in CandSet(entries) by {
          CandSetKeep(entries, Doomed(entries), b);
        }
        StrLtAsymmetric(b, now);
        StrLtTransitive(now, a, b);
        assert false;
      }
      assert now !in Doomed(entries);
    } else {
      FewDirsKept(entries);
    }
  }
}
