/**
 * The index of trial files the CSV-replay simulator builds in
 * `find_data_files_name`: every `.csv` file under the base data directory
 * except `result_summary.csv`, keyed by the number that starts its second
 * line (the first time stamp of the trial), the keys sorted ascending.
 */
module TrialIndex {
  import opened Text
  import opened Frames

  /**
   * A file `glob` finds under the base data directory: its path relative
   * to that directory and the value of the first field of its second line.
   */
  datatype CsvFile = CsvFile(path: string, firstTime: real)

  /** The files the loop takes: names ending in `.csv` but not in `result_summary.csv`. */
  predicate Eligible(f: CsvFile)
  {
    EndsWith(f.path, ".csv") && !EndsWith(f.path, "result_summary.csv")
  }

  /** `data_files_name_order` and `data_files_name` as the loop leaves them, before the sort. */
  datatype Catalog = Catalog(order: seq<real>, names: map<real, string>)

  /** The first times of `files`, in order. */
  function Times(files: seq<CsvFile>): (r: seq<real>)
    ensures |r| == |files| && forall i :: 0 <= i < |files| ==> r[i] == files[i].firstTime
  {
    seq(|files|, i requires 0 <= i < |files| => files[i].firstTime)
  }

  /** The loop over the files `glob` returns, in that order. */
  function Scan(files: seq<CsvFile>): (c: Catalog)
    ensures forall t :: t in c.order <==> t in c.names
    decreases |files|
  {
    if files == [] then Catalog([], map[])
    else
      var prev, f := Scan(files[..|files| - 1]), files[|files| - 1];
      if Eligible(f) then Catalog(prev.order + [f.firstTime], prev.names[f.firstTime := BaseName(f.path)])
      else prev
  }

  /** The keys appended to the order list are the first times of the eligible files, in `glob` order. */
  lemma {:induction false} ScanOrder(files: seq<CsvFile>)
    ensures Scan(files).order == Times(Filter(files, Eligible))
    decreases |files|
  {
    if files != [] {
      var init, f := files[..|files| - 1], files[|files| - 1];
      ScanOrder(init);
      var e := Filter(init, Eligible);
      assert Filter(files, Eligible) == e + (if Eligible(f) then [f] else []);
      if Eligible(f) {
        assert Times(e + [f]) == Times(e) + [f.firstTime];
      }
    }
  }

  /**
   * Of several eligible files with the same first time, the one `glob`
   * lists last gives the name stored under that time.
   */
  lemma {:induction false} ScanLastWins(files: seq<CsvFile>, i: nat)
    requires i < |files| && Eligible(files[i])
    requires forall j :: i < j < |files| && Eligible(files[j]) ==> files[j].firstTime != files[i].firstTime
    ensures files[i].firstTime in Scan(files).names
    ensures Scan(files).names[files[i].firstTime] == BaseName(files[i].path)
    decreases |files|
  {
    var init, f := files[..|files| - 1], files[|files| - 1];
    if i < |files| - 1 {
      assert init[i] == files[i];
      forall j | i < j < |init| && Eligible(init[j]) ensures init[j].firstTime != init[i].firstTime {
        assert init[j] == files[j];
      }
      ScanLastWins(init, i);
    }
  }

  /**
   * Every stored name is the last component of an eligible path with that
   * first time, ends in `.csv` and does not end in `result_summary.csv`.
   */
  lemma ScanNames(files: seq<CsvFile>, t: real)
    requires t in Scan(files).names
    ensures exists i ::
      0 <= i < |files| && Eligible(files[i]) && files[i].firstTime == t
      && Scan(files).names[t] == BaseName(files[i].path)
    ensures EndsWith(Scan(files).names[t], ".csv")
    ensures !EndsWith(Scan(files).names[t], "result_summary.csv")
  {
    var i := ScanNameSource(files, t);
    CsvBaseName(files[i].path);
  }

  /** The position of the file whose name is stored under `t`. */
  lemma {:induction false} ScanNameSource(files: seq<CsvFile>, t: real) returns (i: nat)
    requires t in Scan(files).names
    ensures i < |files| && Eligible(files[i]) && files[i].firstTime == t
    ensures Scan(files).names[t] == BaseName(files[i].path)
    decreases |files|
  {
    var init, f := files[..|files| - 1], files[|files| - 1];
    if Eligible(f) && f.firstTime == t {
      i := |files| - 1;
    } else {
      i := ScanNameSource(init, t);
      assert files[i] == init[i];
    }
  }

  /** The last component of an eligible path is itself an eligible name. */
  lemma CsvBaseName(p: string)
    requires EndsWith(p, ".csv") && !EndsWith(p, "result_summary.csv")
    ensures EndsWith(BaseName(p), ".csv") && !EndsWith(BaseName(p), "result_summary.csv")
  {
    var b := BaseName(p);
    BaseNameSuffix(p, ".csv");
    if EndsWith(b, "result_summary.csv") {
      SuffixOfSuffix(p, b, "result_summary.csv");
    }
  }

  /** Two eligible files with the same first time leave that time twice in the order list. */
  lemma DuplicateTimes(files: seq<CsvFile>, i: nat, j: nat)
    requires i < j < |files| && Eligible(files[i]) && Eligible(files[j])
    requires files[i].firstTime == files[j].firstTime
    ensures multiset(Scan(files).order)[files[i].firstTime] >= 2
  {
    var t := files[i].firstTime;
    var p := (f: CsvFile) => Eligible(f) && f.firstTime == t;
    FilterCountAtLeastTwo(files, p, i, j);
    ScanOrder(files);
    var e := Filter(files, Eligible);
    FilterFilter(files, Eligible, (f: CsvFile) => f.firstTime == t, p);
    TimesCount(e, t);
  }

  /** A filter that accepts two positions keeps at least two elements. */
  lemma {:induction false} FilterCountAtLeastTwo<T(!new)>(s: seq<T>, p: T -> bool, i: nat, j: nat)
    requires i < j < |s| && p(s[i]) && p(s[j])
    ensures |Filter(s, p)| >= 2
    decreases |s|
  {
    var init := s[..|s| - 1];
    if j < |s| - 1 {
      assert init[i] == s[i] && init[j] == s[j];
      FilterCountAtLeastTwo(init, p, i, j);
    } else {
      assert init[i] == s[i] && init[i] in init;
      assert |Filter(init, p)| >= 1 by {
        assert init[i] in Filter(init, p);
      }
    }
  }

  /** How often a time occurs among the first times is how many files carry it. */
  lemma {:induction false} TimesCount(files: seq<CsvFile>, t: real)
    ensures multiset(Times(files))[t] == |Filter(files, (f: CsvFile) => f.firstTime == t)|
    decreases |files|
  {
    if files != [] {
      var init, f := files[..|files| - 1], files[|files| - 1];
      TimesCount(init, t);
      assert Times(files) == Times(init) + [f.firstTime];
    }
  }

  // ---------------------------------------------------------------------
  // Sorting the order list (list.sort)
  // ---------------------------------------------------------------------

  predicate Sorted(s: seq<real>)
  {
    forall i, j :: 0 <= i < j < |s| ==> s[i] <= s[j]
  }

  /** A value no larger than any element of `s` is no larger than any element of a permutation of `s`. */
  lemma LowerBound(h: real, s: seq<real>, r: seq<real>)
    requires forall k :: 0 <= k < |s| ==> h <= s[k]
    requires multiset(r) == multiset(s)
    ensures forall k :: 0 <= k < |r| ==> h <= r[k]
  {
    forall k | 0 <= k < |r| ensures h <= r[k] {
      assert r[k] in multiset(r);
      assert r[k] in s;
    }
  }

  /** A sorted list stays sorted under a new head no larger than its elements. */
  lemma SortedCons(h: real, s: seq<real>)
    requires Sorted(s) && forall k :: 0 <= k < |s| ==> h <= s[k]
    ensures Sorted([h] + s)
  {
  }

  /** `x` placed into the sorted list `s` before the first larger element. */
  function Insert(s: seq<real>, x: real): (r: seq<real>)
    requires Sorted(s)
    ensures Sorted(r) && multiset(r) == multiset(s) + multiset{x}
    decreases |s|
  {
    if s == [] || x <= s[0] then
      SortedCons(x, s);
      [x] + s
    else
      var tail := s[1..];
      var rest := Insert(tail, x);
      assert s == [s[0]] + tail;
      assert multiset(rest) == multiset(tail + [x]);
      LowerBound(s[0], tail + [x], rest);
      SortedCons(s[0], rest);
      [s[0]] + rest
  }

  /**
   * The loop of `find_data_files_name` followed by `sort()`: the keys of
   * the eligible files sorted ascending (a key repeated once per file that
   * has it), and the name stored under each key.
   */
  method FindDataFilesName(files: seq<CsvFile>) returns (order: seq<real>, names: map<real, string>)
    ensures Sorted(order)
    ensures multiset(order) == multiset(Times(Filter(files, Eligible)))
    ensures names == Scan(files).names
  {
    var unsorted: seq<real> := [];
    names := map[];
    for i := 0 to |files|
      invariant Catalog(unsorted, names) == Scan(files[..i])
    {
      var f := files[i];
      assert files[..i + 1][..i] == files[..i];
      if EndsWith(f.path, ".csv") && !EndsWith(f.path, "result_summary.csv") {
        unsorted := unsorted + [f.firstTime];
        names := names[f.firstTime := BaseName(f.path)];
      }
    }
    assert files[..|files|] == files;
    ScanOrder(files);
    order := [];
    for i := 0 to |unsorted|
      invariant Sorted(order) && multiset(order) == multiset(unsorted[..i])
    {
      assert unsorted[..i + 1] == unsorted[..i] + [unsorted[i]];
      order := Insert(order, unsorted[i]);
    }
    assert unsorted[..|unsorted|] == unsorted;
  }
}
