/**
 * The CSV-replay DAS simulator (`device_das_sim_csv.Device`). It indexes
 * the trial files of a base data folder, and on each capture loads the
 * next trial, keeps its `AC`/`TIME` columns, optionally perturbs the `AC`
 * columns by random factors, and splits the rows into the `TR1`, `TR2`
 * and `INIT` queues that `data_read` pops from.
 */
module DeviceDasSimCsv {
  import opened Text
  import opened Errors
  import opened Frames
  import opened CsvSegments
  import opened TrialIndex

  /** `s.split(sep)[0]`: the part of `s` before the first occurrence of `sep`. */
  function SplitHead(s: string, sep: string): (r: string)
    requires |sep| > 0
    ensures r <= s
    ensures r == s || sep <= s[|r|..]
    ensures forall i :: 0 <= i < |r| ==> !(sep <= s[i..])
    decreases |s|
  {
    if s == [] || sep <= s then []
    else
      var rest := SplitHead(s[1..], sep);
      assert rest == s[1..] || sep <= s[1..][|rest|..];
      assert forall i :: 1 <= i <= |s| ==> s[i..] == s[1..][i - 1..];
      [s[0]] + rest
  }

  /**
   * `Base_data_directory`: the results directory cut after its first
   * `Results` component, joined with the base data folder name.
   */
  function BaseDataDirectory(resultsDir: string, folder: string): (r: string)
    ensures EndsWith(r, folder)
    ensures (folder == [] || folder[0] != '/') ==> SplitHead(resultsDir, "Results\\") + "Results" <= r
  {
    PathJoin(SplitHead(resultsDir, "Results\\") + "Results", folder)
  }

  predicate HasAC(c: string)
  {
    Contains(c, "AC")
  }

  /** The stripped names of the columns of `cols` that contain `AC`, in order. */
  function AcPoints(cols: seq<string>): seq<string>
    decreases |cols|
  {
    if cols == [] then []
    else
      var init, last := cols[..|cols| - 1], cols[|cols| - 1];
      AcPoints(init) + if HasAC(last) then [Strip(last)] else []
  }

  /**
   * The points are exactly the stripped `AC` columns: each point comes
   * from one, and each one gives a point.
   */
  lemma {:induction false} AcPointsSpec(cols: seq<string>)
    ensures forall i :: 0 <= i < |AcPoints(cols)| ==>
      exists c :: c in cols && HasAC(c) && AcPoints(cols)[i] == Strip(c)
    ensures forall c :: c in cols && HasAC(c) ==> Strip(c) in AcPoints(cols)
    decreases |cols|
  {
    if cols != [] {
      var init, last := cols[..|cols| - 1], cols[|cols| - 1];
      assert cols == init + [last];
      AcPointsSpec(init);
      var r := AcPoints(cols);
      assert r == AcPoints(init) + if HasAC(last) then [Strip(last)] else [];
      forall i | 0 <= i < |AcPoints(cols)|
        ensures exists c :: c in cols && HasAC(c) && AcPoints(cols)[i] == Strip(c)
      {
        if i < |AcPoints(init)| {
          assert r[i] == AcPoints(init)[i];
          var c :| c in init && HasAC(c) && AcPoints(init)[i] == Strip(c);
          assert c in cols && r[i] == Strip(c);
        } else {
          assert last in cols && r[i] == Strip(last);
        }
      }
      forall c | c in cols && HasAC(c) ensures Strip(c) in r {
        if c in init {
          assert Strip(c) in AcPoints(init);
        } else {
          assert c == last;
        }
      }
    } else {
      assert AcPoints(cols) == [];
    }
  }

  /**
   * `data_points`: `TIME`, then the stripped name of every column of the
   * first trial whose name contains `AC`, in column order.
   */
  function DataPoints(t: Table): (r: seq<string>)
    ensures |r| >= 1 && r[0] == "TIME"
  {
    ["TIME"] + AcPoints(AllColumns(t))
  }

  /** The `data_points` loop over the columns of the first trial. */
  method CollectDataPoints(t: Table) returns (points: seq<string>)
    ensures points == DataPoints(t)
  {
    var cols := AllColumns(t);
    points := ["TIME"];
    for i := 0 to |cols|
      invariant points == ["TIME"] + AcPoints(cols[..i])
    {
      assert cols[..i + 1][..i] == cols[..i];
      if Contains(cols[i], "AC") {
        points := points + [Strip(cols[i])];
      }
    }
    assert cols[..|cols|] == cols;
  }

  /** The loop's test for column `c` once the columns in `done` have been visited. */
  function Pending(t: Table, done: seq<string>): string -> bool
  {
    x => KeepColumn(x) || x == t.eventColumn || x !in done
  }

  /** A projection that keeps every numeric column of a well-formed table is the table itself. */
  lemma ProjectAll(t: Table, keep: string -> bool)
    requires WellFormed(t) && forall c :: c in t.columns ==> keep(c)
    ensures Project(t, keep) == t
  {
    FilterAll(t.columns, keep);
    var r := Project(t, keep);
    forall k | 0 <= k < |t.rows| ensures r.rows[k] == t.rows[k] {
      assert t.rows[k].cells.Keys == ColumnSet(t.columns);
      assert r.rows[k].cells == t.rows[k].cells;
    }
  }

  /** Before the multiplication loop: no column multiplied yet, and the factor columns are distinct. */
  lemma ApplyStart(t: Table, f: FactorTable)
    requires WellFormed(t) && FactorsFor(f, t)
    ensures Fits(f, t) && Distinct(f.columns)
    ensures Scale(t, f, ColumnSet(f.columns[..0])) == t
  {
    FilterDistinct(AllColumns(t), FactorTest(t));
    assert ColumnSet(f.columns[..0]) == {};
    ScaleNone(t, f);
  }

  /** One pass of the multiplication loop over a column that is not the event column of a non-empty table. */
  lemma ApplyStep(t: Table, f: FactorTable, i: nat)
    requires WellFormed(t) && FactorsFor(f, t) && i < |f.columns|
    requires |t.rows| > 0 ==> t.eventColumn !in f.columns[..i + 1]
    ensures Fits(f, Scale(t, f, ColumnSet(f.columns[..i])))
    ensures Scale(Scale(t, f, ColumnSet(f.columns[..i])), f, {f.columns[i]}) == Scale(t, f, ColumnSet(f.columns[..i + 1]))
    ensures |t.rows| > 0 ==> t.eventColumn !in f.columns[..i + 1]
  {
    var cols, c := f.columns, f.columns[i];
    FilterDistinct(AllColumns(t), FactorTest(t));
    assert cols[..i + 1] == cols[..i] + [c];
    assert ColumnSet(cols[..i + 1]) == ColumnSet(cols[..i]) + {c};
    assert c !in ColumnSet(cols[..i]) by {
      forall j | 0 <= j < i ensures cols[..i][j] != c {
        assert cols[..i][j] == cols[j];
      }
    }
    ScaleStep(t, f, ColumnSet(cols[..i]), c);
  }

  /** The event column can only be the last factor column. */
  lemma EventColumnLast(t: Table, f: FactorTable, i: nat)
    requires WellFormed(t) && FactorsFor(f, t) && i < |f.columns|
    requires f.columns[i] == t.eventColumn
    ensures i == |f.columns| - 1
  {
    FactorColumnsShape(t);
    var prefix := Filter(t.columns, FactorTest(t));
    assert forall j :: 0 <= j < |prefix| ==> f.columns[j] == prefix[j] && prefix[j] in prefix;
  }

  /** Reaching the event column of a non-empty table: every other factor column is multiplied. */
  lemma ApplyFails(t: Table, f: FactorTable, i: nat)
    requires WellFormed(t) && FactorsFor(f, t) && i < |f.columns|
    requires f.columns[i] == t.eventColumn && |t.rows| > 0
    ensures Scale(t, f, ColumnSet(f.columns[..i])) == Perturbed(t, f) && PerturbFails(t, f)
  {
    var cols, c := f.columns, f.columns[i];
    EventColumnLast(t, f, i);
    NumericColumns(t);
    assert cols == cols[..i] + [c];
    assert f.factors.Keys == ColumnSet(cols[..i]) + {c};
    ScaleIgnores(t, f, ColumnSet(cols[..i]), c);
  }

  /** After the loop has visited every factor column. */
  lemma ApplyDone(t: Table, f: FactorTable)
    requires WellFormed(t) && FactorsFor(f, t)
    requires |t.rows| > 0 ==> t.eventColumn !in f.columns
    ensures Scale(t, f, ColumnSet(f.columns[..|f.columns|])) == Perturbed(t, f) && !PerturbFails(t, f)
  {
    assert f.columns[..|f.columns|] == f.columns;
  }

  /**
   * The inner loop of `generate_rand_factors_df` for column `c` of a table
   * with `n` rows: a factor in [0.9, 1.1] per row when the name contains
   * `AC` but not `INC`; otherwise the column is marked for removal as soon
   * as there is a row.
   */
  method ColumnFactors(c: string, n: nat) returns (dt: seq<real>, removeColumn: bool)
    ensures removeColumn <==> n > 0 && !IsPerturbed(c)
    ensures !removeColumn ==> |dt| == n
    ensures forall k :: 0 <= k < |dt| ==> InRange(dt[k])
  {
    dt := [];
    removeColumn := false;
    for j := 0 to n
      invariant removeColumn <==> j > 0 && !IsPerturbed(c)
      invariant IsPerturbed(c) ==> |dt| == j
      invariant !IsPerturbed(c) ==> dt == []
      invariant forall k :: 0 <= k < |dt| ==> InRange(dt[k])
    {
      if Contains(c, "AC") && !Contains(c, "INC") {
        var delta: real :| -0.1 <= delta <= 0.1;
        dt := dt + [1.0 + delta];
      } else {
        removeColumn := true;
      }
    }
  }

  /** The loop of `generate_rand_factors_df` over the columns of `t`. */
  method RandFactors(t: Table) returns (f: FactorTable)
    ensures FactorsFor(f, t)
  {
    var cols := AllColumns(t);
    var n := |t.rows|;
    f := FactorTable([], map[]);
    for i := 0 to |cols|
      invariant f.columns == Filter(cols[..i], FactorTest(t))
      invariant f.factors.Keys == ColumnSet(f.columns) && Fits(f, t) && FactorsInRange(f)
    {
      var c := cols[i];
      var dt, removeColumn := ColumnFactors(c, n);
      assert cols[..i + 1][..i] == cols[..i];
      assert Filter(cols[..i + 1], FactorTest(t)) == f.columns + (if FactorTest(t)(c) then [c] else []);
      if !removeColumn {
        FactorsExtend(f, t, c, dt);
        f := FactorTable(f.columns + [c], f.factors[c := dt]);
      }
    }
    assert cols[..|cols|] == cols;
  }

  /** A column added with one in-range factor per row keeps a factor table well-formed. */
  lemma FactorsExtend(f: FactorTable, t: Table, c: string, dt: seq<real>)
    requires f.factors.Keys == ColumnSet(f.columns) && Fits(f, t) && FactorsInRange(f)
    requires |dt| == |t.rows| && forall k :: 0 <= k < |dt| ==> InRange(dt[k])
    ensures var g := FactorTable(f.columns + [c], f.factors[c := dt]);
      g.factors.Keys == ColumnSet(g.columns) && Fits(g, t) && FactorsInRange(g)
  {
    assert ColumnSet(f.columns + [c]) == ColumnSet(f.columns) + {c};
  }

  /**
   * What the loading part of `new_csv_dfs` leaves from the trial `raw`:
   * a fresh factor table for its filtered columns when perturbation is
   * enabled (the old one otherwise), and the prepared table and outcome.
   */
  predicate Loaded(enabled: bool, raw: Table, rand0: Slot<FactorTable>, rand: Slot<FactorTable>,
                   df: Table, outcome: Outcome)
    requires WellFormed(raw)
  {
    && (enabled ==> rand.Value? && FactorsFor(rand.value, FilterColumns(raw)))
    && (!enabled ==> rand == rand0)
    && PreparedAs(raw, if enabled then Some(rand.value) else None, Prepared(df, outcome))
  }

  /** The table `read_csv` returns for the trial file at `path`. */
  function TrialAt(disk: map<string, Table>, path: string): (t: Table)
    requires path in disk
    ensures t == disk[path]
  {
    disk[path]
  }

  /**
   * Every trial file on disk reads as a well-formed table; the fact is
   * used only where a trial is read, through `TrialAt`.
   */
  predicate TrialsWellFormed(disk: map<string, Table>)
  {
    forall p {:trigger TrialAt(disk, p)} :: p in disk ==> WellFormed(TrialAt(disk, p))
  }

  /** The part of the device state `new_csv_dfs` replaces. */
  datatype Snapshot = Snapshot(df: Table, dfs: Queues, rand: Slot<FactorTable>)

  class Device {
    /** `use_rand_factors`: the factors are applied when it is `Enabled`. */
    const useRandFactors: string
    const baseDataFolderName: string
    const baseDataDirectory: string
    /** The trial files `read_csv` can open, by path. */
    const disk: map<string, Table>
    /** `data_files_name_order`: the first times of the trials, ascending. */
    const dataFilesNameOrder: seq<real>
    /** `data_files_name`: the file name stored under each first time. */
    const dataFilesName: map<real, string>
    const dataPoints: seq<string>

    /** The trial being replayed, -1 before the first capture. */
    var test: int
    var index: int
    var df: Table
    var dfs: Queues
    var startNewCsv: bool
    var randFactorsDf: Slot<FactorTable>

    /** The trial files are well formed and every indexed time has a name. */
    predicate Indexed()
    {
      && TrialsWellFormed(disk)
      && forall t :: t in dataFilesNameOrder ==> t in dataFilesName
    }

    predicate Valid()
      reads this`test, this`df, this`dfs, this`randFactorsDf
    {
      && Indexed()
      && test >= -1
      && WellFormed(df)
      && (randFactorsDf.Value? ==> FactorsInRange(randFactorsDf.value))
    }

    /** The state `__init__` leaves once the index is built and the first trial read. */
    constructor (useRandFactors: string, baseDataFolderName: string, baseDataDirectory: string,
                 disk: map<string, Table>, order: seq<real>, names: map<real, string>, first: Table)
      requires TrialsWellFormed(disk)
      requires (forall t :: t in order ==> t in names) && WellFormed(first)
      ensures Valid()
      ensures this.useRandFactors == useRandFactors && this.baseDataFolderName == baseDataFolderName
      ensures this.baseDataDirectory == baseDataDirectory && this.disk == disk
      ensures dataFilesNameOrder == order && dataFilesName == names && df == first
      ensures dataPoints == DataPoints(first)
      ensures test == -1 && index == 0 && !startNewCsv
      ensures dfs == Unloaded
      ensures randFactorsDf == Placeholder
    {
      var points := CollectDataPoints(first);
      this.useRandFactors := useRandFactors;
      this.baseDataFolderName := baseDataFolderName;
      this.baseDataDirectory := baseDataDirectory;
      this.disk := disk;
      dataFilesNameOrder := order;
      dataFilesName := names;
      test := -1;
      index := 0;
      df := first;
      dfs := Unloaded;
      startNewCsv := false;
      randFactorsDf := Placeholder;
      dataPoints := points;
    }

    /**
     * `Device(params)`: builds the trial index under the base data
     * directory, reads the earliest trial and derives the data points;
     * an empty base data folder name is rejected only after all of that.
     * `listing` gives, per existing directory, the files `glob` finds there.
     */
    static method Open(useRandFactors: string, baseDataFolderName: string, resultsDir: string,
                       listing: map<string, seq<CsvFile>>, disk: map<string, Table>)
      returns (r: Result<Device>)
      requires TrialsWellFormed(disk)
      ensures var base := BaseDataDirectory(resultsDir, baseDataFolderName);
        && (base !in listing ==> r == Err(FileNotFoundError))
        && (base in listing && |Filter(listing[base], Eligible)| == 0 ==> r == Err(IndexError))
        && (r.Ok? ==>
              && base in listing && baseDataFolderName != ""
              && fresh(r.value) && r.value.Valid()
              && r.value.baseDataDirectory == base && r.value.disk == disk
              && r.value.useRandFactors == useRandFactors
              && Sorted(r.value.dataFilesNameOrder) && |r.value.dataFilesNameOrder| > 0
              && multiset(r.value.dataFilesNameOrder) == multiset(Times(Filter(listing[base], Eligible)))
              && r.value.dataFilesName == Scan(listing[base]).names
              && r.value.TrialPath(0) in disk && r.value.df == disk[r.value.TrialPath(0)]
              && r.value.dataPoints == DataPoints(r.value.df)
              && r.value.test == -1 && r.value.index == 0 && !r.value.startNewCsv
              && r.value.dfs == Unloaded
              && r.value.randFactorsDf == Placeholder)
        && (baseDataFolderName == "" ==> r.Err?)
        && (r.Err? && r.fault.DeviceError? ==> r.fault == DeviceError("No base data folder specified"))
    {
      var base := BaseDataDirectory(resultsDir, baseDataFolderName);
      if base !in listing {
        return Err(FileNotFoundError);
      }
      var order, names := FindDataFilesName(listing[base]);
      if |order| == 0 {
        return Err(IndexError);
      }
      assert order[0] in multiset(Times(Filter(listing[base], Eligible)));
      ScanOrder(listing[base]);
      forall t | t in order ensures t in names {
        assert t in multiset(order);
        assert t in Scan(listing[base]).order;
      }
      var path := PathJoin(base, RemoveNewlines(names[order[0]]));
      if path !in disk {
        return Err(FileNotFoundError);
      }
      var d := new Device(useRandFactors, baseDataFolderName, base, disk, order, names, TrialAt(disk, path));
      if baseDataFolderName == "" {
        return Err(DeviceError("No base data folder specified"));
      }
      return Ok(d);
    }

    /** The path `new_csv_dfs` reads for trial `i`. */
    function TrialPath(i: nat): string
      requires Indexed() && i < |dataFilesNameOrder|
    {
      var time := dataFilesNameOrder[i];
      assert time in dataFilesNameOrder;
      PathJoin(baseDataDirectory, RemoveNewlines(dataFilesName[time]))
    }

    /**
     * What `new_csv_dfs` leaves, given the table, queues and factor table
     * it started from: the fault of the first step that fails with the
     * state up to it, or the prepared table and its non-empty queues.
     */
    predicate Reloaded(test: nat, before: Snapshot, after: Snapshot, outcome: Outcome)
      requires Indexed()
    {
      match outcome
      case Pass =>
        && test < |dataFilesNameOrder| && TrialPath(test) in disk
        && Loaded(useRandFactors == "Enabled", TrialAt(disk, TrialPath(test)), before.rand, after.rand, after.df, Pass)
        && SegmentedAs(after.df, after.dfs)
      case Fail(fault) =>
        if test >= |dataFilesNameOrder| then
          fault == IndexError && after == before
        else if TrialPath(test) !in disk then
          fault == FileNotFoundError && after == before
        else
          Loaded(useRandFactors == "Enabled", TrialAt(disk, TrialPath(test)), before.rand, after.rand, after.df, outcome)
          && after.dfs == before.dfs
    }

    /**
     * `data_capture(enable)`: when enabled, moves to the next trial and
     * reloads the queues; the new-trial flag and the index are set only
     * when the reload succeeds. When disabled nothing changes.
     */
    method DataCapture(enable: bool) returns (outcome: Outcome)
      requires Valid()
      modifies this
      ensures Valid()
      ensures !enable ==> outcome == Pass && unchanged(this)
      ensures enable ==> test == old(test) + 1
      ensures enable ==> Reloaded(test, Snapshot(old(df), old(dfs), old(randFactorsDf)), Snapshot(df, dfs, randFactorsDf), outcome)
      ensures enable && outcome.Pass? ==> startNewCsv && index == 0
      ensures enable && outcome.Fail? ==> startNewCsv == old(startNewCsv) && index == old(index)
    {
      if enable {
        test := test + 1;
        ghost var before := Snapshot(df, dfs, randFactorsDf);
        outcome := NewCsvDfs();
        ghost var after := Snapshot(df, dfs, randFactorsDf);
        assert Reloaded(test, before, after, outcome);
        if outcome.Pass? {
          startNewCsv := true;
          index := 0;
        }
        assert after == Snapshot(df, dfs, randFactorsDf);
      } else {
        outcome := Pass;
      }
    }

    /** `new_csv_dfs`: load trial `test` and rebuild the queues from it. */
    method NewCsvDfs() returns (outcome: Outcome)
      requires Valid() && test >= 0
      modifies this`df, this`dfs, this`randFactorsDf
      ensures Valid()
      ensures Reloaded(test, Snapshot(old(df), old(dfs), old(randFactorsDf)), Snapshot(df, dfs, randFactorsDf), outcome)
    {
      if test >= |dataFilesNameOrder| {
        return Fail(IndexError);
      }
      var time := dataFilesNameOrder[test];
      assert time in dataFilesNameOrder;
      var path := PathJoin(baseDataDirectory, RemoveNewlines(dataFilesName[time]));
      if path !in disk {
        return Fail(FileNotFoundError);
      }
      outcome := ReadTrial(path);
    }

    /** The part of `new_csv_dfs` after the trial file is found. */
    method ReadTrial(path: string) returns (outcome: Outcome)
      requires Valid() && 0 <= test < |dataFilesNameOrder| && path == TrialPath(test) && path in disk
      modifies this`df, this`dfs, this`randFactorsDf
      ensures Valid()
      ensures Reloaded(test, Snapshot(old(df), old(dfs), old(randFactorsDf)), Snapshot(df, dfs, randFactorsDf), outcome)
    {
      ghost var before := Snapshot(df, dfs, randFactorsDf);
      outcome := LoadTrial(TrialAt(disk, path));
      if outcome.Pass? {
        BuildQueues();
      }
      ReloadedFrom(test, before, Snapshot(df, dfs, randFactorsDf), outcome);
    }

    /** The found-file cases of `Reloaded`, from what `LoadTrial` and `BuildQueues` promise. */
    lemma ReloadedFrom(test: nat, before: Snapshot, after: Snapshot, outcome: Outcome)
      requires Indexed() && test < |dataFilesNameOrder| && TrialPath(test) in disk
      requires Loaded(useRandFactors == "Enabled", TrialAt(disk, TrialPath(test)), before.rand, after.rand, after.df, outcome)
      requires outcome.Pass? ==> SegmentedAs(after.df, after.dfs)
      requires outcome.Fail? ==> after.dfs == before.dfs
      ensures Reloaded(test, before, after, outcome)
    {
    }

    /**
     * The part of `new_csv_dfs` that turns the trial read from disk into
     * the working table: column filter, optional perturbation, trim.
     */
    method LoadTrial(raw: Table) returns (outcome: Outcome)
      requires WellFormed(raw)
      requires randFactorsDf.Value? ==> FactorsInRange(randFactorsDf.value)
      modifies this`df, this`randFactorsDf
      ensures Loaded(useRandFactors == "Enabled", raw, old(randFactorsDf), randFactorsDf, df, outcome)
      ensures WellFormed(df) && (randFactorsDf.Value? ==> FactorsInRange(randFactorsDf.value))
    {
      df := raw;
      DropColumns();
      ghost var factors: Option<FactorTable> := None;
      if useRandFactors == "Enabled" {
        var f := GenerateRandFactorsDf();
        randFactorsDf := Value(f);
        factors := Some(f);
        outcome := ApplyRandFactors(f);
        if outcome.Fail? {
          PrepareFails(raw, f);
          return;
        }
      }
      PrepareTrims(raw, factors);
      outcome := DropLeadingTransients();
    }

    /** The part of `new_csv_dfs` that splits the trimmed table into its queues and drops the empty ones. */
    method BuildQueues()
      modifies this`dfs
      ensures SegmentedAs(df, dfs)
    {
      var t := df;
      // TR1 and TR2: the rows whose event names the marker, first row per event label
      var tr1 := Value(Segment(t.columns, StripEvent(MarkerRows(t.rows, "TR_1"))));
      var tr2 := Value(Segment(t.columns, StripEvent(MarkerRows(t.rows, "TR_2"))));
      // INIT: the rows not part of any transient, first row per `Step` label
      var init := Value(Segment(t.columns, StripEvent(InitRows(t.rows))));
      dfs := dfs.Set(TR1, Some(tr1)).Set(TR2, Some(tr2)).Set(INIT, Some(init));
      RemoveEmptyQueues();
    }

    /** The loop dropping every column without `AC` or `TIME` in its name, except the last one. */
    method DropColumns()
      requires WellFormed(df)
      modifies this`df
      ensures df == FilterColumns(old(df))
    {
      var t := df;
      var cols := AllColumns(df);
      ProjectAll(t, Pending(t, []));
      for i := 0 to |cols|
        invariant df == Project(t, Pending(t, cols[..i]))
      {
        var c := cols[i];
        assert cols[..i + 1] == cols[..i] + [c];
        if !Contains(c, "AC") && !Contains(c, "TIME") && c != cols[|cols| - 1] {
          ProjectDrop(t, Pending(t, cols[..i]), Pending(t, cols[..i + 1]), c);
          df := Project(df, x => x != c);
        } else {
          ProjectCongruent(t, Pending(t, cols[..i]), Pending(t, cols[..i + 1]));
        }
      }
      NumericColumns(t);
      assert cols[..|cols|] == cols;
      ProjectCongruent(t, Pending(t, cols), KeepColumn);
    }

    /** `generate_rand_factors_df`: one factor in [0.9, 1.1] per row for each `AC`-not-`INC` column. */
    method GenerateRandFactorsDf() returns (f: FactorTable)
      ensures FactorsFor(f, df)
    {
      f := RandFactors(df);
    }

    /**
     * The loop `df[i] = df[i] * rand_factors_df[i]` over the factor columns;
     * reaching the event column of a non-empty table raises `TypeError`
     * after every numeric factor column has been multiplied.
     */
    method ApplyRandFactors(f: FactorTable) returns (outcome: Outcome)
      requires WellFormed(df) && FactorsFor(f, df)
      modifies this`df
      ensures df == Perturbed(old(df), f)
      ensures outcome == if PerturbFails(old(df), f) then Fail(TypeError) else Pass
    {
      var t := df;
      ApplyStart(t, f);
      var cols := f.columns;
      for i := 0 to |cols|
        invariant df == Scale(t, f, ColumnSet(cols[..i]))
        invariant |t.rows| > 0 ==> t.eventColumn !in cols[..i]
      {
        var c := cols[i];
        if c == df.eventColumn && |df.rows| > 0 {
          ApplyFails(t, f, i);
          return Fail(TypeError);
        }
        ApplyStep(t, f, i);
        df := Scale(df, f, {c});
      }
      ApplyDone(t, f);
      outcome := Pass;
    }

    /** The `while` loop dropping leading rows whose event contains `TR_1` or `TR_2`. */
    method DropLeadingTransients() returns (outcome: Outcome)
      modifies this`df
      ensures TrimLeading(old(df).rows).Ok? ==>
        outcome == Pass && df == old(df).(rows := TrimLeading(old(df).rows).value)
      ensures TrimLeading(old(df).rows).Err? ==>
        outcome == Fail(IndexError) && df == old(df).(rows := [])
    {
      while |df.rows| > 0 && (Contains(df.rows[0].event, "TR_1") || Contains(df.rows[0].event, "TR_2"))
        invariant df.columns == old(df).columns && df.eventColumn == old(df).eventColumn
        invariant TrimLeading(df.rows) == TrimLeading(old(df).rows)
        decreases |df.rows|
      {
        df := df.(rows := df.rows[1..]);
      }
      if |df.rows| == 0 {
        return Fail(IndexError);
      }
      return Pass;
    }

    /** The loop popping every queue that is `empty`. */
    method RemoveEmptyQueues()
      modifies this`dfs
      ensures dfs == RemoveEmpty(old(dfs))
    {
      var keys := [TR1, TR2, INIT];
      ghost var m := dfs;
      for i := 0 to |keys|
        invariant forall k :: dfs.Get(k) == if k in keys[i..] then m.Get(k) else Kept(m.Get(k))
      {
        var key := keys[i];
        if dfs.Get(key).Some? && !Holds(dfs.Get(key).value) {
          dfs := dfs.Set(key, None);
        }
      }
      assert dfs.Get(TR1) == Kept(m.tr1) && dfs.Get(TR2) == Kept(m.tr2) && dfs.Get(INIT) == Kept(m.init);
    }

    /**
     * `data_read(event)`: pops the front row of the queue the hint selects;
     * the other queues are left as they are.
     */
    method DataRead(hint: string) returns (r: Result<Record>)
      requires Valid()
      modifies this`dfs
      ensures Valid()
      ensures Pop(old(dfs), hint).Ok? ==>
        r == Ok(Pop(old(dfs), hint).value.row) && dfs == Pop(old(dfs), hint).value.queues
      ensures Pop(old(dfs), hint).Err? ==> r == Err(Pop(old(dfs), hint).fault) && dfs == old(dfs)
    {
      var key;
      if Contains(hint, "TR_2") {
        key := TR2;
      } else if Contains(hint, "TR_1") {
        key := TR1;
      } else {
        key := INIT;
      }
      match dfs.Get(key)
      case None =>
        return Err(KeyError);
      case Some(Placeholder) =>
        return Err(TypeError);
      case Some(Value(q)) =>
        if |q.rows| == 0 {
          return Err(IndexError);
        }
        r := Ok(q.rows[0]);
        dfs := dfs.Set(key, Some(Value(Segment(q.columns, q.rows[1..]))));
    }

    /** `get_rand_factors_df`: the factor table of the last perturbed trial, every factor in [0.9, 1.1]. */
    function GetRandFactorsDf(): (r: Slot<FactorTable>)
      reads this
      requires Valid()
      ensures r.Value? ==> FactorsInRange(r.value)
    {
      randFactorsDf
    }
  }
}
