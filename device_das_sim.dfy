/**
 * The older, cursor-based trial simulator. The trial files are named, in
 * order, by a text file; a trial yields two tables of transient rows
 * (`TR1`, `TR2`, one row per event label, the last one kept) and one
 * initial row (`INIT`, the second row of the file). Reads go through a
 * cursor `index` shared by both transient tables and remember the last
 * `TR2` row returned.
 */
module DeviceDasSim {
  import opened Text
  import opened Errors
  import opened Frames
  import opened CsvSegments

  /** The column `new_csv_dfs` reads the event labels from. */
  const EventColumnName := " EVENT"

  /** The file under the data directory that lists the trial files, one per line. */
  const OrderFileName := "CSV_ORDER_NAMES.txt"

  /**
   * `self.dfs`: the `TR1` and `TR2` tables and the `INIT` row; each holds
   * a pandas class until the first trial is loaded. No key is ever removed.
   */
  datatype CursorQueues = CursorQueues(tr1: Slot<seq<Row>>, tr2: Slot<seq<Row>>, init: Slot<Row>)

  /** The queues the constructor stores. */
  const Unset := CursorQueues(Placeholder, Placeholder, Placeholder)

  /**
   * `df[df[' EVENT'].str.contains(marker)].drop_duplicates(subset=' EVENT', keep='last')`:
   * the rows whose label contains `marker`, the last one per label.
   */
  function LastMarkerRows(rows: seq<Row>, marker: string): seq<Row>
  {
    DedupLast(WithMarker(rows, marker))
  }

  /**
   * A transient table holds, once per label containing `marker`, a row
   * of the trial with that label, and nothing else.
   */
  lemma LastMarkerRowsSpec(rows: seq<Row>, marker: string)
    ensures forall x :: x in LastMarkerRows(rows, marker) ==> x in rows && Contains(x.event, marker)
    ensures DistinctLabels(LastMarkerRows(rows, marker))
    ensures forall l :: l in Labels(LastMarkerRows(rows, marker)) <==> l in Labels(rows) && Contains(l, marker)
  {
    var w := WithMarker(rows, marker);
    DedupLastSpec(w);
    DedupLastLabels(w);
    forall l ensures l in Labels(w) <==> l in Labels(rows) && Contains(l, marker) {
      if l in Labels(rows) && Contains(l, marker) {
        var x :| x in rows && x.event == l;
        assert x in w;
      }
    }
  }

  /** The `k`-th row of a transient table is the last row of the trial with its label. */
  lemma LastMarkerRowsLast(rows: seq<Row>, marker: string, k: nat)
    requires k < |LastMarkerRows(rows, marker)|
    ensures LastMarkerRows(rows, marker)[k].event in Labels(rows)
    ensures LastMarkerRows(rows, marker)[k] == rows[LastIndex(rows, LastMarkerRows(rows, marker)[k].event)]
  {
    var w := WithMarker(rows, marker);
    var x := LastMarkerRows(rows, marker)[k];
    DedupLastAt(w, k);
    LastMarkerRowsSpec(rows, marker);
    assert x in LastMarkerRows(rows, marker);
    assert x.event in Labels(rows);
    LastIndexFilter(rows, HasMarker(marker), x.event);
  }

  /** What `new_csv_dfs` leaves: the table, the queues, and how it ended. */
  datatype Replayed = Replayed(df: Slot<Table>, dfs: CursorQueues, outcome: Outcome)

  /**
   * The part of `new_csv_dfs` after `read_csv` returned `t`: a table
   * without an ` EVENT` column raises `KeyError` with only `df` replaced;
   * a table of fewer than two rows raises `IndexError` at `iloc[1]` once
   * `TR1` and `TR2` are replaced.
   */
  function Split(t: Table, dfs: CursorQueues): (r: Replayed)
    ensures r.df == Value(t)
    ensures r.outcome.Pass? <==> t.eventColumn == EventColumnName && |t.rows| >= 2
    ensures r.outcome.Fail? ==> r.outcome.fault in {KeyError, IndexError} && r.dfs.init == dfs.init
    ensures r.outcome == Fail(KeyError) <==> t.eventColumn != EventColumnName
    ensures r.outcome == Fail(KeyError) ==> r.dfs == dfs
    ensures r.outcome != Fail(KeyError) ==>
      r.dfs.tr1 == Value(LastMarkerRows(t.rows, "TR_1")) && r.dfs.tr2 == Value(LastMarkerRows(t.rows, "TR_2"))
    ensures r.outcome.Pass? ==> r.dfs.init == Value(t.rows[1])
  {
    if t.eventColumn != EventColumnName then Replayed(Value(t), dfs, Fail(KeyError))
    else
      var tr1 := Value(LastMarkerRows(t.rows, "TR_1"));
      var tr2 := Value(LastMarkerRows(t.rows, "TR_2"));
      if |t.rows| < 2 then Replayed(Value(t), dfs.(tr1 := tr1, tr2 := tr2), Fail(IndexError))
      else Replayed(Value(t), CursorQueues(tr1, tr2, Value(t.rows[1])), Pass)
  }

  /** The result of one `data_read`, with the cursor and the remembered `TR2` row after it. */
  datatype Reading = Reading(data: Result<Slot<Row>>, index: nat, lastTR2: Slot<Row>)

  /**
   * `data_read(type)`: `init` gives `INIT` right after a trial switch and
   * the last `TR2` row otherwise; `TR2` gives the row under the cursor,
   * advances it and remembers the row; `TR1` gives the row under the
   * cursor without advancing it; anything else gives the `pd.Series`
   * class. Reading a table that is still a pandas class raises
   * `TypeError`, reading past its end `IndexError`.
   */
  function Read(kind: string, dfs: CursorQueues, startNewCsv: bool, index: nat, lastTR2: Slot<Row>): (r: Reading)
    ensures kind == "init" ==> r.data == Ok(if startNewCsv then dfs.init else lastTR2)
    ensures kind !in {"init", "TR1", "TR2"} ==> r.data == Ok(Placeholder)
    ensures kind != "TR2" || r.data.Err? ==> r.index == index && r.lastTR2 == lastTR2
    ensures kind == "TR2" && r.data.Ok? ==> r.index == index + 1 && r.data == Ok(r.lastTR2)
    ensures kind in {"TR1", "TR2"} ==>
      var q := if kind == "TR1" then dfs.tr1 else dfs.tr2;
      && (q.Placeholder? ==> r.data == Err(TypeError))
      && (q.Value? && index >= |q.value| ==> r.data == Err(IndexError))
      && (q.Value? && index < |q.value| ==> r.data == Ok(Value(q.value[index])))
  {
    if kind == "init" then
      Reading(Ok(if startNewCsv then dfs.init else lastTR2), index, lastTR2)
    else if kind == "TR2" then
      match dfs.tr2
      case Placeholder => Reading(Err(TypeError), index, lastTR2)
      case Value(rows) =>
        if index >= |rows| then Reading(Err(IndexError), index, lastTR2)
        else Reading(Ok(Value(rows[index])), index + 1, Value(rows[index]))
    else if kind == "TR1" then
      match dfs.tr1
      case Placeholder => Reading(Err(TypeError), index, lastTR2)
      case Value(rows) =>
        if index >= |rows| then Reading(Err(IndexError), index, lastTR2)
        else Reading(Ok(Value(rows[index])), index, lastTR2)
    else
      Reading(Ok(Placeholder), index, lastTR2)
  }

  /** The results of a series of `data_read` calls on fixed queues, with the cursor and `TR2` row left. */
  datatype Trace = Trace(data: seq<Result<Slot<Row>>>, index: nat, lastTR2: Slot<Row>)

  /** A series of `data_read` calls; a failed read leaves the cursor and the remembered row as they were. */
  function Reads(kinds: seq<string>, dfs: CursorQueues, startNewCsv: bool, index: nat, lastTR2: Slot<Row>): Trace
    decreases |kinds|
  {
    if kinds == [] then Trace([], index, lastTR2)
    else
      var r := Read(kinds[0], dfs, startNewCsv, index, lastTR2);
      var rest := Reads(kinds[1..], dfs, startNewCsv, r.index, r.lastTR2);
      Trace([r.data] + rest.data, rest.index, rest.lastTR2)
  }

  /**
   * Consecutive `TR2` reads return the `TR2` rows from the cursor on, in
   * order, advance the cursor by their number and remember the last row.
   */
  lemma {:induction false} ReadsTR2(kinds: seq<string>, dfs: CursorQueues, startNewCsv: bool,
                                    index: nat, lastTR2: Slot<Row>, rows: seq<Row>)
    requires dfs.tr2 == Value(rows)
    requires forall k :: 0 <= k < |kinds| ==> kinds[k] == "TR2"
    requires index + |kinds| <= |rows|
    ensures var tr := Reads(kinds, dfs, startNewCsv, index, lastTR2);
      && |tr.data| == |kinds|
      && (forall k :: 0 <= k < |kinds| ==> tr.data[k] == Ok(Value(rows[index + k])))
      && tr.index == index + |kinds|
      && tr.lastTR2 == if kinds == [] then lastTR2 else Value(rows[index + |kinds| - 1])
    decreases |kinds|
  {
    if kinds != [] {
      var r := Read(kinds[0], dfs, startNewCsv, index, lastTR2);
      assert r == Reading(Ok(Value(rows[index])), index + 1, Value(rows[index]));
      ReadsTR2(kinds[1..], dfs, startNewCsv, index + 1, Value(rows[index]), rows);
      var rest := Reads(kinds[1..], dfs, startNewCsv, index + 1, Value(rows[index]));
      var tr := Reads(kinds, dfs, startNewCsv, index, lastTR2);
      assert tr.data == [r.data] + rest.data;
      forall k | 0 <= k < |kinds| ensures tr.data[k] == Ok(Value(rows[index + k])) {
        if k > 0 {
          assert tr.data[k] == rest.data[k - 1];
        }
      }
    }
  }

  /** A `TR2` read past the end of the `TR2` table raises `IndexError` and moves nothing. */
  lemma ReadTR2Exhausted(dfs: CursorQueues, startNewCsv: bool, index: nat, lastTR2: Slot<Row>, rows: seq<Row>)
    requires dfs.tr2 == Value(rows) && index >= |rows|
    ensures Read("TR2", dfs, startNewCsv, index, lastTR2) == Reading(Err(IndexError), index, lastTR2)
  {
  }

  /**
   * Once a trial has started, `init` returns the `TR2` row read last:
   * after `TR2` reads, an `init` read repeats the final one.
   */
  lemma InitRepeatsLastTR2(kinds: seq<string>, dfs: CursorQueues, index: nat, lastTR2: Slot<Row>, rows: seq<Row>)
    requires dfs.tr2 == Value(rows)
    requires forall k :: 0 <= k < |kinds| ==> kinds[k] == "TR2"
    requires 0 < |kinds| && index + |kinds| <= |rows|
    ensures var tr := Reads(kinds + ["init"], dfs, false, index, lastTR2);
      && |tr.data| == |kinds| + 1
      && tr.data[|kinds|] == Ok(Value(rows[index + |kinds| - 1]))
      && tr.data[|kinds| - 1] == tr.data[|kinds|]
  {
    ReadsTR2(kinds, dfs, false, index, lastTR2, rows);
    ReadsAppend(kinds, ["init"], dfs, false, index, lastTR2);
  }

  /** Reads of `a + b` are the reads of `a`, then the reads of `b` from where `a` left the cursor. */
  lemma {:induction false} ReadsAppend(a: seq<string>, b: seq<string>, dfs: CursorQueues, startNewCsv: bool,
                                       index: nat, lastTR2: Slot<Row>)
    ensures var ta := Reads(a, dfs, startNewCsv, index, lastTR2);
      Reads(a + b, dfs, startNewCsv, index, lastTR2) ==
        var tb := Reads(b, dfs, startNewCsv, ta.index, ta.lastTR2);
        Trace(ta.data + tb.data, tb.index, tb.lastTR2)
    decreases |a|
  {
    if a == [] {
      assert a + b == b;
    } else {
      assert (a + b)[0] == a[0] && (a + b)[1..] == a[1..] + b;
      var r := Read(a[0], dfs, startNewCsv, index, lastTR2);
      ReadsAppend(a[1..], b, dfs, startNewCsv, r.index, r.lastTR2);
      var ta := Reads(a[1..], dfs, startNewCsv, r.index, r.lastTR2);
      var tb := Reads(b, dfs, startNewCsv, ta.index, ta.lastTR2);
      assert [r.data] + (ta.data + tb.data) == ([r.data] + ta.data) + tb.data;
    }
  }

  /** A `TR1` read after `TR2` reads uses the cursor they advanced, and moves nothing. */
  lemma TR1SharesCursor(dfs: CursorQueues, startNewCsv: bool, index: nat, lastTR2: Slot<Row>, tr1: seq<Row>)
    requires dfs.tr1 == Value(tr1) && index < |tr1|
    ensures Read("TR1", dfs, startNewCsv, index, lastTR2) == Reading(Ok(Value(tr1[index])), index, lastTR2)
  {
  }

  class Device {
    /** `data_files_path`: the directory holding the order file and the trials. */
    const dataFilesPath: string
    /** `data_files_names`: the lines of the order file, line breaks included. */
    const dataFilesNames: seq<string>
    const useTimestamp: string
    /** The trial files `read_csv` can open, by path. */
    const disk: map<string, Table>

    /** The trial being replayed, -1 before the first capture. */
    var test: int
    /** The cursor shared by the `TR1` and `TR2` reads. */
    var index: int
    var df: Slot<Table>
    var dfs: CursorQueues
    var lastTR2: Slot<Row>
    var startNewCsv: bool

    /**
     * The cursor and trial number are in range; `INIT` is loaded only after
     * `TR1` and `TR2` are, a remembered `TR2` row comes from a loaded `TR2`,
     * and a pending trial switch has a loaded `INIT`.
     */
    predicate Valid()
      reads this`test, this`index, this`dfs, this`lastTR2, this`startNewCsv
    {
      && test >= -1 && index >= 0
      && (dfs.init.Value? ==> dfs.tr1.Value? && dfs.tr2.Value?)
      && (lastTR2.Value? ==> dfs.tr2.Value?)
      && (startNewCsv ==> test >= 0 && dfs.init.Value?)
    }

    /** Right after a trial switch, `data_read('init')` returns a row of the trial, never the placeholder. */
    lemma InitAfterSwitch()
      requires Valid() && startNewCsv
      ensures Read("init", dfs, startNewCsv, index, lastTR2).data.Ok?
      ensures Read("init", dfs, startNewCsv, index, lastTR2).data.value.Value?
    {
    }

    /** The state `__init__` leaves once the order file has been read. */
    constructor (dataFilesPath: string, names: seq<string>, useTimestamp: string, disk: map<string, Table>)
      ensures Valid()
      ensures this.dataFilesPath == dataFilesPath && dataFilesNames == names
      ensures this.useTimestamp == useTimestamp && this.disk == disk
      ensures test == -1 && index == 0 && !startNewCsv
      ensures df == Placeholder && dfs == Unset && lastTR2 == Placeholder
    {
      this.dataFilesPath := dataFilesPath;
      dataFilesNames := names;
      this.useTimestamp := useTimestamp;
      this.disk := disk;
      test := -1;
      index := 0;
      df := Placeholder;
      dfs := Unset;
      lastTR2 := Placeholder;
      startNewCsv := false;
    }

    /**
     * `Device(params)`: reads the order file under `data_files_path`, then
     * rejects an empty path. A missing path (`None`) fails in
     * `os.path.join`; `orderFiles` gives the lines of each text file that
     * exists.
     */
    static method Open(dataFilesPath: Option<string>, useTimestamp: string,
                       orderFiles: map<string, seq<string>>, disk: map<string, Table>)
      returns (r: Result<Device>)
      ensures dataFilesPath.None? ==> r == Err(TypeError)
      ensures dataFilesPath.Some? && PathJoin(dataFilesPath.value, OrderFileName) !in orderFiles ==>
        r == Err(FileNotFoundError)
      ensures dataFilesPath == Some("") && OrderFileName in orderFiles ==>
        r == Err(DeviceError("No data file specified"))
      ensures r.Ok? <==>
        dataFilesPath.Some? && dataFilesPath.value != "" && PathJoin(dataFilesPath.value, OrderFileName) in orderFiles
      ensures r.Ok? ==>
        && fresh(r.value) && r.value.Valid()
        && r.value.dataFilesPath == dataFilesPath.value
        && r.value.dataFilesNames == orderFiles[PathJoin(dataFilesPath.value, OrderFileName)]
        && r.value.useTimestamp == useTimestamp && r.value.disk == disk
        && r.value.test == -1 && r.value.index == 0 && !r.value.startNewCsv
        && r.value.df == Placeholder && r.value.dfs == Unset && r.value.lastTR2 == Placeholder
    {
      if dataFilesPath.None? {
        return Err(TypeError);
      }
      var path := dataFilesPath.value;
      var orderFile := PathJoin(path, OrderFileName);
      if orderFile !in orderFiles {
        return Err(FileNotFoundError);
      }
      var d := new Device(path, orderFiles[orderFile], useTimestamp, disk);
      if path == "" {
        return Err(DeviceError("No data file specified"));
      }
      return Ok(d);
    }

    /** The path `new_csv_dfs` reads for trial `i`. */
    function TrialPath(i: nat): string
      requires i < |dataFilesNames|
    {
      PathJoin(dataFilesPath, RemoveNewlines(dataFilesNames[i]))
    }

    /**
     * What `new_csv_dfs` leaves for trial `i`, from table `df` and queues
     * `dfs`: a trial past the end of the order file raises `IndexError`
     * and a missing file `FileNotFoundError`, both before anything changes.
     */
    function Reload(i: nat, df: Slot<Table>, dfs: CursorQueues): Replayed
    {
      if i >= |dataFilesNames| then Replayed(df, dfs, Fail(IndexError))
      else if TrialPath(i) !in disk then Replayed(df, dfs, Fail(FileNotFoundError))
      else Split(disk[TrialPath(i)], dfs)
    }

    /**
     * A reload that succeeds takes the `i`-th name of the order file, keeps
     * the table read, fills `TR1` and `TR2` with its transient rows (one per
     * label, the last) and `INIT` with its second row.
     */
    lemma ReloadPasses(i: nat, df: Slot<Table>, dfs: CursorQueues)
      requires Reload(i, df, dfs).outcome.Pass?
      ensures i < |dataFilesNames| && TrialPath(i) in disk
      ensures var t, r := disk[TrialPath(i)], Reload(i, df, dfs);
        && t.eventColumn == EventColumnName && |t.rows| >= 2
        && r.df == Value(t)
        && r.dfs == CursorQueues(Value(LastMarkerRows(t.rows, "TR_1")), Value(LastMarkerRows(t.rows, "TR_2")),
                                 Value(t.rows[1]))
    {
    }

    /** `data_capture(enable)`: moves to the next trial and reloads; the flags are set only when that succeeds. */
    method DataCapture(enable: bool) returns (outcome: Outcome)
      requires Valid()
      modifies this`test, this`df, this`dfs, this`startNewCsv, this`index
      ensures Valid()
      ensures !enable ==> outcome == Pass && unchanged(this)
      ensures enable ==> test == old(test) + 1 && Replayed(df, dfs, outcome) == Reload(test, old(df), old(dfs))
      ensures enable && outcome.Pass? ==> startNewCsv && index == 0
      ensures enable && outcome.Fail? ==> startNewCsv == old(startNewCsv) && index == old(index)
    {
      if enable {
        test := test + 1;
        outcome := NewCsvDfs();
        if outcome.Pass? {
          startNewCsv := true;
          index := 0;
        }
      } else {
        outcome := Pass;
      }
    }

    /** `new_csv_dfs`: reads trial `test` and fills the queues from it. */
    method NewCsvDfs() returns (outcome: Outcome)
      requires test >= 0
      modifies this`df, this`dfs
      ensures Replayed(df, dfs, outcome) == Reload(test, old(df), old(dfs))
    {
      if test >= |dataFilesNames| {
        return Fail(IndexError);
      }
      var path := PathJoin(dataFilesPath, RemoveNewlines(dataFilesNames[test]));
      if path !in disk {
        return Fail(FileNotFoundError);
      }
      var t := disk[path];
      df := Value(t);
      if t.eventColumn != EventColumnName {
        return Fail(KeyError);
      }
      dfs := dfs.(tr1 := Value(LastMarkerRows(t.rows, "TR_1")));
      dfs := dfs.(tr2 := Value(LastMarkerRows(t.rows, "TR_2")));
      if |t.rows| < 2 {
        return Fail(IndexError);
      }
      dfs := dfs.(init := Value(t.rows[1]));
      outcome := Pass;
    }

    /** `data_read(type)`: one read as `Read` says; only the cursor and the remembered `TR2` row change. */
    method DataRead(kind: string) returns (data: Result<Slot<Row>>)
      requires Valid()
      modifies this`index, this`lastTR2
      ensures Valid()
      ensures Reading(data, index, lastTR2) == Read(kind, dfs, startNewCsv, old(index), old(lastTR2))
    {
      data := Ok(Placeholder);
      if kind == "init" {
        if startNewCsv {
          data := Ok(dfs.init);
        } else {
          data := Ok(lastTR2);
        }
      } else if kind == "TR2" {
        match dfs.tr2
        case Placeholder =>
          return Err(TypeError);
        case Value(rows) =>
          if index >= |rows| {
            return Err(IndexError);
          }
          var row := rows[index];
          data := Ok(Value(row));
          index := index + 1;
          lastTR2 := Value(row);
      } else if kind == "TR1" {
        match dfs.tr1
        case Placeholder =>
          return Err(TypeError);
        case Value(rows) =>
          if index >= |rows| {
            return Err(IndexError);
          }
          data := Ok(Value(rows[index]));
      }
    }
  }
}
