/**
 * The simulated DAS driver: it wires its parameters for the device and,
 * while capturing, turns each sample into one device read. The rows read
 * since the latest trial switch make up the dataset's `data` table.
 */
module DasSim {
  import opened Text
  import opened Errors
  import opened Frames
  import opened CsvSegments
  import CsvDevice = DeviceDasSimCsv

  /** The parameters `__init__` hands to the device. */
  datatype Params = Params(
    points: seq<string>,
    dataFilesPath: Option<string>,
    useTimestamp: string,
    usePreviousRandFactors: string,
    resultFolderName: string,
    sampleInterval: int)

  /** `data_files_path` as a test-script parameter names it, under the scripts' files directory. */
  function DataFilesPath(path: Option<string>, filesDir: string): (r: Option<string>)
    ensures path.None? || path.value == "" || path.value == "None" ==> r == path
    ensures path.Some? && path.value != "" && path.value != "None" ==>
      && r.Some? && EndsWith(r.value, path.value)
      && (path.value[0] == '/' ==> r.value == path.value)
      && (path.value[0] != '/' ==> filesDir <= r.value)
  {
    if path.Some? && path.value != "" && path.value != "None" then Some(PathJoin(filesDir, path.value))
    else path
  }

  /** `DAS.__init__`: the parameters it stores; the sample interval is always 50. */
  function WireParams(points: seq<string>, dataFilesPath: Option<string>, filesDir: string, useTimestamp: string,
                      usePreviousRandFactors: string, resultFolderName: string): (p: Params)
    ensures p.sampleInterval == 50
    ensures p.points == points && p.useTimestamp == useTimestamp
    ensures p.usePreviousRandFactors == usePreviousRandFactors && p.resultFolderName == resultFolderName
    ensures p.dataFilesPath == DataFilesPath(dataFilesPath, filesDir)
  {
    Params(points, DataFilesPath(dataFilesPath, filesDir), useTimestamp, usePreviousRandFactors, resultFolderName, 50)
  }

  /**
   * The part of the driver state a capturing sample changes, as a value:
   * the `data` table, the last record, and the device's flag saying that
   * the next sample opens a new trial.
   */
  datatype Session = Session(data: seq<Record>, last: Option<Record>, startNew: bool)

  /** What a sample does with the record the device returned: it restarts the table after a switch and appends otherwise. */
  function Take(s: Session, rec: Record): (r: Session)
    ensures r.last == Some(rec) && !r.startNew
    ensures s.startNew ==> r.data == [rec]
    ensures !s.startNew ==> r.data == s.data + [rec]
  {
    Session(if s.startNew then [rec] else s.data + [rec], Some(rec), false)
  }

  /** The session after a series of records, in order. */
  function TakeAll(s: Session, recs: seq<Record>): Session
    decreases |recs|
  {
    if recs == [] then s else TakeAll(Take(s, recs[0]), recs[1..])
  }

  /**
   * After a trial switch the `data` table is exactly the records taken
   * since, in order; without one they are appended to what was there.
   * The last record is the last one taken.
   */
  lemma {:induction false} TakeAllData(s: Session, recs: seq<Record>)
    requires recs != []
    ensures var r := TakeAll(s, recs);
      && r.data == (if s.startNew then recs else s.data + recs)
      && r.last == Some(recs[|recs| - 1])
      && !r.startNew
    decreases |recs|
  {
    var t := Take(s, recs[0]);
    if |recs| > 1 {
      TakeAllData(t, recs[1..]);
      if s.startNew {
        assert [recs[0]] + recs[1..] == recs;
      } else {
        assert s.data + [recs[0]] + recs[1..] == s.data + recs;
      }
    }
  }

  /** A capturing sample on queues `dfs`: one read, then `Take`; a failed read changes nothing. */
  function Sample(s: Session, dfs: Queues, hint: string): Result<(Session, Queues)>
  {
    match Pop(dfs, hint)
    case Err(e) => Err(e)
    case Ok(p) => Ok((Take(s, p.row), p.queues))
  }

  /** A series of capturing samples, stopping at the first fault. */
  function SampleAll(s: Session, dfs: Queues, hints: seq<string>): Result<(Session, Queues)>
    decreases |hints|
  {
    if hints == [] then Ok((s, dfs))
    else match Sample(s, dfs, hints[0])
      case Err(e) => Err(e)
      case Ok(next) => SampleAll(next.0, next.1, hints[1..])
  }

  /**
   * Samples read what the device's reads return, in order: a series of
   * samples succeeds exactly when the same series of reads does, leaves the
   * same queues, and its records are taken into the session in order.
   */
  lemma {:induction false} SampleAllReads(s: Session, dfs: Queues, hints: seq<string>)
    ensures SampleAll(s, dfs, hints).Ok? <==> ReadAll(dfs, hints).Ok?
    ensures SampleAll(s, dfs, hints).Err? ==> SampleAll(s, dfs, hints).fault == ReadAll(dfs, hints).fault
    ensures ReadAll(dfs, hints).Ok? ==>
      SampleAll(s, dfs, hints).value == (TakeAll(s, ReadAll(dfs, hints).value.rows), ReadAll(dfs, hints).value.queues)
    decreases |hints|
  {
    if hints != [] {
      match Pop(dfs, hints[0])
      case Err(e) =>
      case Ok(p) =>
        SampleAllReads(Take(s, p.row), p.queues, hints[1..]);
        var tail := ReadAll(p.queues, hints[1..]);
        if tail.Ok? {
          assert ReadAll(dfs, hints) == Ok(Drained([p.row] + tail.value.rows, tail.value.queues));
          assert ([p.row] + tail.value.rows)[1..] == tail.value.rows;
        }
    }
  }

  /**
   * After a trial switch, the samples taken from one queue holding `rows`
   * make the `data` table exactly the first `|hints|` of those rows.
   */
  lemma SamplesAfterSwitch(s: Session, dfs: Queues, hints: seq<string>, key: QueueName,
                           cols: seq<string>, rows: seq<Record>)
    requires s.startNew && 0 < |hints| <= |rows|
    requires forall k :: 0 <= k < |hints| ==> QueueKey(hints[k]) == key
    requires dfs.Get(key) == Some(Value(Segment(cols, rows)))
    ensures SampleAll(s, dfs, hints).Ok?
    ensures SampleAll(s, dfs, hints).value.0.data == rows[..|hints|]
    ensures SampleAll(s, dfs, hints).value.0.last == Some(rows[|hints| - 1])
  {
    ReadFifo(dfs, hints, key, cols, rows);
    SampleAllReads(s, dfs, hints);
    TakeAllData(s, rows[..|hints|]);
  }

  class Das {
    /** `self.device`. */
    const device: CsvDevice.Device
    /** `_capture`: whether samples read the device. */
    var capture: bool
    /** `_last_datarec`: the record the latest capturing sample read. */
    var lastDatarec: Option<Record>
    /** `_ds.df['data']`. */
    var data: seq<Record>
    /** `_ds.df['rand_factors']`. */
    var randFactors: Slot<FactorTable>

    /** The driver over `device`, before any capture. */
    constructor (device: CsvDevice.Device)
      ensures this.device == device
      ensures !capture && lastDatarec == None && data == [] && randFactors == Placeholder
    {
      this.device := device;
      capture := false;
      lastDatarec := None;
      data := [];
      randFactors := Placeholder;
    }

    /** The state `data_sample` works on, as a `Session`. */
    function Current(): (s: Session)
      reads this, device`startNewCsv
      ensures s.data == data && s.last == lastDatarec && s.startNew == device.startNewCsv
    {
      Session(data, lastDatarec, device.startNewCsv)
    }

    /**
     * `data_sample(type)`: while capturing, reads the device, stores the
     * record, and either restarts the `data` table with it (clearing the
     * device's flag and storing the device's factors) or appends it; a
     * read that raises changes nothing. Returns the latest record.
     */
    method DataSample(hint: string) returns (r: Result<Option<Record>>)
      requires device.Valid()
      modifies this`lastDatarec, this`data, this`randFactors, device`dfs, device`startNewCsv
      ensures device.Valid()
      ensures !old(capture) ==> r == Ok(old(lastDatarec)) && unchanged(this) && unchanged(device)
      ensures old(capture) ==> match Sample(old(Current()), old(device.dfs), hint)
        case Err(e) => r == Err(e) && unchanged(this) && unchanged(device)
        case Ok(next) =>
          && Current() == next.0 && device.dfs == next.1 && r == Ok(lastDatarec)
          && randFactors == (if old(device.startNewCsv) then old(device.randFactorsDf) else old(randFactors))
    {
      if !capture {
        return Ok(lastDatarec);
      }
      var rec := device.DataRead(hint);
      if rec.Err? {
        return Err(rec.fault);
      }
      lastDatarec := Some(rec.value);
      if device.startNewCsv {
        data := [rec.value];
        randFactors := device.GetRandFactorsDf();
        device.startNewCsv := false;
      } else {
        data := data + [rec.value];
      }
      r := Ok(lastDatarec);
    }
  }
}
