/**
 * What `new_csv_dfs`, `generate_rand_factors_df` and `data_read` of the
 * CSV-replay simulator compute, as functions on tables: the column filter,
 * the shape of the random-factor table, the perturbation, the trim of
 * leading transient rows, the three event queues and the FIFO pop.
 */
module CsvSegments {
  import opened Text
  import opened Errors
  import opened Frames

  // ---------------------------------------------------------------------
  // Column projection
  // ---------------------------------------------------------------------

  /** The cells of `rec` whose column passes `keep`. */
  function RestrictCells(rec: Record, keep: string -> bool): (r: Record)
    ensures forall c :: c in r <==> c in rec && keep(c)
    ensures forall c :: c in r ==> r[c] == rec[c]
  {
    map c | c in rec && keep(c) :: rec[c]
  }

  /** `t` with the numeric columns that fail `keep` dropped; the event column always stays. */
  function Project(t: Table, keep: string -> bool): (r: Table)
    ensures r.eventColumn == t.eventColumn && |r.rows| == |t.rows|
    ensures forall c :: c in r.columns <==> c in t.columns && keep(c)
  {
    Table(Filter(t.columns, keep), t.eventColumn,
          seq(|t.rows|, k requires 0 <= k < |t.rows| =>
            Row(RestrictCells(t.rows[k].cells, keep), t.rows[k].event)))
  }

  /** Two tests that agree on the numeric columns of a well-formed table project it alike. */
  lemma ProjectCongruent(t: Table, p: string -> bool, q: string -> bool)
    requires WellFormed(t)
    requires forall c :: c in t.columns ==> p(c) == q(c)
    ensures Project(t, p) == Project(t, q)
  {
    FilterCongruent(t.columns, p, q);
    forall k | 0 <= k < |t.rows|
      ensures RestrictCells(t.rows[k].cells, p) == RestrictCells(t.rows[k].cells, q)
    {
      assert t.rows[k].cells.Keys == ColumnSet(t.columns);
    }
  }

  /** Dropping column `c` from a projection is a projection by the narrower test. */
  lemma ProjectDrop(t: Table, p: string -> bool, q: string -> bool, c: string)
    requires forall x :: q(x) == (p(x) && x != c)
    ensures Project(Project(t, p), x => x != c) == Project(t, q)
  {
    FilterFilter(t.columns, p, x => x != c, q);
    var once := Project(t, p);
    var twice := Project(once, x => x != c);
    var direct := Project(t, q);
    forall k | 0 <= k < |t.rows| ensures twice.rows[k] == direct.rows[k] {
      assert once.rows[k].cells == RestrictCells(t.rows[k].cells, p);
    }
  }

  /** Filtering keeps the elements of a list without repetitions distinct. */
  lemma {:induction false} FilterDistinct<T(!new)>(s: seq<T>, p: T -> bool)
    requires Distinct(s)
    ensures Distinct(Filter(s, p))
    decreases |s|
  {
    if s != [] {
      var init, last := s[..|s| - 1], s[|s| - 1];
      assert s == init + [last];
      assert Distinct(init) by {
        forall i, j | 0 <= i < j < |init| ensures init[i] != init[j] {
          assert init[i] == s[i] && init[j] == s[j];
        }
      }
      assert last !in init by {
        forall i | 0 <= i < |init| ensures init[i] != last {
          assert init[i] == s[i];
        }
      }
      FilterDistinct(init, p);
      var f := Filter(init, p);
      var r := f + (if p(last) then [last] else []);
      forall i, j | 0 <= i < j < |r| ensures r[i] != r[j] {
        if j == |f| {
          assert r[i] == f[i] && f[i] in f;
        } else {
          assert r[i] == f[i] && r[j] == f[j];
        }
      }
    }
  }

  // ---------------------------------------------------------------------
  // Column filter (new_csv_dfs, the loop over list(df.columns))
  // ---------------------------------------------------------------------

  /** A numeric column survives the filter when its name contains `AC` or `TIME`. */
  predicate KeepColumn(c: string)
  {
    Contains(c, "AC") || Contains(c, "TIME")
  }

  /** The table once every column without `AC` or `TIME`, except the last, has been dropped. */
  function FilterColumns(t: Table): (r: Table)
    requires WellFormed(t)
    ensures WellFormed(r)
    ensures r.eventColumn == t.eventColumn && |r.rows| == |t.rows|
    ensures forall c :: c in r.columns <==> c in t.columns && KeepColumn(c)
    ensures forall k :: 0 <= k < |r.rows| ==>
      r.rows[k].event == t.rows[k].event
      && forall c :: c in r.rows[k].cells ==> r.rows[k].cells[c] == t.rows[k].cells[c]
  {
    var r := Project(t, KeepColumn);
    NumericColumns(t);
    assert Distinct(AllColumns(r)) by {
      FilterDistinct(t.columns, KeepColumn);
      var all := AllColumns(r);
      forall i, j | 0 <= i < j < |all| ensures all[i] != all[j] {
        if j == |r.columns| {
          assert all[i] == r.columns[i] && r.columns[i] in t.columns;
        } else {
          assert all[i] == r.columns[i] && all[j] == r.columns[j];
        }
      }
    }
    assert forall k :: 0 <= k < |r.rows| ==> r.rows[k].cells.Keys == ColumnSet(r.columns) by {
      forall k | 0 <= k < |r.rows| ensures r.rows[k].cells.Keys == ColumnSet(r.columns) {
        assert t.rows[k].cells.Keys == ColumnSet(t.columns);
      }
    }
    r
  }

  // ---------------------------------------------------------------------
  // Random factors (generate_rand_factors_df) and perturbation
  // ---------------------------------------------------------------------

  /** A column gets random factors when its name contains `AC` and not `INC`. */
  predicate IsPerturbed(c: string)
  {
    Contains(c, "AC") && !Contains(c, "INC")
  }

  /** The table of random factors: its columns in order, and one list of factors per column. */
  datatype FactorTable = FactorTable(columns: seq<string>, factors: map<string, seq<real>>)

  /**
   * Whether the factor table built for `t` keeps column `c`. A column is
   * dropped only when the loop over the rows meets a row for it, so a table
   * without rows keeps every column, the event column included.
   */
  function FactorTest(t: Table): string -> bool
  {
    c => |t.rows| == 0 || IsPerturbed(c)
  }

  /** The columns of the factor table built for `t`, in table order. */
  function FactorColumns(t: Table): (r: seq<string>)
    ensures |t.rows| == 0 ==> r == AllColumns(t)
    ensures |t.rows| > 0 ==> forall c :: c in r <==> c in AllColumns(t) && IsPerturbed(c)
  {
    if |t.rows| == 0 then
      FilterAll(AllColumns(t), FactorTest(t));
      Filter(AllColumns(t), FactorTest(t))
    else Filter(AllColumns(t), FactorTest(t))
  }

  /** The event column, when it gets factors, is the last factor column and the only one that is not numeric. */
  lemma FactorColumnsShape(t: Table)
    requires WellFormed(t)
    ensures FactorColumns(t) ==
      Filter(t.columns, FactorTest(t)) + (if FactorTest(t)(t.eventColumn) then [t.eventColumn] else [])
    ensures t.eventColumn !in Filter(t.columns, FactorTest(t))
  {
    FilterAppend(t.columns, [t.eventColumn], FactorTest(t));
    assert Filter([t.eventColumn], FactorTest(t)) == Filter([], FactorTest(t)) + (if FactorTest(t)(t.eventColumn) then [t.eventColumn] else []);
    NumericColumns(t);
  }

  /** `random.uniform(-0.1, 0.1)` plus one. */
  predicate InRange(x: real)
  {
    0.9 <= x <= 1.1
  }

  /** `f` is a factor table `generate_rand_factors_df` can return for `t`. */
  predicate FactorsFor(f: FactorTable, t: Table)
  {
    && f.columns == FactorColumns(t)
    && f.factors.Keys == ColumnSet(f.columns)
    && (forall c :: c in f.factors ==> |f.factors[c]| == |t.rows|)
    && FactorsInRange(f)
  }

  /** Every factor of `f` lies in [0.9, 1.1]. */
  predicate FactorsInRange(f: FactorTable)
  {
    forall c, k :: c in f.factors && 0 <= k < |f.factors[c]| ==> InRange(f.factors[c][k])
  }

  /** Every factor list of `f` has one entry per row of `t`. */
  predicate Fits(f: FactorTable, t: Table)
  {
    forall c :: c in f.factors ==> |f.factors[c]| == |t.rows|
  }

  /** Each cell whose column is in `names` and has factors, multiplied by its row's factor. */
  function Scale(t: Table, f: FactorTable, names: set<string>): (r: Table)
    requires Fits(f, t)
    ensures r.columns == t.columns && r.eventColumn == t.eventColumn && |r.rows| == |t.rows|
    ensures forall k :: 0 <= k < |t.rows| ==>
      r.rows[k].event == t.rows[k].event && r.rows[k].cells.Keys == t.rows[k].cells.Keys
  {
    Table(t.columns, t.eventColumn,
          seq(|t.rows|, k requires 0 <= k < |t.rows| =>
            Row(map c | c in t.rows[k].cells ::
                  if c in names && c in f.factors then t.rows[k].cells[c] * f.factors[c][k]
                  else t.rows[k].cells[c],
                t.rows[k].event)))
  }

  /**
   * A cell of a named column that has factors becomes the cell times its
   * row's factor; every other cell is passed through unchanged.
   */
  lemma ScaleCell(t: Table, f: FactorTable, names: set<string>, k: nat, c: string)
    requires Fits(f, t) && k < |t.rows| && c in t.rows[k].cells
    ensures c in Scale(t, f, names).rows[k].cells
    ensures c in names && c in f.factors ==>
      Scale(t, f, names).rows[k].cells[c] == t.rows[k].cells[c] * f.factors[c][k]
    ensures !(c in names && c in f.factors) ==> Scale(t, f, names).rows[k].cells[c] == t.rows[k].cells[c]
  {
  }

  /** One row of `ScaleStep`. */
  lemma ScaleStepRow(t: Table, f: FactorTable, names: set<string>, c: string, k: nat)
    requires Fits(f, t) && c !in names && k < |t.rows|
    ensures Fits(f, Scale(t, f, names))
    ensures Scale(Scale(t, f, names), f, {c}).rows[k] == Scale(t, f, names + {c}).rows[k]
  {
    var cells := t.rows[k].cells;
    var once := Scale(t, f, names).rows[k].cells;
    var a := Scale(Scale(t, f, names), f, {c}).rows[k].cells;
    var b := Scale(t, f, names + {c}).rows[k].cells;
    assert a.Keys == once.Keys == cells.Keys == b.Keys;
    forall x | x in cells ensures a[x] == b[x] {
      assert once[x] == if x in names && x in f.factors then cells[x] * f.factors[x][k] else cells[x];
    }
    assert a == b;
  }

  /** Scaling one more column after a set of others is scaling the larger set. */
  lemma ScaleStep(t: Table, f: FactorTable, names: set<string>, c: string)
    requires Fits(f, t) && c !in names
    ensures Fits(f, Scale(t, f, names))
    ensures Scale(Scale(t, f, names), f, {c}) == Scale(t, f, names + {c})
  {
    var once := Scale(t, f, names);
    var twice := Scale(once, f, {c});
    var direct := Scale(t, f, names + {c});
    forall k | 0 <= k < |t.rows| ensures twice.rows[k] == direct.rows[k] {
      ScaleStepRow(t, f, names, c, k);
    }
    assert twice.rows == direct.rows;
  }

  /** Scaling no column leaves the table as it is. */
  lemma ScaleNone(t: Table, f: FactorTable)
    requires Fits(f, t)
    ensures Scale(t, f, {}) == t
  {
    var r := Scale(t, f, {});
    forall k | 0 <= k < |t.rows| ensures r.rows[k] == t.rows[k] {
      assert r.rows[k].cells == t.rows[k].cells;
    }
  }

  /** Scaling keeps a table well formed. */
  lemma ScaleWellFormed(t: Table, f: FactorTable, names: set<string>)
    requires Fits(f, t) && WellFormed(t)
    ensures WellFormed(Scale(t, f, names))
  {
    var r := Scale(t, f, names);
    forall k | 0 <= k < |r.rows| ensures r.rows[k].cells.Keys == ColumnSet(r.columns) {
      assert t.rows[k].cells.Keys == ColumnSet(t.columns);
    }
  }

  /** Naming a column that has no cells, such as the event column, changes nothing. */
  lemma ScaleIgnores(t: Table, f: FactorTable, names: set<string>, c: string)
    requires Fits(f, t) && WellFormed(t) && c !in t.columns
    ensures Scale(t, f, names + {c}) == Scale(t, f, names)
  {
    var a, b := Scale(t, f, names + {c}), Scale(t, f, names);
    forall k | 0 <= k < |t.rows| ensures a.rows[k] == b.rows[k] {
      assert t.rows[k].cells.Keys == ColumnSet(t.columns);
      assert a.rows[k].cells == b.rows[k].cells;
    }
  }

  /** The numeric part of `df[i] = df[i] * rand_factors_df[i]` for every factor column. */
  function Perturbed(t: Table, f: FactorTable): Table
    requires Fits(f, t)
  {
    Scale(t, f, f.factors.Keys)
  }

  /** Multiplying the event column, a column of strings, by floats raises `TypeError`. */
  predicate PerturbFails(t: Table, f: FactorTable)
  {
    t.eventColumn in f.factors && |t.rows| > 0
  }

  /**
   * The perturbation multiplies exactly the cells whose column contains
   * `AC` and not `INC`, each by a factor in [0.9, 1.1], and passes every
   * other cell and every event label through; it fails exactly when the
   * event column itself is such a column.
   */
  lemma PerturbedSpec(t: Table, f: FactorTable, k: nat, c: string)
    requires WellFormed(t) && FactorsFor(f, t)
    requires k < |t.rows| && c in t.rows[k].cells
    ensures Perturbed(t, f).rows[k].event == t.rows[k].event
    ensures c in Perturbed(t, f).rows[k].cells
    ensures IsPerturbed(c) ==>
      c in f.factors && InRange(f.factors[c][k])
      && Perturbed(t, f).rows[k].cells[c] == t.rows[k].cells[c] * f.factors[c][k]
    ensures !IsPerturbed(c) ==> Perturbed(t, f).rows[k].cells[c] == t.rows[k].cells[c]
    ensures PerturbFails(t, f) <==> IsPerturbed(t.eventColumn)
  {
    assert t.rows[k].cells.Keys == ColumnSet(t.columns);
    assert c in AllColumns(t);
    assert t.eventColumn in AllColumns(t);
  }

  // ---------------------------------------------------------------------
  // Leading trim (the while loop of new_csv_dfs)
  // ---------------------------------------------------------------------

  /** A row of a transient response: its label contains `TR_1` or `TR_2`. */
  predicate IsTransient(r: Row)
  {
    Contains(r.event, "TR_1") || Contains(r.event, "TR_2")
  }

  /**
   * The rows once the leading transient rows are dropped; `iloc[0]` on
   * the table emptied by the loop raises `IndexError`.
   */
  function TrimLeading(rows: seq<Row>): (r: Result<seq<Row>>)
    ensures r.Err? ==> r.fault == IndexError
    decreases |rows|
  {
    if rows == [] then Err(IndexError)
    else if IsTransient(rows[0]) then TrimLeading(rows[1..])
    else Ok(rows)
  }

  /**
   * The trim fails exactly when every row is transient; otherwise it keeps
   * a non-empty suffix that starts with a non-transient row, and every row
   * it drops is transient.
   */
  lemma {:induction false} TrimLeadingSpec(rows: seq<Row>)
    ensures TrimLeading(rows).Err? <==> forall k :: 0 <= k < |rows| ==> IsTransient(rows[k])
    ensures TrimLeading(rows).Ok? ==>
      var kept := TrimLeading(rows).value;
      && 0 < |kept| <= |rows| && kept == rows[|rows| - |kept|..] && !IsTransient(kept[0])
      && forall k :: 0 <= k < |rows| - |kept| ==> IsTransient(rows[k])
    decreases |rows|
  {
    if rows != [] && IsTransient(rows[0]) {
      var rest := rows[1..];
      TrimLeadingSpec(rest);
      if TrimLeading(rest).Err? {
        TransientPrefix(rows, |rows|);
      } else {
        var kept := TrimLeading(rest).value;
        var d := |rows| - |kept|;
        assert kept == rest[d - 1..] == rows[d..];
        TransientPrefix(rows, d);
      }
    }
  }

  /** A transient first row followed by `n - 1` transient rows makes `n` transient rows. */
  lemma TransientPrefix(rows: seq<Row>, n: nat)
    requires 0 < n <= |rows| && IsTransient(rows[0])
    requires forall k :: 0 <= k < n - 1 ==> IsTransient(rows[1..][k])
    ensures forall k :: 0 <= k < n ==> IsTransient(rows[k])
  {
    forall k | 0 < k < n ensures IsTransient(rows[k]) {
      assert rows[k] == rows[1..][k - 1];
    }
  }

  // ---------------------------------------------------------------------
  // The three queues
  // ---------------------------------------------------------------------

  /** `df[event].str.contains(marker)`, row by row. */
  function HasMarker(marker: string): Row -> bool
  {
    (r: Row) => Contains(r.event, marker)
  }

  /** `df[df[event].str.contains(marker)]`. */
  function WithMarker(rows: seq<Row>, marker: string): seq<Row>
  {
    Filter(rows, HasMarker(marker))
  }

  /** `pd.concat([df, TR2, TR2, TR1, TR1])`. */
  function Stacked(rows: seq<Row>): seq<Row>
  {
    var tr1, tr2 := WithMarker(rows, "TR_1"), WithMarker(rows, "TR_2");
    rows + tr2 + tr2 + tr1 + tr1
  }

  /** The rows left by `concat([df, TR2, TR2, TR1, TR1]).drop_duplicates(keep=False)`. */
  function InitCandidates(rows: seq<Row>): seq<Row>
  {
    DropAllDuplicates(Stacked(rows))
  }

  /** The rows that are not transient and occur once in `rows`, in order. */
  function Singles(rows: seq<Row>): seq<Row>
  {
    Filter(rows, (x: Row) => !IsTransient(x) && Occurrences(rows, x) == 1)
  }

  /** A filter that accepts nothing keeps nothing. */
  lemma FilterNone<T(!new)>(s: seq<T>, p: T -> bool)
    requires forall x :: x in s ==> !p(x)
    ensures Filter(s, p) == []
  {
  }

  /** A row occurs in the stacked table once per copy in the table, plus twice per transient queue holding it. */
  lemma StackedOccurrences(rows: seq<Row>, x: Row)
    ensures Occurrences(Stacked(rows), x) ==
      Occurrences(rows, x)
      + (if Contains(x.event, "TR_2") then 2 * Occurrences(rows, x) else 0)
      + (if Contains(x.event, "TR_1") then 2 * Occurrences(rows, x) else 0)
  {
    FilterCount(rows, HasMarker("TR_1"), x);
    FilterCount(rows, HasMarker("TR_2"), x);
    var tr1, tr2 := WithMarker(rows, "TR_1"), WithMarker(rows, "TR_2");
    assert multiset(Stacked(rows)) ==
      multiset(rows) + multiset(tr2) + multiset(tr2) + multiset(tr1) + multiset(tr1);
  }

  /** Filtering the stacked table keeps what filtering its parts keeps, in the same order. */
  lemma FilterStacked(rows: seq<Row>, p: Row -> bool)
    requires forall x :: x in WithMarker(rows, "TR_1") || x in WithMarker(rows, "TR_2") ==> !p(x)
    ensures Filter(Stacked(rows), p) == Filter(rows, p)
  {
    var tr1, tr2 := WithMarker(rows, "TR_1"), WithMarker(rows, "TR_2");
    FilterNone(tr1, p);
    FilterNone(tr2, p);
    FilterAppend(rows + tr2 + tr2 + tr1, tr1, p);
    FilterAppend(rows + tr2 + tr2, tr1, p);
    FilterAppend(rows + tr2, tr2, p);
    FilterAppend(rows, tr2, p);
  }

  /**
   * Appending two copies of each transient queue before dropping every
   * duplicated row removes all transient rows: what is left is exactly the
   * non-transient rows that occur once in the table, in table order.
   */
  lemma InitCandidatesSpec(rows: seq<Row>)
    ensures InitCandidates(rows) == Singles(rows)
  {
    var all := Stacked(rows);
    var once := (x: Row) => Occurrences(all, x) == 1;
    var single := (x: Row) => !IsTransient(x) && Occurrences(rows, x) == 1;
    forall x | x in WithMarker(rows, "TR_1") || x in WithMarker(rows, "TR_2") ensures !once(x) {
      StackedOccurrences(rows, x);
    }
    FilterStacked(rows, once);
    forall x | x in rows ensures once(x) == single(x) {
      StackedOccurrences(rows, x);
    }
    FilterCongruent(rows, once, single);
  }

  /** One of the three queues of `dfs`: its columns and its rows, event column dropped. */
  datatype Segment = Segment(columns: seq<string>, rows: seq<Record>)

  /** `DataFrame.empty`: no rows, or no columns. */
  predicate IsEmpty(q: Segment)
  {
    |q.rows| == 0 || |q.columns| == 0
  }

  /** The rows of a transient queue before the event column is dropped. */
  function MarkerRows(rows: seq<Row>, marker: string): seq<Row>
  {
    DedupFirst(WithMarker(rows, marker))
  }

  /** The rows of the `INIT` queue before the event column is dropped. */
  function InitRows(rows: seq<Row>): seq<Row>
  {
    DedupFirst(WithMarker(InitCandidates(rows), "Step"))
  }

  /** The keys of `self.dfs`. */
  datatype QueueName = TR1 | TR2 | INIT

  /**
   * `self.dfs`: a dictionary whose keys are drawn from `TR1`, `TR2` and
   * `INIT`; `None` stands for a key that has been popped.
   */
  datatype Queues = Queues(tr1: Option<Slot<Segment>>, tr2: Option<Slot<Segment>>, init: Option<Slot<Segment>>)
  {
    /** `self.dfs.get(key)`. */
    function Get(key: QueueName): Option<Slot<Segment>>
    {
      match key
      case TR1 => tr1
      case TR2 => tr2
      case INIT => init
    }

    /** The dictionary with the entry under `key` replaced (`None` pops it). */
    function Set(key: QueueName, v: Option<Slot<Segment>>): (r: Queues)
      ensures r.Get(key) == v
      ensures forall k :: k != key ==> r.Get(k) == Get(k)
    {
      match key
      case TR1 => this.(tr1 := v)
      case TR2 => this.(tr2 := v)
      case INIT => this.(init := v)
    }
  }

  /** The queues the constructors store: a pandas class under every key. */
  const Unloaded := Queues(Some(Placeholder), Some(Placeholder), Some(Placeholder))

  /** The three queues `new_csv_dfs` builds from the trimmed table `t`. */
  function Segments(t: Table): Queues
  {
    Queues(Some(Value(Segment(t.columns, StripEvent(MarkerRows(t.rows, "TR_1"))))),
           Some(Value(Segment(t.columns, StripEvent(MarkerRows(t.rows, "TR_2"))))),
           Some(Value(Segment(t.columns, StripEvent(InitRows(t.rows))))))
  }

  /**
   * Whether `if self.dfs[key].empty` keeps `key`: only a queue with rows
   * and columns stays (the `empty` of a placeholder class is a property
   * object, which is true).
   */
  predicate Holds(q: Slot<Segment>)
  {
    q.Value? && !IsEmpty(q.value)
  }

  /** The entry under one key once it is popped if empty. */
  function Kept(e: Option<Slot<Segment>>): Option<Slot<Segment>>
  {
    if e.Some? && Holds(e.value) then e else None
  }

  /** `dfs` once every empty queue has been popped. */
  function RemoveEmpty(dfs: Queues): (r: Queues)
  {
    Queues(Kept(dfs.tr1), Kept(dfs.tr2), Kept(dfs.init))
  }

  /** Popping the empty queues keeps exactly the present queues that have rows and columns, unchanged. */
  lemma RemoveEmptySpec(dfs: Queues, key: QueueName)
    ensures RemoveEmpty(dfs).Get(key).Some? <==> dfs.Get(key).Some? && Holds(dfs.Get(key).value)
    ensures RemoveEmpty(dfs).Get(key).Some? ==> RemoveEmpty(dfs).Get(key) == dfs.Get(key)
  {
  }

  /**
   * A transient queue holds, once per label containing `marker`, the first
   * row of the table with that label, and nothing else.
   */
  lemma MarkerRowsSpec(rows: seq<Row>, marker: string)
    ensures forall x :: x in MarkerRows(rows, marker) ==> x in rows && Contains(x.event, marker)
    ensures DistinctLabels(MarkerRows(rows, marker))
    ensures forall l :: l in Labels(MarkerRows(rows, marker)) <==> l in Labels(rows) && Contains(l, marker)
  {
    var w := WithMarker(rows, marker);
    DedupFirstSpec(w);
    DedupFirstLabels(w);
    forall l ensures l in Labels(w) <==> l in Labels(rows) && Contains(l, marker) {
      if l in Labels(rows) && Contains(l, marker) {
        var x :| x in rows && x.event == l;
        assert x in w;
      }
    }
  }

  /** The `k`-th row of a transient queue is the first row of the table with its label. */
  lemma MarkerRowsFirst(rows: seq<Row>, marker: string, k: nat)
    requires k < |MarkerRows(rows, marker)|
    ensures MarkerRows(rows, marker)[k].event in Labels(rows)
    ensures MarkerRows(rows, marker)[k] == rows[FirstIndex(rows, MarkerRows(rows, marker)[k].event)]
  {
    var w := WithMarker(rows, marker);
    var x := MarkerRows(rows, marker)[k];
    DedupFirstAt(w, k);
    MarkerRowsSpec(rows, marker);
    assert x in MarkerRows(rows, marker);
    assert x.event in Labels(rows);
    FirstIndexFilter(rows, HasMarker(marker), x.event);
  }

  /**
   * Every `INIT` row is a row of the table that is not transient, has a
   * label containing `Step` and occurs once as a whole row; no two `INIT`
   * rows share a label.
   */
  lemma InitRowsSpec(rows: seq<Row>)
    ensures forall x :: x in InitRows(rows) ==> InitEligible(rows, x)
    ensures DistinctLabels(InitRows(rows))
  {
    var w := WithMarker(InitCandidates(rows), "Step");
    DedupFirstSpec(w);
    InitCandidatesSpec(rows);
  }

  /** Every label of a row eligible for `INIT` is the label of some `INIT` row. */
  lemma InitRowsComplete(rows: seq<Row>, x: Row)
    requires InitEligible(rows, x)
    ensures x.event in Labels(InitRows(rows))
  {
    var w := WithMarker(InitCandidates(rows), "Step");
    InitCandidatesSpec(rows);
    assert x in Singles(rows) && x in w;
    DedupFirstLabels(w);
  }

  /**
   * The `k`-th `INIT` row is, among the non-transient rows that occur once,
   * the first one with its label (`keep='first'`).
   */
  lemma InitRowsFirst(rows: seq<Row>, k: nat)
    requires k < |InitRows(rows)|
    ensures InitRows(rows)[k].event in Labels(Singles(rows))
    ensures InitRows(rows)[k] == Singles(rows)[FirstIndex(Singles(rows), InitRows(rows)[k].event)]
  {
    var s := Singles(rows);
    var w := WithMarker(s, "Step");
    InitCandidatesSpec(rows);
    var x := InitRows(rows)[k];
    DedupFirstAt(w, k);
    assert x.event in Labels(s) by {
      var y := w[FirstIndex(w, x.event)];
      assert y in w;
    }
    assert Contains(x.event, "Step") by {
      assert x in InitRows(rows);
      InitRowsSpec(rows);
    }
    FirstIndexFilter(s, HasMarker("Step"), x.event);
  }

  /** Which queues survive segmentation, by the number of rows each would hold. */
  lemma SegmentsKept(t: Table)
    ensures var q := RemoveEmpty(Segments(t));
      && (q.tr1.Some? <==> |t.columns| > 0 && |MarkerRows(t.rows, "TR_1")| > 0)
      && (q.tr2.Some? <==> |t.columns| > 0 && |MarkerRows(t.rows, "TR_2")| > 0)
      && (q.init.Some? <==> |t.columns| > 0 && |InitRows(t.rows)| > 0)
  {
  }

  /** A transient queue has rows exactly when some row of the table carries its marker. */
  lemma MarkerRowsNonEmpty(rows: seq<Row>, marker: string)
    ensures |MarkerRows(rows, marker)| > 0 <==> exists x :: x in rows && Contains(x.event, marker)
  {
    var m := MarkerRows(rows, marker);
    MarkerRowsSpec(rows, marker);
    if exists x :: x in rows && Contains(x.event, marker) {
      var x :| x in rows && Contains(x.event, marker);
      assert x.event in Labels(rows);
      assert x.event in Labels(m);
    }
    if |m| > 0 {
      assert m[0] in m;
    }
  }

  /** A row the `INIT` queue can be built from: not transient, labelled with `Step`, and occurring once. */
  predicate InitEligible(rows: seq<Row>, x: Row)
  {
    x in rows && Contains(x.event, "Step") && !IsTransient(x) && Occurrences(rows, x) == 1
  }

  /** `INIT` has rows exactly when some row of the table is eligible for it. */
  lemma InitRowsNonEmpty(rows: seq<Row>)
    ensures |InitRows(rows)| > 0 <==> exists x :: InitEligible(rows, x)
  {
    var c := InitCandidates(rows);
    var w := WithMarker(c, "Step");
    var q := InitRows(rows);
    InitCandidatesSpec(rows);
    if exists x :: InitEligible(rows, x) {
      var x :| InitEligible(rows, x);
      assert x in Singles(rows);
      assert x in c;
      assert x in w;
      assert x.event in Labels(w);
      DedupFirstLabels(w);
      assert x.event in Labels(q);
    }
    if |q| > 0 {
      DedupFirstSpec(w);
      assert q[0] in q;
      assert q[0] in w;
      assert q[0] in c;
      assert q[0] in Singles(rows);
      assert InitEligible(rows, q[0]);
    }
  }

  // ---------------------------------------------------------------------
  // FIFO read (data_read)
  // ---------------------------------------------------------------------

  /** The queue a read hint selects: `TR_2` is tested first, then `TR_1`, else `INIT`. */
  function QueueKey(hint: string): (key: QueueName)
    ensures key == TR2 <==> Contains(hint, "TR_2")
    ensures key == TR1 <==> !Contains(hint, "TR_2") && Contains(hint, "TR_1")
  {
    if Contains(hint, "TR_2") then TR2 else if Contains(hint, "TR_1") then TR1 else INIT
  }

  /** A row taken from a queue and the queues left behind. */
  datatype Popped = Popped(row: Record, queues: Queues)

  /**
   * `data_read`: the front row of the selected queue, and the queues with
   * that row removed; a missing queue raises `KeyError`, a placeholder
   * `TypeError`, an exhausted queue `IndexError`.
   */
  function Pop(dfs: Queues, hint: string): (r: Result<Popped>)
    ensures r.Ok? <==> dfs.Get(QueueKey(hint)).Some? && dfs.Get(QueueKey(hint)).value.Value? &&
                       |dfs.Get(QueueKey(hint)).value.value.rows| > 0
    ensures r.Ok? ==>
      var q := dfs.Get(QueueKey(hint)).value.value;
      && r.value.row == q.rows[0]
      && r.value.queues == dfs.Set(QueueKey(hint), Some(Value(Segment(q.columns, q.rows[1..]))))
  {
    var key := QueueKey(hint);
    match dfs.Get(key)
    case None => Err(KeyError)
    case Some(Placeholder) => Err(TypeError)
    case Some(Value(q)) =>
      if |q.rows| == 0 then Err(IndexError)
      else Ok(Popped(q.rows[0], dfs.Set(key, Some(Value(Segment(q.columns, q.rows[1..]))))))
  }

  /** The rows returned by a series of reads and the queues left behind. */
  datatype Drained = Drained(rows: seq<Record>, queues: Queues)

  /** A series of `data_read` calls, stopping at the first fault. */
  function ReadAll(dfs: Queues, hints: seq<string>): Result<Drained>
    decreases |hints|
  {
    if hints == [] then Ok(Drained([], dfs))
    else match Pop(dfs, hints[0])
      case Err(e) => Err(e)
      case Ok(p) =>
        match ReadAll(p.queues, hints[1..])
        case Err(e) => Err(e)
        case Ok(d) => Ok(Drained([p.row] + d.rows, d.queues))
  }

  /**
   * Reads that all select one queue return its rows front to back and
   * leave the rest of it; the other queues are untouched.
   */
  lemma {:induction false} ReadFifo(dfs: Queues, hints: seq<string>, key: QueueName,
                                    cols: seq<string>, rows: seq<Record>)
    requires dfs.Get(key) == Some(Value(Segment(cols, rows)))
    requires forall i :: 0 <= i < |hints| ==> QueueKey(hints[i]) == key
    requires |hints| <= |rows|
    ensures ReadAll(dfs, hints) ==
      Ok(Drained(rows[..|hints|], dfs.Set(key, Some(Value(Segment(cols, rows[|hints|..]))))))
    decreases |hints|
  {
    if hints != [] {
      var n := |hints|;
      var rest := rows[1..];
      var next := dfs.Set(key, Some(Value(Segment(cols, rest))));
      assert Pop(dfs, hints[0]) == Ok(Popped(rows[0], next));
      ReadFifo(next, hints[1..], key, cols, rest);
      var tail := ReadAll(next, hints[1..]);
      assert tail == Ok(Drained(rest[..n - 1], next.Set(key, Some(Value(Segment(cols, rest[n - 1..]))))));
      assert rest[..n - 1] == rows[1..n];
      assert rest[n - 1..] == rows[n..];
      assert [rows[0]] + rows[1..n] == rows[..n];
      SetTwice(dfs, key, Some(Value(Segment(cols, rest))), Some(Value(Segment(cols, rows[n..]))));
      assert ReadAll(dfs, hints) == Ok(Drained([rows[0]] + tail.value.rows, tail.value.queues));
    } else {
      assert rows[0..] == rows;
      SetSame(dfs, key);
    }
  }

  /** A second write under a key overrides the first. */
  lemma SetTwice(dfs: Queues, key: QueueName, a: Option<Slot<Segment>>, b: Option<Slot<Segment>>)
    ensures dfs.Set(key, a).Set(key, b) == dfs.Set(key, b)
  {
  }

  /** Writing back what a key holds changes nothing. */
  lemma SetSame(dfs: Queues, key: QueueName)
    ensures dfs.Set(key, dfs.Get(key)) == dfs
  {
  }

  /** One read more than the selected queue holds raises `IndexError`. */
  lemma {:induction false} ReadExhausted(dfs: Queues, hints: seq<string>, key: QueueName,
                                         cols: seq<string>, rows: seq<Record>)
    requires dfs.Get(key) == Some(Value(Segment(cols, rows)))
    requires forall i :: 0 <= i < |hints| ==> QueueKey(hints[i]) == key
    requires |hints| == |rows| + 1
    ensures ReadAll(dfs, hints) == Err(IndexError)
    decreases |hints|
  {
    if rows != [] {
      var next := dfs.Set(key, Some(Value(Segment(cols, rows[1..]))));
      assert Pop(dfs, hints[0]) == Ok(Popped(rows[0], next));
      ReadExhausted(next, hints[1..], key, cols, rows[1..]);
    }
  }

  // ---------------------------------------------------------------------
  // The table new_csv_dfs prepares
  // ---------------------------------------------------------------------

  /** Dropping leading rows keeps a table well formed. */
  lemma SuffixWellFormed(t: Table, d: nat)
    requires WellFormed(t) && d <= |t.rows|
    ensures WellFormed(t.(rows := t.rows[d..]))
  {
    var r := t.(rows := t.rows[d..]);
    forall k | 0 <= k < |r.rows| ensures r.rows[k].cells.Keys == ColumnSet(r.columns) {
      assert r.rows[k] == t.rows[d + k];
    }
  }

  /** The table `new_csv_dfs` ends with and whether it got through to the queues. */
  datatype Prepared = Prepared(table: Table, outcome: Outcome)

  /**
   * Column filter, optional perturbation by `factors`, then the trim of
   * leading transient rows, stopping at the first fault.
   */
  function Prepare(raw: Table, factors: Option<FactorTable>): (p: Prepared)
    requires WellFormed(raw)
    requires factors.Some? ==> FactorsFor(factors.value, FilterColumns(raw))
    ensures WellFormed(p.table)
    ensures p.outcome.Pass? ==> |p.table.rows| > 0 && !IsTransient(p.table.rows[0])
  {
    var filtered := FilterColumns(raw);
    var scaled := if factors.Some? then Perturbed(filtered, factors.value) else filtered;
    assert WellFormed(scaled) by {
      if factors.Some? {
        ScaleWellFormed(filtered, factors.value, factors.value.factors.Keys);
      }
    }
    if factors.Some? && PerturbFails(filtered, factors.value) then Prepared(scaled, Fail(TypeError))
    else
      TrimLeadingSpec(scaled.rows);
      match TrimLeading(scaled.rows)
      case Err(e) => Prepared(scaled.(rows := []), Fail(e))
      case Ok(rows) =>
        SuffixWellFormed(scaled, |scaled.rows| - |rows|);
        Prepared(scaled.(rows := rows), Pass)
  }

  /**
   * `p` is what `Prepare(raw, factors)` yields. The equation is stated
   * under a quantifier so that a proof unfolds the preparation only when
   * it mentions `Prepare` itself.
   */
  predicate PreparedAs(raw: Table, factors: Option<FactorTable>, p: Prepared)
    requires WellFormed(raw)
    requires factors.Some? ==> FactorsFor(factors.value, FilterColumns(raw))
  {
    forall f {:trigger Prepare(raw, f)} :: f == factors ==> Prepare(raw, f) == p
  }

  /** `q` is what segmenting `t` and popping the empty queues yields (stated like `PreparedAs`). */
  predicate SegmentedAs(t: Table, q: Queues)
  {
    forall u {:trigger Segments(u)} :: u == t ==> RemoveEmpty(Segments(u)) == q
  }

  /** `Prepare` when the perturbation reaches the event column of a non-empty table. */
  lemma PrepareFails(raw: Table, f: FactorTable)
    requires WellFormed(raw) && FactorsFor(f, FilterColumns(raw)) && PerturbFails(FilterColumns(raw), f)
    ensures Prepare(raw, Some(f)) == Prepared(Perturbed(FilterColumns(raw), f), Fail(TypeError))
  {
  }

  /** `Prepare` once the (possibly perturbed) table is in hand: the outcome of trimming its rows. */
  lemma PrepareTrims(raw: Table, factors: Option<FactorTable>)
    requires WellFormed(raw)
    requires factors.Some? ==> FactorsFor(factors.value, FilterColumns(raw)) && !PerturbFails(FilterColumns(raw), factors.value)
    ensures var scaled := if factors.Some? then Perturbed(FilterColumns(raw), factors.value) else FilterColumns(raw);
      && (TrimLeading(scaled.rows).Err? ==> Prepare(raw, factors) == Prepared(scaled.(rows := []), Fail(IndexError)))
      && (TrimLeading(scaled.rows).Ok? ==>
            Prepare(raw, factors) == Prepared(scaled.(rows := TrimLeading(scaled.rows).value), Pass))
  {
  }
}
