/**
 * The pandas tables the simulators read from trial files, abstracted to
 * what the code looks at: the column names, and per row the numeric
 * cells and the event label. Also the row filters and the two kinds of
 * `drop_duplicates` the simulators use.
 */
module Frames {

  /** The numeric cells of one row, by column name (a row without its event column). */
  type Record = map<string, real>

  /** One row of a trial file: its numeric cells and its event label. */
  datatype Row = Row(cells: Record, event: string)

  /**
   * A table as `pd.read_csv` returns it: the numeric columns in file order,
   * the name of the event-label column, and the rows.
   */
  datatype Table = Table(columns: seq<string>, eventColumn: string, rows: seq<Row>)

  /** `list(df.columns)`: the event column is the last one of the file. */
  function AllColumns(t: Table): seq<string>
  {
    t.columns + [t.eventColumn]
  }

  predicate Distinct<T(==)>(s: seq<T>)
  {
    forall i, j :: 0 <= i < j < |s| ==> s[i] != s[j]
  }

  /** The set of names in a column list. */
  function ColumnSet(cols: seq<string>): set<string>
  {
    set c | c in cols
  }

  /**
   * What `read_csv` guarantees of a table: column names are distinct and
   * every row has a cell for each numeric column and for no other name.
   */
  predicate WellFormed(t: Table)
  {
    && Distinct(AllColumns(t))
    && forall k :: 0 <= k < |t.rows| ==> t.rows[k].cells.Keys == ColumnSet(t.columns)
  }

  /** The numeric columns of a well-formed table are distinct and differ from the event column. */
  lemma NumericColumns(t: Table)
    requires Distinct(AllColumns(t))
    ensures Distinct(t.columns) && t.eventColumn !in t.columns
  {
    var a := AllColumns(t);
    forall i, j | 0 <= i < j < |t.columns| ensures t.columns[i] != t.columns[j] {
      assert a[i] == t.columns[i] && a[j] == t.columns[j];
    }
    forall m | 0 <= m < |t.columns| ensures t.columns[m] != t.eventColumn {
      assert a[m] == t.columns[m] && a[|t.columns|] == t.eventColumn;
    }
  }

  /** The elements of `s` that satisfy `p`, in order (boolean-mask indexing). */
  function Filter<T(!new)>(s: seq<T>, p: T -> bool): (r: seq<T>)
    ensures |r| <= |s|
    ensures forall x {:trigger x in r} :: x in r <==> x in s && p(x)
    decreases |s|
  {
    if s == [] then []
    else
      var init, last := s[..|s| - 1], s[|s| - 1];
      assert s == init + [last];
      Filter(init, p) + (if p(last) then [last] else [])
  }

  /** Filtering keeps every copy of an accepted element and no copy of a rejected one. */
  lemma {:induction false} FilterCount<T(!new)>(s: seq<T>, p: T -> bool, x: T)
    ensures multiset(Filter(s, p))[x] == if p(x) then multiset(s)[x] else 0
    decreases |s|
  {
    if s != [] {
      var init, last := s[..|s| - 1], s[|s| - 1];
      assert s == init + [last];
      FilterCount(init, p, x);
      assert multiset(s) == multiset(init) + multiset{last};
    }
  }

  /** Filtering a concatenation filters each part. */
  lemma {:induction false} FilterAppend<T(!new)>(a: seq<T>, b: seq<T>, p: T -> bool)
    ensures Filter(a + b, p) == Filter(a, p) + Filter(b, p)
    decreases |b|
  {
    if b == [] {
      assert a + b == a;
    } else {
      var init, last := b[..|b| - 1], b[|b| - 1];
      assert a + b == (a + init) + [last];
      assert (a + b)[..|a + b| - 1] == a + init;
      FilterAppend(a, init, p);
    }
  }

  /** Filtering twice is filtering once by both tests. */
  lemma {:induction false} FilterFilter<T(!new)>(s: seq<T>, p: T -> bool, q: T -> bool, pq: T -> bool)
    requires forall x :: pq(x) == (p(x) && q(x))
    ensures Filter(Filter(s, p), q) == Filter(s, pq)
    decreases |s|
  {
    if s != [] {
      var init, last := s[..|s| - 1], s[|s| - 1];
      FilterFilter(init, p, q, pq);
      FilterAppend(Filter(init, p), if p(last) then [last] else [], q);
    }
  }

  /** Two tests that agree on every element of `s` select the same rows. */
  lemma {:induction false} FilterCongruent<T(!new)>(s: seq<T>, p: T -> bool, q: T -> bool)
    requires forall x :: x in s ==> p(x) == q(x)
    ensures Filter(s, p) == Filter(s, q)
    decreases |s|
  {
    if s != [] {
      var init := s[..|s| - 1];
      assert forall x :: x in init ==> x in s;
      FilterCongruent(init, p, q);
    }
  }

  /** A test that accepts every element keeps the sequence whole. */
  lemma {:induction false} FilterAll<T(!new)>(s: seq<T>, p: T -> bool)
    requires forall x :: x in s ==> p(x)
    ensures Filter(s, p) == s
    decreases |s|
  {
    if s != [] {
      var init, last := s[..|s| - 1], s[|s| - 1];
      assert s == init + [last];
      forall x | x in init ensures p(x) {
        assert x in s;
      }
      FilterAll(init, p);
      assert p(last);
      assert Filter(s, p) == Filter(init, p) + [last];
    }
  }

  /** The event labels that occur in `s`. */
  function Labels(s: seq<Row>): set<string>
  {
    set r | r in s :: r.event
  }

  lemma LabelsAppend(a: seq<Row>, b: seq<Row>)
    ensures Labels(a + b) == Labels(a) + Labels(b)
  {
    forall l | l in Labels(a + b) ensures l in Labels(a) + Labels(b) {
      var r :| r in a + b && r.event == l;
    }
  }

  /** Position of the first row of `s` labelled `label`. */
  function FirstIndex(s: seq<Row>, tag: string): (i: nat)
    requires tag in Labels(s)
    ensures i < |s| && s[i].event == tag
    ensures forall j :: 0 <= j < i ==> s[j].event != tag
    decreases |s|
  {
    var init := s[..|s| - 1];
    assert s == init + [s[|s| - 1]];
    LabelsAppend(init, [s[|s| - 1]]);
    if tag in Labels(init) then FirstIndex(init, tag)
    else
      assert forall j :: 0 <= j < |init| ==> init[j] in init;
      |s| - 1
  }

  /** Position of the last row of `s` labelled `label`. */
  function LastIndex(s: seq<Row>, tag: string): (i: nat)
    requires tag in Labels(s)
    ensures i < |s| && s[i].event == tag
    ensures forall j :: i < j < |s| ==> s[j].event != tag
    decreases |s|
  {
    var rest := s[1..];
    assert s == [s[0]] + rest;
    LabelsAppend([s[0]], rest);
    if tag in Labels(rest) then LastIndex(rest, tag) + 1
    else
      assert forall j :: 0 <= j < |rest| ==> rest[j] in rest;
      0
  }

  /** No two rows of `s` carry the same label. */
  predicate DistinctLabels(s: seq<Row>)
  {
    forall i, j :: 0 <= i < j < |s| ==> s[i].event != s[j].event
  }

  /** `drop_duplicates(subset=<event>, keep='first')`. */
  function DedupFirst(s: seq<Row>): (r: seq<Row>)
    decreases |s|
  {
    if s == [] then []
    else
      var init, last := s[..|s| - 1], s[|s| - 1];
      DedupFirst(init) + (if last.event in Labels(init) then [] else [last])
  }

  /** `keep='first'` keeps every label that occurs. */
  lemma {:induction false} DedupFirstLabels(s: seq<Row>)
    ensures Labels(DedupFirst(s)) == Labels(s)
    decreases |s|
  {
    if s != [] {
      var init, last := s[..|s| - 1], s[|s| - 1];
      assert s == init + [last];
      LabelsAppend(init, [last]);
      DedupFirstLabels(init);
      LabelsAppend(DedupFirst(init), if last.event in Labels(init) then [] else [last]);
    }
  }


  /** Appending a row does not move the first occurrence of a label already present. */
  lemma FirstIndexAppend(init: seq<Row>, last: Row, tag: string)
    requires tag in Labels(init)
    ensures tag in Labels(init + [last]) && FirstIndex(init + [last], tag) == FirstIndex(init, tag)
  {
    var s := init + [last];
    var i := FirstIndex(init, tag);
    assert s[i] == init[i];
    forall j | 0 <= j < i ensures s[j].event != tag {
      assert s[j] == init[j];
    }
    FirstIndexIs(s, tag, i);
  }

  /** The `k`-th row kept by `keep='first'` is the first row of `s` with its label. */
  lemma {:induction false} DedupFirstAt(s: seq<Row>, k: nat)
    requires k < |DedupFirst(s)|
    ensures DedupFirst(s)[k].event in Labels(s)
    ensures DedupFirst(s)[k] == s[FirstIndex(s, DedupFirst(s)[k].event)]
    decreases |s|
  {
    var init, last := s[..|s| - 1], s[|s| - 1];
    assert s == init + [last];
    var d := DedupFirst(init);
    assert DedupFirst(s) == d + (if last.event in Labels(init) then [] else [last]);
    if k < |d| {
      DedupFirstAt(init, k);
      FirstIndexAppend(init, last, d[k].event);
      assert s[FirstIndex(init, d[k].event)] == init[FirstIndex(init, d[k].event)];
    } else {
      FirstIndexOfNew(init, last);
    }
  }

  /**
   * When every row labelled `tag` passes `p`, the first row labelled `tag`
   * after filtering is the first one before.
   */
  lemma {:induction false} FirstIndexFilter(s: seq<Row>, p: Row -> bool, tag: string)
    requires tag in Labels(s)
    requires forall x :: x in s && x.event == tag ==> p(x)
    ensures tag in Labels(Filter(s, p))
    ensures Filter(s, p)[FirstIndex(Filter(s, p), tag)] == s[FirstIndex(s, tag)]
    decreases |s|
  {
    var init, last := s[..|s| - 1], s[|s| - 1];
    assert s == init + [last];
    LabelsAppend(init, [last]);
    if tag in Labels(init) {
      forall x | x in init && x.event == tag ensures p(x) {
        assert x in s;
      }
      FirstIndexFilter(init, p, tag);
      FirstIndexFilterOld(init, last, p, tag);
    } else {
      assert last.event == tag && last in s;
      FirstIndexFilterNew(init, last, p);
    }
  }

  /** One step of `FirstIndexFilter` for a label already present before `last`. */
  lemma FirstIndexFilterOld(init: seq<Row>, last: Row, p: Row -> bool, tag: string)
    requires tag in Labels(init) && tag in Labels(Filter(init, p))
    requires Filter(init, p)[FirstIndex(Filter(init, p), tag)] == init[FirstIndex(init, tag)]
    ensures tag in Labels(Filter(init + [last], p))
    ensures Filter(init + [last], p)[FirstIndex(Filter(init + [last], p), tag)]
      == (init + [last])[FirstIndex(init + [last], tag)]
  {
    var s := init + [last];
    assert s[..|s| - 1] == init;
    var f := Filter(init, p);
    var fs := Filter(s, p);
    assert fs == f + (if p(last) then [last] else []);
    FirstIndexAppend(init, last, tag);
    var i := FirstIndex(init, tag);
    assert s[i] == init[i];
    var j := FirstIndex(f, tag);
    if p(last) {
      FirstIndexAppend(f, last, tag);
      assert fs[j] == f[j];
    } else {
      assert fs == f;
    }
  }

  /** One step of `FirstIndexFilter` for the label `last` brings in. */
  lemma FirstIndexFilterNew(init: seq<Row>, last: Row, p: Row -> bool)
    requires last.event !in Labels(init) && p(last)
    ensures last.event in Labels(Filter(init + [last], p))
    ensures Filter(init + [last], p)[FirstIndex(Filter(init + [last], p), last.event)]
      == (init + [last])[FirstIndex(init + [last], last.event)]
  {
    var s := init + [last];
    assert s[..|s| - 1] == init;
    var f := Filter(init, p);
    assert Filter(s, p) == f + [last];
    assert last.event !in Labels(f) by {
      forall x | x in f ensures x.event != last.event {
        assert x in init;
      }
    }
    FirstIndexOfNew(init, last);
    FirstIndexOfNew(f, last);
  }

  /** Appending a row with another label does not move the last occurrence of `tag`. */
  lemma LastIndexAppend(init: seq<Row>, last: Row, tag: string)
    requires tag in Labels(init) && last.event != tag
    ensures tag in Labels(init + [last]) && LastIndex(init + [last], tag) == LastIndex(init, tag)
  {
    var s := init + [last];
    var i := LastIndex(init, tag);
    assert s[i] == init[i];
    forall j | i < j < |s| ensures s[j].event != tag {
      if j < |init| {
        assert s[j] == init[j];
      }
    }
    LastIndexIs(s, tag, i);
  }

  /**
   * When every row labelled `tag` passes `p`, the last row labelled `tag`
   * after filtering is the last one before.
   */
  lemma {:induction false} LastIndexFilter(s: seq<Row>, p: Row -> bool, tag: string)
    requires tag in Labels(s)
    requires forall x :: x in s && x.event == tag ==> p(x)
    ensures tag in Labels(Filter(s, p))
    ensures Filter(s, p)[LastIndex(Filter(s, p), tag)] == s[LastIndex(s, tag)]
    decreases |s|
  {
    var init, last := s[..|s| - 1], s[|s| - 1];
    assert s == init + [last];
    var f := Filter(init, p);
    var fs := Filter(s, p);
    assert fs == f + (if p(last) then [last] else []);
    LabelsAppend(init, [last]);
    if last.event == tag {
      assert p(last) && fs == f + [last];
      LastIndexIs(s, tag, |s| - 1);
      LastIndexIs(fs, tag, |fs| - 1);
      assert fs[|fs| - 1] == last;
    } else {
      assert tag in Labels(init);
      assert forall x :: x in init ==> x in s;
      LastIndexFilter(init, p, tag);
      LastIndexAppend(init, last, tag);
      var i := LastIndex(init, tag);
      assert s[i] == init[i];
      var j := LastIndex(f, tag);
      assert f[j] == init[i];
      if p(last) {
        LastIndexAppend(f, last, tag);
        assert fs[j] == f[j];
      } else {
        assert fs == f;
      }
    }
  }

  /** A row whose label is new has its own position as first occurrence. */
  lemma FirstIndexOfNew(init: seq<Row>, last: Row)
    requires last.event !in Labels(init)
    ensures last.event in Labels(init + [last]) && FirstIndex(init + [last], last.event) == |init|
  {
    var s := init + [last];
    forall j | 0 <= j < |init| ensures s[j].event != last.event {
      assert s[j] == init[j] && init[j] in init;
    }
    FirstIndexIs(s, last.event, |init|);
  }

  /** `keep='first'` keeps the surviving rows in the order they have in `s`. */
  lemma {:induction false} DedupFirstInOrder(s: seq<Row>, i: nat, j: nat)
    requires i < j < |DedupFirst(s)|
    ensures DedupFirst(s)[i].event in Labels(s) && DedupFirst(s)[j].event in Labels(s)
    ensures FirstIndex(s, DedupFirst(s)[i].event) < FirstIndex(s, DedupFirst(s)[j].event)
    decreases |s|
  {
    var init, last := s[..|s| - 1], s[|s| - 1];
    assert s == init + [last];
    var d := DedupFirst(init);
    assert DedupFirst(s) == d + (if last.event in Labels(init) then [] else [last]);
    DedupFirstAt(init, i);
    FirstIndexAppend(init, last, d[i].event);
    if j < |d| {
      DedupFirstInOrder(init, i, j);
      FirstIndexAppend(init, last, d[j].event);
    } else {
      FirstIndexOfNew(init, last);
    }
  }

  /** A position holding `label` with no earlier `label` before it is the first index. */
  lemma FirstIndexIs(s: seq<Row>, tag: string, i: nat)
    requires i < |s| && s[i].event == tag
    requires forall j :: 0 <= j < i ==> s[j].event != tag
    ensures tag in Labels(s) && FirstIndex(s, tag) == i
  {
    assert s[i] in s;
    var f := FirstIndex(s, tag);
    assert s[f].event == tag && s[i].event == tag;
  }

  /** A position holding `label` with no later `label` after it is the last index. */
  lemma LastIndexIs(s: seq<Row>, tag: string, i: nat)
    requires i < |s| && s[i].event == tag
    requires forall j :: i < j < |s| ==> s[j].event != tag
    ensures tag in Labels(s) && LastIndex(s, tag) == i
  {
    assert s[i] in s;
    var f := LastIndex(s, tag);
    assert s[f].event == tag && s[i].event == tag;
  }

  /** `drop_duplicates(subset=<event>, keep='last')`. */
  function DedupLast(s: seq<Row>): (r: seq<Row>)
    decreases |s|
  {
    if s == [] then []
    else (if s[0].event in Labels(s[1..]) then [] else [s[0]]) + DedupLast(s[1..])
  }

  /** `keep='last'` keeps every label that occurs. */
  lemma {:induction false} DedupLastLabels(s: seq<Row>)
    ensures Labels(DedupLast(s)) == Labels(s)
    decreases |s|
  {
    if s != [] {
      var head, rest := s[0], s[1..];
      assert s == [head] + rest;
      LabelsAppend([head], rest);
      var kept := if head.event in Labels(rest) then [] else [head];
      DedupLastLabels(rest);
      LabelsAppend(kept, DedupLast(rest));
    }
  }


  /** The last occurrence of a label found after the first row is one past its last occurrence there. */
  lemma LastIndexTail(s: seq<Row>, tag: string)
    requires |s| > 0 && tag in Labels(s[1..])
    ensures tag in Labels(s) && LastIndex(s, tag) == LastIndex(s[1..], tag) + 1
  {
    assert s == [s[0]] + s[1..];
    LabelsAppend([s[0]], s[1..]);
  }

  /** A first row whose label does not occur later is the last occurrence of it. */
  lemma LastIndexOfHead(s: seq<Row>)
    requires |s| > 0 && s[0].event !in Labels(s[1..])
    ensures s[0].event in Labels(s) && LastIndex(s, s[0].event) == 0
  {
    var rest := s[1..];
    forall j | 0 < j < |s| ensures s[j].event != s[0].event {
      assert s[j] == rest[j - 1] && rest[j - 1] in rest;
    }
    LastIndexIs(s, s[0].event, 0);
  }

  /** The `k`-th row kept by `keep='last'` is the last row of `s` with its label. */
  lemma {:induction false} DedupLastAt(s: seq<Row>, k: nat)
    requires k < |DedupLast(s)|
    ensures DedupLast(s)[k].event in Labels(s)
    ensures DedupLast(s)[k] == s[LastIndex(s, DedupLast(s)[k].event)]
    decreases |s|
  {
    var rest := s[1..];
    var kept := if s[0].event in Labels(rest) then [] else [s[0]];
    var d := DedupLast(rest);
    assert DedupLast(s) == kept + d;
    if k < |kept| {
      LastIndexOfHead(s);
    } else {
      var k' := k - |kept|;
      DedupLastAt(rest, k');
      var tag := d[k'].event;
      var li := LastIndex(rest, tag);
      LastIndexTail(s, tag);
      assert DedupLast(s)[k] == d[k'];
      assert s[li + 1] == rest[li];
    }
  }

  /** The `k`-th kept row of `s`, in terms of the rows kept from `s[1..]`. */
  lemma DedupLastStep(s: seq<Row>, k: nat)
    requires k < |DedupLast(s)|
    ensures s[0].event in Labels(s[1..]) ==> DedupLast(s)[k] == DedupLast(s[1..])[k]
    ensures s[0].event !in Labels(s[1..]) && k == 0 ==> DedupLast(s)[k] == s[0]
    ensures s[0].event !in Labels(s[1..]) && k > 0 ==> DedupLast(s)[k] == DedupLast(s[1..])[k - 1]
  {
  }

  /** `keep='last'` keeps the surviving rows in the order they have in `s`. */
  lemma {:induction false} DedupLastInOrder(s: seq<Row>, i: nat, j: nat)
    requires i < j < |DedupLast(s)|
    ensures DedupLast(s)[i].event in Labels(s) && DedupLast(s)[j].event in Labels(s)
    ensures LastIndex(s, DedupLast(s)[i].event) < LastIndex(s, DedupLast(s)[j].event)
    decreases |s|
  {
    var rest := s[1..];
    var d := DedupLast(rest);
    var r := DedupLast(s);
    DedupLastStep(s, i);
    DedupLastStep(s, j);
    if s[0].event in Labels(rest) {
      var a, b := d[i].event, d[j].event;
      assert r[i].event == a && r[j].event == b;
      DedupLastInOrder(rest, i, j);
      ShiftedOrder(s, a, b);
    } else if i == 0 {
      var b := d[j - 1].event;
      assert r[i] == s[0] && r[j].event == b;
      HeadBeforeKept(s, j - 1);
    } else {
      var i', j' := i - 1, j - 1;
      var a, b := d[i'].event, d[j'].event;
      assert r[i].event == a && r[j].event == b;
      DedupLastInOrder(rest, i', j');
      ShiftedOrder(s, a, b);
    }
  }


  /** A first row that `keep='last'` keeps comes before every row kept after it. */
  lemma HeadBeforeKept(s: seq<Row>, k: nat)
    requires |s| > 0 && s[0].event !in Labels(s[1..]) && k < |DedupLast(s[1..])|
    ensures var tag := DedupLast(s[1..])[k].event;
      s[0].event in Labels(s) && tag in Labels(s) && LastIndex(s, s[0].event) < LastIndex(s, tag)
  {
    var tag := DedupLast(s[1..])[k].event;
    DedupLastAt(s[1..], k);
    LastIndexTail(s, tag);
    LastIndexOfHead(s);
  }



  /** Last occurrences found after the first row keep their order in the whole of `s`. */
  lemma ShiftedOrder(s: seq<Row>, a: string, b: string)
    requires |s| > 0 && a in Labels(s[1..]) && b in Labels(s[1..])
    requires LastIndex(s[1..], a) < LastIndex(s[1..], b)
    ensures a in Labels(s) && b in Labels(s) && LastIndex(s, a) < LastIndex(s, b)
  {
    LastIndexTail(s, a);
    LastIndexTail(s, b);
  }

  /** Rows kept by `keep='first'` are rows of `s`, and no two of them share a label. */
  lemma DedupFirstSpec(s: seq<Row>)
    ensures forall x :: x in DedupFirst(s) ==> x in s
    ensures DistinctLabels(DedupFirst(s))
  {
    var d := DedupFirst(s);
    forall x | x in d ensures x in s {
      var k :| 0 <= k < |d| && d[k] == x;
      DedupFirstAt(s, k);
    }
    forall i, j | 0 <= i < j < |d| ensures d[i].event != d[j].event {
      DedupFirstInOrder(s, i, j);
    }
  }

  /** Rows kept by `keep='last'` are rows of `s`, and no two of them share a label. */
  lemma DedupLastSpec(s: seq<Row>)
    ensures forall x :: x in DedupLast(s) ==> x in s
    ensures DistinctLabels(DedupLast(s))
  {
    var d := DedupLast(s);
    forall x | x in d ensures x in s {
      var k :| 0 <= k < |d| && d[k] == x;
      DedupLastAt(s, k);
    }
    forall i, j | 0 <= i < j < |d| ensures d[i].event != d[j].event {
      DedupLastInOrder(s, i, j);
    }
  }

  /** How many times `x` occurs in `s`, as pandas' `duplicated` counts whole rows. */
  function Occurrences(s: seq<Row>, x: Row): nat
  {
    multiset(s)[x]
  }

  /**
   * `drop_duplicates(keep=False)`: every row that occurs more than once
   * (all columns compared, index ignored) is dropped, all its copies.
   */
  function DropAllDuplicates(s: seq<Row>): (r: seq<Row>)
  {
    Filter(s, x => Occurrences(s, x) == 1)
  }

  /** The rows kept by `drop_duplicates(keep=False)` are exactly those that occur once. */
  lemma DropAllDuplicatesSpec(s: seq<Row>)
    ensures var r := DropAllDuplicates(s);
      && (forall x :: x in r <==> x in s && Occurrences(s, x) == 1)
      && (forall x :: Occurrences(r, x) <= 1)
  {
    var r := DropAllDuplicates(s);
    forall x ensures Occurrences(r, x) <= 1 {
      FilterCount(s, y => Occurrences(s, y) == 1, x);
    }
  }

  /** `drop(columns=<event>)` on a list of rows. */
  function StripEvent(rows: seq<Row>): (r: seq<Record>)
    ensures |r| == |rows|
    ensures forall k :: 0 <= k < |rows| ==> r[k] == rows[k].cells
  {
    seq(|rows|, k requires 0 <= k < |rows| => rows[k].cells)
  }
}
