/** The rows of a computed model: the cells of its derived measures one after
    another, read by range and streamed in batches. */
module CellRows {
  import opened Integers

  type Cell = nat

  /** A row: the measure it belongs to and its cell. */
  datatype Row = Row(measure: string, cell: Cell)

  /** A derived measure's name and its sorted cells. */
  datatype Column = Column(name: string, cells: seq<Cell>)

  function RowsOf(c: Column): (rows: seq<Row>)
    ensures |rows| == |c.cells|
    ensures forall i :: 0 <= i < |rows| ==> rows[i] == Row(c.name, c.cells[i])
  {
    seq(|c.cells|, i requires 0 <= i < |c.cells| => Row(c.name, c.cells[i]))
  }

  /** Every row, in order. */
  function AllRows(columns: seq<Column>): seq<Row> {
    if columns == [] then [] else RowsOf(columns[0]) + AllRows(columns[1..])
  }

  /** How many cells stand before measure `k`. */
  function StartOf(columns: seq<Column>, k: nat): nat
    requires k <= |columns|
  {
    if k == 0 then 0 else StartOf(columns, k - 1) + |columns[k - 1].cells|
  }

  /** Appends where each measure starts, and the total. */
  method Starts(columns: seq<Column>) returns (starts: seq<nat>)
    ensures |starts| == |columns| + 1
    ensures forall k :: 0 <= k <= |columns| ==> starts[k] == StartOf(columns, k)
  {
    starts := [0];
    for i := 0 to |columns|
      invariant |starts| == i + 1
      invariant forall k :: 0 <= k <= i ==> starts[k] == StartOf(columns, k)
    {
      starts := starts + [starts[|starts| - 1] + |columns[i].cells|];
    }
  }

  /** The computed cells, as `Cells` keeps them. */
  class Cells {
    var measures: seq<Column>
    /** Row number of each measure's first cell, and the total. */
    var starts: seq<nat>

    ghost predicate Valid()
      reads this
    {
      && |starts| == |measures| + 1
      && forall k :: 0 <= k <= |measures| ==> starts[k] == StartOf(measures, k)
    }

    constructor (columns: seq<Column>)
      ensures Valid() && measures == columns
    {
      var at := Starts(columns);
      measures, starts := columns, at;
    }

    /** The number of rows. */
    method Len() returns (n: nat)
      requires Valid()
      ensures n == |AllRows(measures)|
    {
      n := starts[|starts| - 1];
      StartIsLength(measures);
    }

    /** How many of the starts are at most `row`: they are sorted, so those are the first ones. */
    method PartitionPoint(row: nat) returns (p: nat)
      requires Valid()
      ensures p <= |starts|
      ensures forall k :: 0 <= k < p ==> starts[k] <= row
      ensures p < |starts| ==> starts[p] > row
    {
      p := 0;
      while p < |starts| && starts[p] <= row
        invariant p <= |starts| && forall k :: 0 <= k < p ==> starts[k] <= row
      {
        p := p + 1;
      }
    }

    /** The measure in which row `start` falls, or the end when it is past the last row. */
    method FirstMeasure(start: nat) returns (first: nat)
      requires Valid()
      ensures first <= |measures|
      ensures first > 0 ==> StartOf(measures, first) <= start
      ensures start > |AllRows(measures)| ==> first == |measures|
    {
      var p := PartitionPoint(start);
      first := (if p >= 1 then p else 1) - 1;
      first := Min(first, |measures|);
      StartIsLength(measures);
      if p < |starts| {
        StartsGrow(measures, p, |measures|);
      }
    }

    /** Rows `start..end`, cut off at the last row. */
    method Range(start: nat, end: nat) returns (rows: seq<Row>)
      requires Valid() && start <= end
      ensures rows == Slice(AllRows(measures), start, end)
    {
      var total := Len();
      var stop := Min(end, total);
      var first := FirstMeasure(start);
      rows := [];
      for k := first to |measures|
        invariant rows == PartsOf(measures, start, stop, first, k)
      {
        var cells := measures[k].cells;
        var lo := Min(SaturatingSub(start, starts[k]), |cells|);
        var hi := Min(SaturatingSub(stop, starts[k]), |cells|);
        assert RowsOf(measures[k])[lo..hi] == Part(measures, start, stop, k);
        rows := rows + RowsOf(measures[k])[lo..hi];
      }
      SkipIsSafe(measures, start, stop, first);
      PartsAreSlice(measures, start, stop);
    }
  }

  /** `s[start..end]` with the end cut off at the length, empty when they cross. */
  function Slice<T>(s: seq<T>, start: nat, end: nat): seq<T> {
    if start <= Min(end, |s|) then s[start..Min(end, |s|)] else []
  }

  lemma {:induction false} AllRowsSnoc(columns: seq<Column>, c: Column)
    ensures AllRows(columns + [c]) == AllRows(columns) + RowsOf(c)
  {
    if columns == [] {
      assert (columns + [c])[1..] == [];
    } else {
      AllRowsSnoc(columns[1..], c);
      assert (columns + [c])[1..] == columns[1..] + [c];
    }
  }

  lemma {:induction false} StartOfPrefix(columns: seq<Column>, k: nat)
    requires k <= |columns|
    ensures |AllRows(columns[..k])| == StartOf(columns, k)
  {
    if k > 0 {
      StartOfPrefix(columns, k - 1);
      assert columns[..k] == columns[..k - 1] + [columns[k - 1]];
      AllRowsSnoc(columns[..k - 1], columns[k - 1]);
    }
  }

  lemma StartIsLength(columns: seq<Column>)
    ensures StartOf(columns, |columns|) == |AllRows(columns)|
  {
    StartOfPrefix(columns, |columns|);
    assert columns[..|columns|] == columns;
  }

  /** What measure `k` gives to the range: its rows between the two bounds, seen from its start. */
  function Part(columns: seq<Column>, start: nat, stop: nat, k: nat): seq<Row>
    requires k < |columns|
  {
    var at := StartOf(columns, k);
    var n := |columns[k].cells|;
    var lo, hi := Min(SaturatingSub(start, at), n), Min(SaturatingSub(stop, at), n);
    if lo < hi then RowsOf(columns[k])[lo..hi] else []
  }

  function PartsOf(columns: seq<Column>, start: nat, stop: nat, first: nat, k: nat): seq<Row>
    requires first <= k <= |columns|
    decreases k
  {
    if k == first then [] else PartsOf(columns, start, stop, first, k - 1) + Part(columns, start, stop, k - 1)
  }

  lemma PartsStep(columns: seq<Column>, start: nat, stop: nat, first: nat, k: nat)
    requires first < k <= |columns|
    ensures PartsOf(columns, start, stop, first, k)
         == PartsOf(columns, start, stop, first, k - 1) + Part(columns, start, stop, k - 1)
  {
  }

  lemma {:induction false} StartsGrow(columns: seq<Column>, i: nat, j: nat)
    requires i <= j <= |columns|
    ensures StartOf(columns, i) <= StartOf(columns, j)
  {
    if i < j {
      StartsGrow(columns, i, j - 1);
    }
  }

  /** The rows before measure `k` that fall in the range are the parts so far. */
  lemma {:induction false} PartsArePrefix(columns: seq<Column>, start: nat, stop: nat, k: nat)
    requires k <= |columns|
    ensures PartsOf(columns, start, stop, 0, k) == Slice(AllRows(columns[..k]), start, stop)
  {
    if k == 0 {
      assert columns[..k] == [];
    } else {
      PartsArePrefix(columns, start, stop, k - 1);
      PartExtends(columns, start, stop, k - 1);
    }
  }

  lemma PartExtends(columns: seq<Column>, start: nat, stop: nat, k: nat)
    requires k < |columns|
    ensures Slice(AllRows(columns[..k + 1]), start, stop)
         == Slice(AllRows(columns[..k]), start, stop) + Part(columns, start, stop, k)
  {
    StartOfPrefix(columns, k);
    assert columns[..k + 1] == columns[..k] + [columns[k]];
    AllRowsSnoc(columns[..k], columns[k]);
    SliceConcat(AllRows(columns[..k]), RowsOf(columns[k]), start, stop);
  }

  lemma SliceConcat<T>(a: seq<T>, b: seq<T>, start: nat, stop: nat)
    ensures var lo, hi := Min(SaturatingSub(start, |a|), |b|), Min(SaturatingSub(stop, |a|), |b|);
            Slice(a + b, start, stop) == Slice(a, start, stop) + (if lo < hi then b[lo..hi] else [])
  {
    if stop <= |a| {
      SliceWithin(a, b, start, stop);
    } else if start >= |a| {
      SliceBeyond(a, b, start - |a|, stop - |a|);
    } else {
      SliceAcross(a, b, start, Min(stop - |a|, |b|));
    }
  }

  lemma SliceWithin<T>(a: seq<T>, b: seq<T>, start: nat, stop: nat)
    requires stop <= |a|
    ensures Slice(a + b, start, stop) == Slice(a, start, stop)
  {
  }

  lemma SliceBeyond<T>(a: seq<T>, b: seq<T>, start: nat, stop: nat)
    ensures Slice(a + b, |a| + start, |a| + stop) == Slice(b, start, stop)
    ensures Slice(a, |a| + start, |a| + stop) == []
  {
    if start <= Min(stop, |b|) {
      assert (a + b)[|a| + start..|a| + Min(stop, |b|)] == b[start..Min(stop, |b|)];
    }
  }

  lemma SliceAcross<T>(a: seq<T>, b: seq<T>, start: nat, hi: nat)
    requires start < |a| && hi <= |b|
    ensures (a + b)[start..|a| + hi] == a[start..] + b[..hi]
  {
  }

  lemma PartsAreSlice(columns: seq<Column>, start: nat, stop: nat)
    requires stop <= |AllRows(columns)|
    ensures PartsOf(columns, start, stop, 0, |columns|) == Slice(AllRows(columns), start, stop)
  {
    PartsArePrefix(columns, start, stop, |columns|);
    assert columns[..|columns|] == columns;
  }

  /** Leaving out the measures that end at or before `start` leaves out nothing. */
  lemma {:induction false} SkippedPartsAreEmpty(columns: seq<Column>, start: nat, stop: nat, first: nat, k: nat)
    requires first <= k <= |columns| && StartOf(columns, first) <= start
    ensures PartsOf(columns, start, stop, 0, k) == PartsOf(columns, start, stop, first, k)
    decreases k
  {
    if k > first {
      SkippedPartsAreEmpty(columns, start, stop, first, k - 1);
      PartsStep(columns, start, stop, 0, k);
      PartsStep(columns, start, stop, first, k);
    } else {
      NoPartsBefore(columns, start, stop, first);
    }
  }

  lemma {:induction false} NoPartsBefore(columns: seq<Column>, start: nat, stop: nat, k: nat)
    requires k <= |columns| && StartOf(columns, k) <= start
    ensures PartsOf(columns, start, stop, 0, k) == []
  {
    if k > 0 {
      NoPartsBefore(columns, start, stop, k - 1);
    }
  }

  lemma SkipIsSafe(columns: seq<Column>, start: nat, stop: nat, first: nat)
    requires first <= |columns|
    requires first > 0 ==> StartOf(columns, first) <= start
    ensures PartsOf(columns, start, stop, first, |columns|) == PartsOf(columns, start, stop, 0, |columns|)
  {
    SkippedPartsAreEmpty(columns, start, stop, first, |columns|);
  }

  // ----- streaming -----

  const VECTOR_SIZE: nat := 2048

  /** A table function's cursor over its materialized rows. */
  class Cursor {
    var at: nat

    constructor ()
      ensures at == 0
    {
      at := 0;
    }

    /** The next batch `start..end`, empty when done; the cursor moves past it. */
    method Next(total: nat) returns (start: nat, end: nat)
      requires at <= total
      modifies this
      ensures start == old(at) && end == at
      ensures at == Min(total, old(at) + VECTOR_SIZE)
      ensures start <= end <= total && end - start <= VECTOR_SIZE
      ensures start == end <==> start == total
    {
      start := at;
      at := Min(total, start + VECTOR_SIZE);
      end := at;
    }
  }

  /** The host's scan: batches until one is empty. It sees every row once, in order. */
  method Stream(cells: Cells) returns (batches: seq<seq<Row>>)
    requires cells.Valid()
    ensures Flatten(batches) == AllRows(cells.measures)
    ensures forall i :: 0 <= i < |batches| ==> 0 < |batches[i]| <= VECTOR_SIZE
    ensures forall i :: 0 <= i < |batches| - 1 ==> |batches[i]| == VECTOR_SIZE
  {
    batches := [];
    var cursor := new Cursor();
    var total := cells.Len();
    ghost var rows := AllRows(cells.measures);
    while true
      invariant cursor.at <= total == |rows|
      invariant Flatten(batches) == rows[..cursor.at]
      invariant forall i :: 0 <= i < |batches| ==> 0 < |batches[i]| <= VECTOR_SIZE
      invariant forall i :: 0 <= i < |batches| - 1 ==> |batches[i]| == VECTOR_SIZE
      invariant batches != [] && cursor.at < total ==> |batches[|batches| - 1]| == VECTOR_SIZE
      decreases total - cursor.at
    {
      var start, end := cursor.Next(total);
      if start == end {
        break;
      }
      var batch := cells.Range(start, end);
      FlattenSnoc(batches, batch);
      assert rows[..start] + rows[start..end] == rows[..end];
      batches := batches + [batch];
    }
    assert rows[..total] == rows;
  }

  function Flatten<T>(ss: seq<seq<T>>): seq<T> {
    if ss == [] then [] else ss[0] + Flatten(ss[1..])
  }

  lemma {:induction false} FlattenSnoc<T>(ss: seq<seq<T>>, s: seq<T>)
    ensures Flatten(ss + [s]) == Flatten(ss) + s
  {
    if ss == [] {
      assert (ss + [s])[1..] == [];
    } else {
      FlattenSnoc(ss[1..], s);
      assert (ss + [s])[1..] == ss[1..] + [s];
    }
  }
}
