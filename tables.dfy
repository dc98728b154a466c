/** The table abstraction the query pipeline works on: an ordered field list
    and an ordered sequence of rows aligned with it by position. */
module Tables {

  /** A scalar cell value. */
  datatype Value = Null | Flag(b: bool) | Number(n: int) | Text(s: string)

  type Field = string
  type Row = seq<Value>

  datatype Table = Table(fields: seq<Field>, rows: seq<Row>)

  /** The table invariant: every row has one value per field. */
  predicate WellFormed(t: Table) {
    forall r | r in t.rows :: |r| == |t.fields|
  }

  function EmptyTable(fields: seq<Field>): Table {
    Table(fields, [])
  }

  /** Appends a row; a row of the wrong length is a shape mismatch, which
      every caller in the pipeline is shown never to cause. */
  function Append(t: Table, row: Row): (r: Table)
    requires |row| == |t.fields|
    ensures WellFormed(t) ==> WellFormed(r)
  {
    Table(t.fields, t.rows + [row])
  }

  /** Replaces the rows and keeps the field list. */
  function SetTable(t: Table, rows: seq<Row>): Table {
    Table(t.fields, rows)
  }

  /** The columns `[lo, hi)` of every row, in row order. */
  function SliceCol(t: Table, lo: nat, hi: nat): (r: Table)
    requires WellFormed(t) && lo <= hi <= |t.fields|
    ensures WellFormed(r) && |r.fields| == hi - lo && |r.rows| == |t.rows|
    ensures forall i :: 0 <= i < |t.rows| ==> r.rows[i] == t.rows[i][lo..hi]
  {
    Table(t.fields[lo..hi], seq(|t.rows|, i requires 0 <= i < |t.rows| => t.rows[i][lo..hi]))
  }

  /** Horizontal concatenation of two tables with equally many rows. */
  function Chain(a: Table, b: Table): (r: Table)
    requires |a.rows| == |b.rows|
    ensures |r.rows| == |a.rows| && r.fields == a.fields + b.fields
    ensures WellFormed(a) && WellFormed(b) ==> WellFormed(r)
  {
    var r := Table(a.fields + b.fields,
                   seq(|a.rows|, i requires 0 <= i < |a.rows| => a.rows[i] + b.rows[i]));
    assert forall k :: 0 <= k < |r.rows| ==> r.rows[k] == a.rows[k] + b.rows[k];
    r
  }

  /** Row `i` of a chained table is row `i` of the first table followed by
      row `i` of the second. */
  lemma ChainRows(a: Table, b: Table, i: nat)
    requires |a.rows| == |b.rows| && i < |a.rows|
    ensures Chain(a, b).rows[i] == a.rows[i] + b.rows[i]
  {
  }

  /** Slicing a table at any column and chaining the two halves gives the
      table back. */
  lemma SliceChainRoundTrip(t: Table, k: nat)
    requires WellFormed(t) && k <= |t.fields|
    ensures Chain(SliceCol(t, 0, k), SliceCol(t, k, |t.fields|)) == t
  {
    var left, right := SliceCol(t, 0, k), SliceCol(t, k, |t.fields|);
    var c := Chain(left, right);
    SplitAt(t.fields, k);
    assert |c.rows| == |t.rows|;
    forall i | 0 <= i < |t.rows|
      ensures c.rows[i] == t.rows[i]
    {
      var row := t.rows[i];
      assert row in t.rows;
      assert c.rows[i] == left.rows[i] + right.rows[i];
      SplitAt(row, k);
    }
  }

  lemma SplitAt<T>(s: seq<T>, k: nat)
    requires k <= |s|
    ensures s[0..k] + s[k..|s|] == s
  {
  }

  /** The rows of all tables, table after table. */
  function ConcatRows(ts: seq<Table>): (rows: seq<Row>)
    ensures |rows| == TotalRows(ts)
  {
    if |ts| == 0 then [] else ConcatRows(ts[..|ts| - 1]) + ts[|ts| - 1].rows
  }

  function TotalRows(ts: seq<Table>): nat {
    if |ts| == 0 then 0 else TotalRows(ts[..|ts| - 1]) + |ts[|ts| - 1].rows|
  }

  lemma {:induction false} TotalRowsConcat(a: seq<Table>, b: seq<Table>)
    ensures TotalRows(a + b) == TotalRows(a) + TotalRows(b)
  {
    if |b| > 0 {
      var n := |b| - 1;
      TotalRowsConcat(a, b[..n]);
      assert (a + b)[..|a + b| - 1] == a + b[..n];
    } else {
      assert a + b == a;
    }
  }

  /** Reordering tables does not change how many rows they hold. */
  lemma {:induction false} TotalRowsPermutation(a: seq<Table>, b: seq<Table>)
    requires multiset(a) == multiset(b)
    ensures TotalRows(a) == TotalRows(b)
    decreases |a|
  {
    if |a| == 0 {
      assert |multiset(b)| == 0;
    } else {
      var x, init := a[|a| - 1], a[..|a| - 1];
      assert a == init + [x];
      assert x in multiset(b);
      var i :| 0 <= i < |b| && b[i] == x;
      assert multiset(init) == multiset(a) - multiset{x};
      RemoveAt(b, i);
      TotalRowsPermutation(init, b[..i] + b[i + 1..]);
    }
  }

  /** Taking table `i` out of a list removes it from the multiset and its
      rows from the count. */
  lemma RemoveAt(b: seq<Table>, i: nat)
    requires i < |b|
    ensures multiset(b[..i] + b[i + 1..]) == multiset(b) - multiset{b[i]}
    ensures TotalRows(b) == TotalRows(b[..i] + b[i + 1..]) + |b[i].rows|
  {
    var x := b[i];
    assert b == b[..i] + [x] + b[i + 1..];
    TotalRowsConcat(b[..i] + [x], b[i + 1..]);
    TotalRowsConcat(b[..i], [x]);
    TotalRowsConcat(b[..i], b[i + 1..]);
    assert TotalRows([x]) == |x.rows| by {
      assert [x][..0] == [];
    }
  }

  lemma {:induction false} TotalRowsPointwise(a: seq<Table>, b: seq<Table>)
    requires |a| == |b| && forall j :: 0 <= j < |a| ==> |a[j].rows| == |b[j].rows|
    ensures TotalRows(a) == TotalRows(b)
  {
    if |a| > 0 {
      TotalRowsPointwise(a[..|a| - 1], b[..|b| - 1]);
    }
  }
}
