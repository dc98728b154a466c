/** The stages of query execution after the source table is resolved: the
    row filter, having, ordering, select, aggregate collapse, merge and limit.
    Each stage is a function stating what it computes, and each loop of the
    session is a method proved equal to its stage. */
module Pipeline {
  import opened Sequences
  import opened Results
  import opened Tables
  import opened Collaborators

  /** Every table is well-formed and `w` columns wide. */
  predicate Uniform(ts: seq<Table>, w: nat) {
    forall t | t in ts :: WellFormed(t) && |t.fields| == w
  }

  /** Every table is well-formed, `w` columns wide and not empty. */
  predicate Shaped(ts: seq<Table>, w: nat) {
    forall t | t in ts :: WellFormed(t) && |t.fields| == w && |t.rows| > 0
  }

  // ---------------------------------------------------------------- filter

  /** The source rows whose condition value is true, in source order. */
  function Filter(t: Table, meets: seq<bool>): Table
    requires |meets| == |t.rows|
  {
    Table(t.fields, Keep(t.rows, meets))
  }

  /** The filtered table keeps the source fields, is well-formed, holds one
      row per true condition value and is empty iff no value is true. */
  lemma FilterShape(t: Table, meets: seq<bool>)
    requires WellFormed(t) && |meets| == |t.rows|
    ensures var f := Filter(t, meets);
            && WellFormed(f) && f.fields == t.fields && |f.rows| == CountTrue(meets)
            && (|f.rows| == 0 <==> forall i :: 0 <= i < |meets| ==> !meets[i])
  {
    var f := Filter(t, meets);
    forall r | r in f.rows
      ensures |r| == |f.fields|
    {
      var p :| 0 <= p < |f.rows| && f.rows[p] == r;
      FilterRowOrigin(t, meets, p);
      var i :| 0 <= i < |t.rows| && meets[i] && CountTrue(meets[..i]) == p && t.rows[i] == r;
      assert t.rows[i] in t.rows;
    }
    KeepAllFalse(t.rows, meets);
  }

  /** A row whose condition holds is kept, at the place given by the number
      of kept rows before it. */
  lemma FilterKeepsTruthyRow(t: Table, meets: seq<bool>, i: nat)
    requires |meets| == |t.rows| && i < |t.rows| && meets[i]
    ensures CountTrue(meets[..i]) < |Filter(t, meets).rows|
    ensures Filter(t, meets).rows[CountTrue(meets[..i])] == t.rows[i]
  {
    KeepPlacement(t.rows, meets, i);
  }

  /** Every kept row is a source row whose condition holds, so the filtered
      rows are the true rows in source order and nothing else. */
  lemma FilterRowOrigin(t: Table, meets: seq<bool>, p: nat)
    requires |meets| == |t.rows| && p < |Filter(t, meets).rows|
    ensures exists i :: 0 <= i < |t.rows| && meets[i] && CountTrue(meets[..i]) == p
                        && t.rows[i] == Filter(t, meets).rows[p]
  {
    KeepOrigin(t.rows, meets, p);
  }

  /** The filter loop: every row whose condition value is true is appended
      to a table with the source fields. */
  method FilterRows(t: Table, meets: seq<bool>) returns (f: Table)
    requires WellFormed(t) && |meets| == |t.rows|
    ensures f == Filter(t, meets)
  {
    f := EmptyTable(t.fields);
    for i := 0 to |t.rows|
      invariant f == Table(t.fields, Keep(t.rows[..i], meets[..i]))
    {
      KeepSnoc(t.rows, meets, i);
      if meets[i] {
        assert t.rows[i] in t.rows;
        f := Append(f, t.rows[i]);
      }
    }
    assert t.rows[..|t.rows|] == t.rows && meets[..|meets|] == meets;
  }

  // ---------------------------------------------------------------- having

  predicate All(bs: seq<bool>) {
    forall i :: 0 <= i < |bs| ==> bs[i]
  }

  /** Whether each table passes the having clause: every one of its values
      for the clause is true. */
  function Verdicts(eng: Engine, ts: seq<Table>, having: Expr): (v: seq<bool>)
    ensures |v| == |ts|
  {
    seq(|ts|, j requires 0 <= j < |ts| => All(eng.evaluateExpression(ts[j], having)))
  }

  /** The table without its last `k` columns. */
  function StripTrailing(t: Table, k: nat): Table
    requires WellFormed(t) && k <= |t.fields|
  {
    SliceCol(t, 0, |t.fields| - k)
  }

  function StripAllTrailing(ts: seq<Table>, k: nat, w: nat): (r: seq<Table>)
    requires Uniform(ts, w) && k <= w
    ensures |r| == |ts|
  {
    seq(|ts|, j requires 0 <= j < |ts| => assert ts[j] in ts; StripTrailing(ts[j], k))
  }

  /** The tables that pass the having clause, each without the `k` columns
      the clause's tokens occupy, in their original order. */
  function Having(eng: Engine, ts: seq<Table>, having: Expr, k: nat, w: nat): seq<Table>
    requires Uniform(ts, w) && k <= w
  {
    Keep(StripAllTrailing(ts, k, w), Verdicts(eng, ts, having))
  }

  /** Stripping trailing columns keeps every row, shortened. */
  lemma StripTrailingShape(t: Table, k: nat)
    requires WellFormed(t) && k <= |t.fields|
    ensures var s := StripTrailing(t, k);
            && WellFormed(s) && s.fields == t.fields[..|t.fields| - k] && |s.rows| == |t.rows|
            && forall i :: 0 <= i < |t.rows| ==> s.rows[i] == t.rows[i][..|t.fields| - k]
  {
    var s := StripTrailing(t, k);
    forall i | 0 <= i < |t.rows|
      ensures s.rows[i] == t.rows[i][..|t.fields| - k]
    {
      assert t.rows[i] in t.rows;
    }
  }

  /** A table whose having values are all true is kept, without its last `k`
      columns, at the place given by the number of kept tables before it. */
  lemma HavingKeepsPassingTable(eng: Engine, ts: seq<Table>, having: Expr, k: nat, w: nat, j: nat)
    requires Uniform(ts, w) && k <= w && j < |ts|
    requires All(eng.evaluateExpression(ts[j], having))
    ensures var h, v := Having(eng, ts, having, k, w), Verdicts(eng, ts, having);
            CountTrue(v[..j]) < |h| && h[CountTrue(v[..j])] == StripTrailing(ts[j], k)
  {
    var s, v := StripAllTrailing(ts, k, w), Verdicts(eng, ts, having);
    assert v[j];
    KeepPlacement(s, v, j);
  }

  /** Every kept table is a passing input table without its last `k`
      columns. */
  lemma HavingTableOrigin(eng: Engine, ts: seq<Table>, having: Expr, k: nat, w: nat, p: nat)
    requires Uniform(ts, w) && k <= w && p < |Having(eng, ts, having, k, w)|
    ensures exists j :: 0 <= j < |ts| && All(eng.evaluateExpression(ts[j], having))
                        && CountTrue(Verdicts(eng, ts, having)[..j]) == p
                        && Having(eng, ts, having, k, w)[p] == StripTrailing(ts[j], k)
                        && |Having(eng, ts, having, k, w)[p].rows| == |ts[j].rows|
  {
    var s, v := StripAllTrailing(ts, k, w), Verdicts(eng, ts, having);
    KeepOrigin(s, v, p);
    var j :| 0 <= j < |s| && v[j] && CountTrue(v[..j]) == p && s[j] == Keep(s, v)[p];
    assert All(eng.evaluateExpression(ts[j], having));
    assert ts[j] in ts;
  }

  /** As many tables are kept as pass, and none is kept iff none passes. */
  lemma HavingCount(eng: Engine, ts: seq<Table>, having: Expr, k: nat, w: nat)
    requires Uniform(ts, w) && k <= w
    ensures |Having(eng, ts, having, k, w)| == CountTrue(Verdicts(eng, ts, having))
    ensures |Having(eng, ts, having, k, w)| == 0 <==>
            forall j :: 0 <= j < |ts| ==> !All(eng.evaluateExpression(ts[j], having))
  {
    var s, v := StripAllTrailing(ts, k, w), Verdicts(eng, ts, having);
    KeepAllFalse(s, v);
    assert forall j :: 0 <= j < |ts| ==> v[j] == All(eng.evaluateExpression(ts[j], having));
    assert (forall j :: 0 <= j < |ts| ==> !v[j]) <==>
           (forall j :: 0 <= j < |ts| ==> !All(eng.evaluateExpression(ts[j], having)));
  }

  /** The kept tables are `w - k` columns wide, and non-empty when the
      input tables are. */
  lemma HavingShape(eng: Engine, ts: seq<Table>, having: Expr, k: nat, w: nat)
    requires Uniform(ts, w) && k <= w
    ensures Uniform(Having(eng, ts, having, k, w), w - k)
    ensures Shaped(ts, w) ==> Shaped(Having(eng, ts, having, k, w), w - k)
  {
    var h, v, s := Having(eng, ts, having, k, w), Verdicts(eng, ts, having), StripAllTrailing(ts, k, w);
    forall t | t in h
      ensures WellFormed(t) && |t.fields| == w - k
      ensures Shaped(ts, w) ==> |t.rows| > 0
    {
      var p :| 0 <= p < |h| && h[p] == t;
      KeepOrigin(s, v, p);
      var j :| 0 <= j < |s| && v[j] && CountTrue(v[..j]) == p && s[j] == h[p];
      assert ts[j] in ts;
      StripTrailingShape(ts[j], k);
    }
  }

  /** The having loop: every passing table is appended, stripped, to the
      list of kept tables. */
  method HavingFilter(eng: Engine, ts: seq<Table>, having: Expr, k: nat, w: nat) returns (kept: seq<Table>)
    requires Uniform(ts, w) && k <= w
    ensures kept == Having(eng, ts, having, k, w)
  {
    ghost var s, v := StripAllTrailing(ts, k, w), Verdicts(eng, ts, having);
    kept := [];
    for j := 0 to |ts|
      invariant kept == Keep(s[..j], v[..j])
    {
      KeepSnoc(s, v, j);
      var t := ts[j];
      if All(eng.evaluateExpression(t, having)) {
        assert t in ts;
        kept := kept + [SliceCol(t, 0, |t.fields| - k)];
      }
    }
    assert s[..|s|] == s && v[..|v|] == v;
  }

  // -------------------------------------------------------------- order by

  /** One table of the order stage: its last `k` columns (the order tokens)
      are replaced by the order expressions' values, then its rows sorted. */
  function OrderTable(eng: Engine, t: Table, ord: Ordering, k: nat): Table
    requires Sound(eng) && WellFormed(t) && k <= |t.fields|
  {
    EvaluateShape(eng, t, ord.exprs);
    eng.sortRows(Retoken(t, eng.evaluateExpressions(t, ord.exprs), k), ord.directions)
  }

  /** The table before sorting: its last `k` columns (the order tokens)
      replaced by the columns of `values` (the order expressions' values). */
  function Retoken(t: Table, values: Table, k: nat): (c: Table)
    requires WellFormed(t) && WellFormed(values) && k <= |t.fields| && |values.rows| == |t.rows|
    ensures WellFormed(c) && |c.rows| == |t.rows|
    ensures |c.fields| == |t.fields| - k + |values.fields| && c.fields[..|t.fields| - k] == t.fields[..|t.fields| - k]
  {
    Chain(SliceCol(t, 0, |t.fields| - k), values)
  }

  /** Each row before sorting keeps its values outside the order tokens and
      ends with the order values of that row. */
  lemma RetokenRows(t: Table, values: Table, k: nat, i: nat)
    requires WellFormed(t) && WellFormed(values) && k <= |t.fields| && |values.rows| == |t.rows|
    requires i < |t.rows|
    ensures var c, m := Retoken(t, values, k), |t.fields| - k;
            && c.rows[i][..m] == t.rows[i][..m]
            && c.rows[i][m..] == values.rows[i]
  {
    var m := |t.fields| - k;
    var left := SliceCol(t, 0, m);
    ChainRows(left, values, i);
    var l, v := left.rows[i], values.rows[i];
    assert t.rows[i] in t.rows;
    assert l == t.rows[i][..m] && |l| == m;
    assert (l + v)[..m] == l && (l + v)[m..] == v;
  }

  function OrderEach(eng: Engine, ts: seq<Table>, ord: Ordering, k: nat, w: nat): (r: seq<Table>)
    requires Sound(eng) && Uniform(ts, w) && k <= w
    ensures |r| == |ts|
  {
    seq(|ts|, j requires 0 <= j < |ts| => assert ts[j] in ts; OrderTable(eng, ts[j], ord, k))
  }

  /** The order stage: every table ordered, then the list of tables sorted. */
  function OrderStage(eng: Engine, ts: seq<Table>, ord: Ordering, k: nat, w: nat): seq<Table>
    requires Sound(eng) && Uniform(ts, w) && k <= w
  {
    eng.sortTables(OrderEach(eng, ts, ord, k, w), ord.directions)
  }

  /** An ordered table keeps its columns other than the order tokens, takes
      one column per order expression, and holds a permutation of the rows
      of that combination. */
  lemma OrderTableShape(eng: Engine, t: Table, ord: Ordering, k: nat)
    requires Sound(eng) && WellFormed(t) && k <= |t.fields|
    ensures var o := OrderTable(eng, t, ord, k);
            && WellFormed(o) && |o.fields| == |t.fields| - k + |ord.exprs| && |o.rows| == |t.rows|
            && o.fields[..|t.fields| - k] == t.fields[..|t.fields| - k]
            && multiset(o.rows) == multiset(Retoken(t, eng.evaluateExpressions(t, ord.exprs), k).rows)
  {
    EvaluateShape(eng, t, ord.exprs);
    var c := Retoken(t, eng.evaluateExpressions(t, ord.exprs), k);
    SortRowsShape(eng, c, ord.directions);
    assert multiset(eng.sortRows(c, ord.directions).rows) == multiset(c.rows);
  }

  /** The order stage keeps the number of tables, and every table of its
      result is one of the ordered tables: `w - k + |ord.exprs|` columns
      wide and non-empty when the inputs are. */
  lemma OrderStageShape(eng: Engine, ts: seq<Table>, ord: Ordering, k: nat, w: nat)
    requires Sound(eng) && Uniform(ts, w) && k <= w
    ensures |OrderStage(eng, ts, ord, k, w)| == |ts|
    ensures multiset(OrderStage(eng, ts, ord, k, w)) == multiset(OrderEach(eng, ts, ord, k, w))
    ensures Uniform(OrderStage(eng, ts, ord, k, w), w - k + |ord.exprs|)
    ensures Shaped(ts, w) ==> Shaped(OrderStage(eng, ts, ord, k, w), w - k + |ord.exprs|)
  {
    var each := OrderEach(eng, ts, ord, k, w);
    SortTablesMembers(eng, each, ord.directions);
    forall t | t in each
      ensures WellFormed(t) && |t.fields| == w - k + |ord.exprs|
      ensures Shaped(ts, w) ==> |t.rows| > 0
    {
      var j :| 0 <= j < |each| && each[j] == t;
      assert ts[j] in ts;
      OrderTableShape(eng, ts[j], ord, k);
    }
  }

  /** The order stage neither loses nor adds rows. */
  lemma OrderStageKeepsRows(eng: Engine, ts: seq<Table>, ord: Ordering, k: nat, w: nat)
    requires Sound(eng) && Uniform(ts, w) && k <= w
    ensures TotalRows(OrderStage(eng, ts, ord, k, w)) == TotalRows(ts)
  {
    var each := OrderEach(eng, ts, ord, k, w);
    OrderStageShape(eng, ts, ord, k, w);
    TotalRowsPermutation(OrderStage(eng, ts, ord, k, w), each);
    forall j | 0 <= j < |ts|
      ensures |each[j].rows| == |ts[j].rows|
    {
      assert ts[j] in ts;
      OrderTableShape(eng, ts[j], ord, k);
    }
    TotalRowsPointwise(each, ts);
  }

  /** The order loop: each table in turn is re-built with the order values
      and sorted in place; then the tables are sorted. */
  method OrderGroups(eng: Engine, ts: seq<Table>, ord: Ordering, k: nat, w: nat) returns (r: seq<Table>)
    requires Sound(eng) && Uniform(ts, w) && k <= w
    ensures r == OrderStage(eng, ts, ord, k, w)
  {
    ghost var each := OrderEach(eng, ts, ord, k, w);
    var tables := ts;
    for j := 0 to |ts|
      invariant |tables| == |ts|
      invariant forall m :: 0 <= m < j ==> tables[m] == each[m]
      invariant forall m :: j <= m < |ts| ==> tables[m] == ts[m]
    {
      var t := tables[j];
      assert t == ts[j] && t in ts;
      EvaluateShape(eng, t, ord.exprs);
      var values := eng.evaluateExpressions(t, ord.exprs);
      var chained := Chain(SliceCol(t, 0, |t.fields| - k), values);
      assert chained == Retoken(t, values, k);
      tables := tables[j := chained];
      tables := tables[j := eng.sortRows(tables[j], ord.directions)];
      assert tables[j] == OrderTable(eng, ts[j], ord, k) == each[j];
    }
    assert tables == each;
    r := eng.sortTables(tables, ord.directions);
  }

  // ---------------------------------------------------------------- select

  /** Every table replaced by the values of the select expressions over it. */
  function Select(eng: Engine, ts: seq<Table>, exprs: seq<Expr>): (r: seq<Table>)
    ensures |r| == |ts|
  {
    seq(|ts|, j requires 0 <= j < |ts| => eng.evaluateExpressions(ts[j], exprs))
  }

  /** Selecting keeps each table's row count and gives it one column per
      select expression. */
  lemma SelectShape(eng: Engine, ts: seq<Table>, exprs: seq<Expr>, w: nat)
    requires Sound(eng) && Uniform(ts, w)
    ensures Uniform(Select(eng, ts, exprs), |exprs|)
    ensures forall j :: 0 <= j < |ts| ==> |Select(eng, ts, exprs)[j].rows| == |ts[j].rows|
    ensures Shaped(ts, w) ==> Shaped(Select(eng, ts, exprs), |exprs|)
  {
    var s := Select(eng, ts, exprs);
    forall j | 0 <= j < |ts|
      ensures WellFormed(s[j]) && |s[j].fields| == |exprs| && |s[j].rows| == |ts[j].rows|
    {
      assert ts[j] in ts;
      EvaluateShape(eng, ts[j], exprs);
    }
  }

  /** Selecting neither loses nor adds rows. */
  lemma SelectKeepsRows(eng: Engine, ts: seq<Table>, exprs: seq<Expr>, w: nat)
    requires Sound(eng) && Uniform(ts, w)
    ensures TotalRows(Select(eng, ts, exprs)) == TotalRows(ts)
  {
    SelectShape(eng, ts, exprs, w);
    TotalRowsPointwise(Select(eng, ts, exprs), ts);
  }

  /** The select loop: every table is overwritten with its selected values. */
  method SelectColumns(eng: Engine, ts: seq<Table>, exprs: seq<Expr>) returns (r: seq<Table>)
    ensures r == Select(eng, ts, exprs)
  {
    r := ts;
    for j := 0 to |ts|
      invariant |r| == |ts|
      invariant forall m :: 0 <= m < j ==> r[m] == eng.evaluateExpressions(ts[m], exprs)
      invariant forall m :: j <= m < |ts| ==> r[m] == ts[m]
    {
      r := r[j := eng.evaluateExpressions(r[j], exprs)];
    }
  }

  // ------------------------------------------------------------- aggregate

  predicate NonEmpty(ts: seq<Table>) {
    forall j :: 0 <= j < |ts| ==> |ts[j].rows| > 0
  }

  /** Every table cut down to its first row. */
  function Collapse(ts: seq<Table>): (r: seq<Table>)
    requires NonEmpty(ts)
    ensures |r| == |ts|
  {
    seq(|ts|, j requires 0 <= j < |ts| => SetTable(ts[j], [ts[j].rows[0]]))
  }

  /** Collapsing keeps every table's columns and leaves it exactly one row. */
  lemma CollapseShape(ts: seq<Table>, w: nat)
    requires Shaped(ts, w)
    ensures Shaped(Collapse(ts), w)
    ensures forall j :: 0 <= j < |ts| ==> Collapse(ts)[j].fields == ts[j].fields && Collapse(ts)[j].rows == [ts[j].rows[0]]
  {
    var c := Collapse(ts);
    forall t | t in c
      ensures WellFormed(t) && |t.fields| == w && |t.rows| > 0
    {
      var j :| 0 <= j < |c| && c[j] == t;
      assert ts[j] in ts;
    }
  }

  /** The collapse loop: each table's rows are replaced by its first row. */
  method CollapseGroups(ts: seq<Table>) returns (r: seq<Table>)
    requires NonEmpty(ts)
    ensures r == Collapse(ts)
  {
    r := ts;
    for j := 0 to |ts|
      invariant |r| == |ts|
      invariant forall m :: 0 <= m < j ==> r[m] == SetTable(ts[m], [ts[m].rows[0]])
      invariant forall m :: j <= m < |ts| ==> r[m] == ts[m]
    {
      r := r[j := SetTable(r[j], [r[j].rows[0]])];
    }
  }

  /** The select expressions that are not group expressions. */
  function NonGroupExprs(exprs: seq<Expr>, groups: seq<Expr>): seq<Expr> {
    Keep(exprs, seq(|exprs|, i requires 0 <= i < |exprs| => exprs[i] !in groups))
  }

  /** The aggregate check looks at exactly the select expressions that are
      not group expressions, in their order. */
  lemma NonGroupExprsMembers(exprs: seq<Expr>, groups: seq<Expr>)
    ensures forall e :: e in NonGroupExprs(exprs, groups) <==> e in exprs && e !in groups
  {
    var mask := seq(|exprs|, i requires 0 <= i < |exprs| => exprs[i] !in groups);
    var r := NonGroupExprs(exprs, groups);
    forall e | e in exprs && e !in groups
      ensures e in r
    {
      var i :| 0 <= i < |exprs| && exprs[i] == e;
      KeepPlacement(exprs, mask, i);
    }
    forall e | e in r
      ensures e in exprs && e !in groups
    {
      var p :| 0 <= p < |r| && r[p] == e;
      KeepOrigin(exprs, mask, p);
    }
  }

  // ----------------------------------------------------------------- merge

  /** One table with the first table's fields and every table's rows, table
      after table. */
  function Merge(ts: seq<Table>): Table
    requires |ts| > 0
  {
    Table(ts[0].fields, ConcatRows(ts))
  }

  /** The merge loop: the rows of every table, in order, are appended to a
      table with the first table's fields. */
  method MergeTables(ts: seq<Table>) returns (merged: Table)
    requires |ts| > 0 && Uniform(ts, |ts[0].fields|)
    ensures merged == Merge(ts)
  {
    merged := EmptyTable(ts[0].fields);
    for j := 0 to |ts|
      invariant merged == Table(ts[0].fields, ConcatRows(ts[..j]))
    {
      assert ts[j] in ts;
      assert ts[..j + 1][..j] == ts[..j];
      merged := AppendRows(merged, ts[j]);
    }
    assert ts[..|ts|] == ts;
  }

  /** The inner merge loop: every row of `t` is appended in turn. */
  method AppendRows(merged: Table, t: Table) returns (r: Table)
    requires WellFormed(t) && |t.fields| == |merged.fields|
    ensures r == Table(merged.fields, merged.rows + t.rows)
  {
    r := merged;
    for k := 0 to |t.rows|
      invariant r == Table(merged.fields, merged.rows + t.rows[..k])
    {
      assert t.rows[k] in t.rows;
      r := Append(r, t.rows[k]);
      assert t.rows[..k + 1] == t.rows[..k] + [t.rows[k]];
    }
    assert t.rows[..|t.rows|] == t.rows;
  }

  lemma {:induction false} ConcatRowsPrefix(ts: seq<Table>, m: nat)
    requires m <= |ts|
    ensures ConcatRows(ts[..m]) <= ConcatRows(ts)
    ensures TotalRows(ts[..m]) <= TotalRows(ts)
    decreases |ts| - m
  {
    if m < |ts| {
      var n := |ts| - 1;
      ConcatRowsPrefix(ts[..n], m);
      assert ts[..n][..m] == ts[..m];
    } else {
      assert ts[..m] == ts;
    }
  }

  /** Row `k` of table `j` sits in the merged table after all rows of the
      tables before it. */
  lemma MergeRowPlacement(ts: seq<Table>, j: nat, k: nat)
    requires j < |ts| && k < |ts[j].rows|
    ensures TotalRows(ts[..j]) + k < |Merge(ts).rows|
    ensures Merge(ts).rows[TotalRows(ts[..j]) + k] == ts[j].rows[k]
  {
    ConcatRowsPrefix(ts, j + 1);
    assert ts[..j + 1][..j] == ts[..j];
  }

  /** The merged table has the first table's fields and all rows, and is
      well-formed when every table has the first table's width. */
  lemma MergeShape(ts: seq<Table>)
    requires |ts| > 0
    ensures Merge(ts).fields == ts[0].fields && |Merge(ts).rows| == TotalRows(ts)
    ensures Uniform(ts, |ts[0].fields|) ==> WellFormed(Merge(ts))
  {
    if Uniform(ts, |ts[0].fields|) {
      MergeWellFormed(ts, |ts[0].fields|);
    }
  }

  lemma {:induction false} MergeWellFormed(ts: seq<Table>, w: nat)
    requires Uniform(ts, w)
    ensures forall r | r in ConcatRows(ts) :: |r| == w
  {
    if |ts| > 0 {
      var init := ts[..|ts| - 1];
      assert Uniform(init, w) by {
        forall t | t in init ensures t in ts { }
      }
      MergeWellFormed(init, w);
      assert ts[|ts| - 1] in ts;
    }
  }

  /** Collapsing and then merging gives one row per table: its first row. */
  lemma {:induction false} CollapseMerge(ts: seq<Table>)
    requires |ts| > 0 && NonEmpty(ts)
    ensures |Merge(Collapse(ts)).rows| == |ts|
    ensures forall j :: 0 <= j < |ts| ==> Merge(Collapse(ts)).rows[j] == ts[j].rows[0]
  {
    CollapseRows(ts);
  }

  lemma {:induction false} CollapseRows(ts: seq<Table>)
    requires NonEmpty(ts)
    ensures ConcatRows(Collapse(ts)) == seq(|ts|, j requires 0 <= j < |ts| => ts[j].rows[0])
  {
    if |ts| > 0 {
      var n := |ts| - 1;
      var init := ts[..n];
      CollapseRows(init);
      assert Collapse(ts)[..n] == Collapse(init);
    }
  }

  // ----------------------------------------------------------------- limit

  /** The end of the slice `rows[:limit]` in Python: a negative limit counts
      from the end. */
  function PyStop(n: nat, limit: int): (stop: nat)
    ensures stop <= n
  {
    if limit >= 0 then (if limit < n then limit else n)
    else if n + limit > 0 then n + limit else 0
  }

  /** A limit that is present and not zero truncates the rows. */
  function Limit(t: Table, limit: Option<int>): (r: Table)
    ensures r.fields == t.fields && r.rows <= t.rows
  {
    if limit.Some? && limit.value != 0 then SetTable(t, t.rows[..PyStop(|t.rows|, limit.value)]) else t
  }

  /** The limit keeps the fields and a prefix of the rows: the first
      `min(L, n)` of them for a positive limit `L`, all but the last `-L` for
      a negative one, and every row when the limit is absent or zero. */
  lemma LimitSpec(t: Table, limit: Option<int>)
    ensures var r := Limit(t, limit);
            var n := |t.rows|;
            && r.fields == t.fields && r.rows <= t.rows
            && (limit.None? || limit.value == 0 ==> r == t)
            && (limit.Some? && limit.value > 0 ==> |r.rows| == if limit.value < n then limit.value else n)
            && (limit.Some? && limit.value < 0 ==> |r.rows| == if n + limit.value > 0 then n + limit.value else 0)
  {
  }

  lemma LimitKeepsWellFormed(t: Table, limit: Option<int>)
    requires WellFormed(t)
    ensures WellFormed(Limit(t, limit))
  {
    var r := Limit(t, limit);
    forall row | row in r.rows
      ensures row in t.rows
    {
      var i :| 0 <= i < |r.rows| && r.rows[i] == row;
      assert t.rows[i] == row;
    }
  }
}
