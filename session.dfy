/** A query session (RqSession): construction works out which keys to fetch
    from the source, and `Execute` runs the query's stages over the source
    table. */
module Session {
  import opened Sequences
  import opened Results
  import opened Tables
  import opened Grouping
  import opened Collaborators
  import opened Pipeline

  /** Where the rows come from: nothing, a label naming a fetchable table,
      or the result of a nested query, already computed. */
  datatype Source = NoSource | Label(name: string) | Nested(result: Table)

  /** The clauses of one query. An absent or empty group list means no
      GROUP BY. */
  datatype Query = Query(
    fieldExprs: seq<Expr>,
    source: Source,
    condition: Option<Expr>,
    groups: seq<Expr>,
    having: Option<Expr>,
    orders: Option<Ordering>,
    limit: Option<int>
  )

  /** A clause given as a string takes part only when it is not empty. */
  predicate Present(clause: Option<Expr>) {
    clause.Some? && clause.value != ""
  }

  /** The source takes part unless it is absent or an empty label. */
  predicate HasSource(src: Source) {
    src.Nested? || (src.Label? && src.name != "")
  }

  /** A nested result is a table like any other. */
  predicate SourceOk(src: Source) {
    src.Nested? ==> WellFormed(src.result)
  }

  // ------------------------------------------------------------ fetch keys

  /** The tokens of every clause that takes part, clause after clause. */
  function ClauseTokens(eng: Engine, q: Query): seq<Token> {
    eng.extractTokens(q.fieldExprs)
    + (if Present(q.condition) then eng.extractTokens([q.condition.value]) else [])
    + (if |q.groups| > 0 then eng.extractTokens(q.groups) else [])
    + (if Present(q.having) then eng.extractTokens([q.having.value]) else [])
    + (if q.orders.Some? then eng.extractTokens(q.orders.value.exprs) else [])
  }

  /** The keys the source is fetched with: each clause token once, or just
      `*` when any clause holds `*`. */
  function FetchKeys(eng: Engine, q: Query): (keys: seq<Token>)
    ensures NoDuplicates(keys)
    ensures "*" in ClauseTokens(eng, q) ==> keys == ["*"]
    ensures "*" !in ClauseTokens(eng, q) ==> Elements(keys) == Elements(ClauseTokens(eng, q))
  {
    var all := ClauseTokens(eng, q);
    var ks := Dedupe(all);
    DedupeSpec(all);
    assert "*" in all <==> "*" in ks;
    if "*" in ks then ["*"] else ks
  }

  // ----------------------------------------------------------------- source

  /** The single-row table a query without a source runs over. */
  function DummyTable(): Table {
    Table(["Dummy Field"], [[Text("Dummy Value")]])
  }

  function SourceTable(eng: Engine, src: Source, keys: seq<Token>): Table {
    if !HasSource(src) then DummyTable()
    else if src.Nested? then src.result
    else eng.fetch(src.name, keys)
  }

  lemma SourceTableWellFormed(eng: Engine, src: Source, keys: seq<Token>)
    requires Sound(eng) && SourceOk(src)
    ensures WellFormed(SourceTable(eng, src, keys))
  {
  }

  /** The select expressions once `*` is replaced: by the source's fields
      when a source with rows is present and `*` is selected. */
  function WorkingFields(eng: Engine, q: Query, keys: seq<Token>): seq<Expr> {
    var src := SourceTable(eng, q.source, keys);
    if HasSource(q.source) && |src.rows| > 0 && "*" in q.fieldExprs then src.fields else q.fieldExprs
  }

  /** The rows the condition keeps, or the source when there is none. */
  function Filtered(eng: Engine, q: Query, src: Table): Table
    requires Sound(eng) && WellFormed(src)
  {
    if Present(q.condition) then Filter(src, eng.evaluateExpression(src, q.condition.value)) else src
  }

  // ----------------------------------------------------------------- stages

  ghost predicate Ready(eng: Engine, filtered: Table) {
    Sound(eng) && WellFormed(filtered) && |filtered.rows| > 0
  }

  function OrderTokens(eng: Engine, q: Query): seq<Token> {
    if q.orders.Some? then eng.extractTokens(q.orders.value.exprs) else []
  }

  function HavingTokens(eng: Engine, q: Query): seq<Token> {
    if Present(q.having) then eng.extractTokens([q.having.value]) else []
  }

  /** The columns evaluated over the filtered rows: select tokens, then
      order tokens, having tokens and group expressions. */
  function EvalExprs(eng: Engine, q: Query): seq<Expr> {
    eng.extractTokens(q.fieldExprs) + OrderTokens(eng, q) + HavingTokens(eng, q) + q.groups
  }

  /** The width of a table once the group columns are removed. */
  function GroupWidth(eng: Engine, q: Query): nat {
    |eng.extractTokens(q.fieldExprs)| + |OrderTokens(eng, q)| + |HavingTokens(eng, q)|
  }

  /** The width once the order stage has replaced the order tokens. */
  function OrderedWidth(eng: Engine, q: Query): nat {
    |eng.extractTokens(q.fieldExprs)| + (if q.orders.Some? then |q.orders.value.exprs| else 0)
  }

  function Evaluated(eng: Engine, q: Query, filtered: Table): Table {
    eng.evaluateExpressions(filtered, EvalExprs(eng, q))
  }

  /** The groups, or the one evaluated table when there is no GROUP BY. */
  function Grouped(eng: Engine, q: Query, filtered: Table): seq<Table>
    requires Ready(eng, filtered)
  {
    EvaluateShape(eng, filtered, EvalExprs(eng, q));
    var res := Evaluated(eng, q, filtered);
    if |q.groups| > 0 then Groups(res, |q.groups|) else [res]
  }

  lemma GroupedShape(eng: Engine, q: Query, filtered: Table)
    requires Ready(eng, filtered)
    ensures Shaped(Grouped(eng, q, filtered), GroupWidth(eng, q))
    ensures |Grouped(eng, q, filtered)| > 0
  {
    var es := EvalExprs(eng, q);
    EvaluateShape(eng, filtered, es);
    var res := Evaluated(eng, q, filtered);
    if |q.groups| > 0 {
      GroupsShape(res, |q.groups|);
      GroupPerDistinctKey(res, |q.groups|);
    }
  }

  function Kept(eng: Engine, q: Query, filtered: Table): seq<Table>
    requires Ready(eng, filtered)
  {
    GroupedShape(eng, q, filtered);
    var grouped := Grouped(eng, q, filtered);
    if Present(q.having) then Having(eng, grouped, q.having.value, |HavingTokens(eng, q)|, GroupWidth(eng, q))
    else grouped
  }

  lemma KeptShape(eng: Engine, q: Query, filtered: Table)
    requires Ready(eng, filtered)
    ensures Shaped(Kept(eng, q, filtered), GroupWidth(eng, q) - |HavingTokens(eng, q)|)
  {
    GroupedShape(eng, q, filtered);
    if Present(q.having) {
      HavingShape(eng, Grouped(eng, q, filtered), q.having.value, |HavingTokens(eng, q)|, GroupWidth(eng, q));
    }
  }

  function Ordered(eng: Engine, q: Query, filtered: Table): seq<Table>
    requires Ready(eng, filtered)
  {
    KeptShape(eng, q, filtered);
    var kept := Kept(eng, q, filtered);
    var w := GroupWidth(eng, q) - |HavingTokens(eng, q)|;
    if q.orders.Some? then OrderStage(eng, kept, q.orders.value, |OrderTokens(eng, q)|, w) else kept
  }

  lemma OrderedShape(eng: Engine, q: Query, filtered: Table)
    requires Ready(eng, filtered)
    ensures Shaped(Ordered(eng, q, filtered), OrderedWidth(eng, q))
    ensures |Ordered(eng, q, filtered)| == |Kept(eng, q, filtered)|
  {
    KeptShape(eng, q, filtered);
    if q.orders.Some? {
      var w := GroupWidth(eng, q) - |HavingTokens(eng, q)|;
      OrderStageShape(eng, Kept(eng, q, filtered), q.orders.value, |OrderTokens(eng, q)|, w);
    }
  }

  function Selected(eng: Engine, q: Query, filtered: Table): seq<Table>
    requires Ready(eng, filtered)
  {
    Select(eng, Ordered(eng, q, filtered), q.fieldExprs)
  }

  lemma SelectedShape(eng: Engine, q: Query, filtered: Table)
    requires Ready(eng, filtered)
    ensures Shaped(Selected(eng, q, filtered), |q.fieldExprs|)
    ensures |Selected(eng, q, filtered)| == |Kept(eng, q, filtered)|
    ensures forall j :: 0 <= j < |Selected(eng, q, filtered)| ==>
              |Selected(eng, q, filtered)[j].rows| == |Ordered(eng, q, filtered)[j].rows|
  {
    OrderedShape(eng, q, filtered);
    SelectShape(eng, Ordered(eng, q, filtered), q.fieldExprs, OrderedWidth(eng, q));
  }

  /** The expressions that must all be aggregates for each group to shrink
      to one row: the select expressions that are not group expressions. */
  function CheckExprs(q: Query): seq<Expr> {
    if |q.groups| > 0 then NonGroupExprs(q.fieldExprs, q.groups) else q.fieldExprs
  }

  function Collected(eng: Engine, q: Query, filtered: Table): seq<Table>
    requires Ready(eng, filtered)
  {
    SelectedShape(eng, q, filtered);
    var selected := Selected(eng, q, filtered);
    if eng.isAllTokensInAggregate(CheckExprs(q)) then Collapse(selected) else selected
  }

  lemma CollectedShape(eng: Engine, q: Query, filtered: Table)
    requires Ready(eng, filtered)
    ensures Shaped(Collected(eng, q, filtered), |q.fieldExprs|)
    ensures |Collected(eng, q, filtered)| == |Kept(eng, q, filtered)|
  {
    SelectedShape(eng, q, filtered);
    var selected := Selected(eng, q, filtered);
    if eng.isAllTokensInAggregate(CheckExprs(q)) {
      CollapseShape(selected, |q.fieldExprs|);
    }
  }

  /** The stages after the filter: evaluate, group, having, order, select,
      collapse, merge and limit. No group left after having is an error. */
  function RunStages(eng: Engine, q: Query, filtered: Table): Result<Table>
    requires Ready(eng, filtered)
  {
    var collected := Collected(eng, q, filtered);
    if |collected| == 0 then Err(NoGroupLeft) else Ok(Limit(Merge(collected), q.limit))
  }

  /** What executing a query returns. */
  function Run(eng: Engine, q: Query, keys: seq<Token>): (r: Result<Table>)
    requires Sound(eng) && SourceOk(q.source)
    ensures r.Err? ==> Present(q.having)
  {
    var src := SourceTable(eng, q.source, keys);
    SourceTableWellFormed(eng, q.source, keys);
    if HasSource(q.source) && |src.rows| == 0 then Ok(EmptyTable(q.fieldExprs))
    else
      var fe := WorkingFields(eng, q, keys);
      var filtered := Filtered(eng, q, src);
      FilteredWellFormed(eng, q, src);
      if |filtered.rows| == 0 then Ok(EmptyTable(fe))
      else
        NoGroupLeftIffHavingRejectsAll(eng, q.(fieldExprs := fe), filtered);
        RunStages(eng, q.(fieldExprs := fe), filtered)
  }

  lemma FilteredWellFormed(eng: Engine, q: Query, src: Table)
    requires Sound(eng) && WellFormed(src)
    ensures WellFormed(Filtered(eng, q, src)) && Filtered(eng, q, src).fields == src.fields
  {
    if Present(q.condition) {
      FilterShape(src, eng.evaluateExpression(src, q.condition.value));
    }
  }

  /** The session's filter step: the source rows whose condition value is
      true, or the whole source when the query has no condition. */
  method FilterSource(eng: Engine, q: Query, src: Table) returns (filtered: Table)
    requires Sound(eng) && WellFormed(src)
    ensures filtered == Filtered(eng, q, src)
    ensures WellFormed(filtered) && filtered.fields == src.fields
  {
    if Present(q.condition) {
      var meets := eng.evaluateExpression(src, q.condition.value);
      filtered := FilterRows(src, meets);
    } else {
      filtered := src;
    }
    FilteredWellFormed(eng, q, src);
  }

  /** The session's evaluation and grouping steps: the tokens every clause
      needs are evaluated over the filtered rows, and the result is grouped. */
  method EvaluateAndGroup(eng: Engine, q: Query, filtered: Table)
    returns (resTables: seq<Table>, orderTokens: seq<Token>, havingTokens: seq<Token>)
    requires Ready(eng, filtered)
    ensures resTables == Grouped(eng, q, filtered)
    ensures orderTokens == OrderTokens(eng, q) && havingTokens == HavingTokens(eng, q)
  {
    var selectTokens := eng.extractTokens(q.fieldExprs);
    var evalExprs := selectTokens;
    orderTokens := [];
    if q.orders.Some? {
      orderTokens := eng.extractTokens(q.orders.value.exprs);
      evalExprs := evalExprs + orderTokens;
    }
    havingTokens := [];
    if Present(q.having) {
      havingTokens := eng.extractTokens([q.having.value]);
      evalExprs := evalExprs + havingTokens;
    }
    if |q.groups| > 0 {
      evalExprs := evalExprs + q.groups;
    }
    assert evalExprs == EvalExprs(eng, q);
    EvaluateShape(eng, filtered, evalExprs);
    var resTable := eng.evaluateExpressions(filtered, evalExprs);
    if |q.groups| > 0 {
      resTables := GenerateGroups(resTable, q.groups);
    } else {
      resTables := [resTable];
    }
  }

  /** The stages as the session runs them, one statement at a time. */
  method ExecuteStages(eng: Engine, q: Query, filtered: Table) returns (r: Result<Table>)
    requires Ready(eng, filtered)
    ensures r == RunStages(eng, q, filtered)
  {
    var resTables, orderTokens, havingTokens := EvaluateAndGroup(eng, q, filtered);
    GroupedShape(eng, q, filtered);
    var w := GroupWidth(eng, q);
    if Present(q.having) {
      resTables := HavingFilter(eng, resTables, q.having.value, |havingTokens|, w);
    }
    assert resTables == Kept(eng, q, filtered);
    KeptShape(eng, q, filtered);
    w := w - |havingTokens|;

    if q.orders.Some? {
      resTables := OrderGroups(eng, resTables, q.orders.value, |orderTokens|, w);
    }
    assert resTables == Ordered(eng, q, filtered);

    resTables := SelectColumns(eng, resTables, q.fieldExprs);
    SelectedShape(eng, q, filtered);

    if eng.isAllTokensInAggregate(CheckExprs(q)) {
      resTables := CollapseGroups(resTables);
    }
    assert resTables == Collected(eng, q, filtered);
    CollectedShape(eng, q, filtered);

    if |resTables| == 0 {
      return Err(NoGroupLeft);
    }
    var merged := MergeTables(resTables);
    if q.limit.Some? && q.limit.value != 0 {
      merged := SetTable(merged, merged.rows[..PyStop(|merged.rows|, q.limit.value)]);
    }
    r := Ok(merged);
  }

  // -------------------------------------------------------- what Run means

  /** A source that takes part but yields no rows gives an empty table whose
      fields are the select expressions as written. */
  lemma EmptySourceGivesEmptyTable(eng: Engine, q: Query, keys: seq<Token>)
    requires Sound(eng) && SourceOk(q.source)
    requires HasSource(q.source) && |SourceTable(eng, q.source, keys).rows| == 0
    ensures Run(eng, q, keys) == Ok(Table(q.fieldExprs, []))
    ensures WorkingFields(eng, q, keys) == q.fieldExprs
  {
  }

  /** Without a source the query runs over one row holding one value. */
  lemma NoSourceRunsOnDummyRow(eng: Engine, q: Query, keys: seq<Token>)
    requires !HasSource(q.source)
    ensures SourceTable(eng, q.source, keys).fields == ["Dummy Field"]
    ensures SourceTable(eng, q.source, keys).rows == [[Text("Dummy Value")]]
    ensures WorkingFields(eng, q, keys) == q.fieldExprs
  {
  }

  /** `*` among the select expressions of a query whose source has rows is
      replaced by the source's fields; otherwise they are kept. */
  lemma WildcardTakesSourceFields(eng: Engine, q: Query, keys: seq<Token>)
    requires HasSource(q.source) && |SourceTable(eng, q.source, keys).rows| > 0
    ensures "*" in q.fieldExprs ==> WorkingFields(eng, q, keys) == SourceTable(eng, q.source, keys).fields
    ensures "*" !in q.fieldExprs ==> WorkingFields(eng, q, keys) == q.fieldExprs
  {
  }

  /** A condition that holds for no row gives an empty table over the
      (expanded) select expressions. */
  lemma NoMatchingRowGivesEmptyTable(eng: Engine, q: Query, keys: seq<Token>)
    requires Sound(eng) && SourceOk(q.source) && Present(q.condition)
    requires true !in eng.evaluateExpression(SourceTable(eng, q.source, keys), q.condition.value)
    ensures Run(eng, q, keys) == Ok(Table(WorkingFields(eng, q, keys), []))
  {
    var src := SourceTable(eng, q.source, keys);
    SourceTableWellFormed(eng, q.source, keys);
    FilterShape(src, eng.evaluateExpression(src, q.condition.value));
  }

  /** The query fails exactly when a having clause takes part and no group
      passes it. */
  lemma NoGroupLeftIffHavingRejectsAll(eng: Engine, q: Query, filtered: Table)
    requires Ready(eng, filtered)
    ensures RunStages(eng, q, filtered).Err? <==>
            Present(q.having) &&
            forall j :: 0 <= j < |Grouped(eng, q, filtered)| ==>
              !All(eng.evaluateExpression(Grouped(eng, q, filtered)[j], q.having.value))
  {
    CollectedShape(eng, q, filtered);
    GroupedShape(eng, q, filtered);
    if Present(q.having) {
      HavingCount(eng, Grouped(eng, q, filtered), q.having.value, |HavingTokens(eng, q)|, GroupWidth(eng, q));
    }
  }

  /** A successful run after the filter gives a well-formed table with one
      column per select expression. */
  lemma StagesResultShape(eng: Engine, q: Query, filtered: Table)
    requires Ready(eng, filtered)
    ensures RunStages(eng, q, filtered).Ok? ==>
              var t := RunStages(eng, q, filtered).value;
              WellFormed(t) && |t.fields| == |q.fieldExprs|
  {
    var c := Collected(eng, q, filtered);
    CollectedShape(eng, q, filtered);
    if |c| > 0 {
      assert c[0] in c;
      MergeShape(c);
      LimitKeepsWellFormed(Merge(c), q.limit);
      LimitSpec(Merge(c), q.limit);
    }
  }

  /** Every successful run gives a well-formed table with one column per
      (expanded) select expression. */
  lemma ResultShape(eng: Engine, q: Query, keys: seq<Token>)
    requires Sound(eng) && SourceOk(q.source)
    ensures Run(eng, q, keys).Ok? ==>
              WellFormed(Run(eng, q, keys).value)
              && |Run(eng, q, keys).value.fields| == |WorkingFields(eng, q, keys)|
  {
    var src := SourceTable(eng, q.source, keys);
    SourceTableWellFormed(eng, q.source, keys);
    FilteredWellFormed(eng, q, src);
    var filtered := Filtered(eng, q, src);
    if !(HasSource(q.source) && |src.rows| == 0) && |filtered.rows| > 0 {
      StagesResultShape(eng, q.(fieldExprs := WorkingFields(eng, q, keys)), filtered);
    }
  }

  /** A positive limit `L` bounds the number of result rows by `L`. */
  lemma LimitBoundsRows(eng: Engine, q: Query, keys: seq<Token>)
    requires Sound(eng) && SourceOk(q.source)
    requires q.limit.Some? && q.limit.value > 0
    ensures Run(eng, q, keys).Ok? ==> |Run(eng, q, keys).value.rows| <= q.limit.value
  {
    var src := SourceTable(eng, q.source, keys);
    SourceTableWellFormed(eng, q.source, keys);
    FilteredWellFormed(eng, q, src);
    var filtered := Filtered(eng, q, src);
    if !(HasSource(q.source) && |src.rows| == 0) && |filtered.rows| > 0 {
      var q' := q.(fieldExprs := WorkingFields(eng, q, keys));
      var c := Collected(eng, q', filtered);
      if |c| > 0 {
        LimitSpec(Merge(c), q.limit);
      }
    }
  }

  /** When every non-group select expression is an aggregate, the result
      holds one row per group (one row in all without GROUP BY), unless a
      having clause or a limit takes part. */
  lemma AggregateGivesOneRowPerGroup(eng: Engine, q: Query, filtered: Table)
    requires Ready(eng, filtered)
    requires !Present(q.having) && q.limit.None?
    requires eng.isAllTokensInAggregate(CheckExprs(q))
    ensures RunStages(eng, q, filtered).Ok?
    ensures |RunStages(eng, q, filtered).value.rows| == |Grouped(eng, q, filtered)|
    ensures |q.groups| == 0 ==> |RunStages(eng, q, filtered).value.rows| == 1
  {
    GroupedShape(eng, q, filtered);
    SelectedShape(eng, q, filtered);
    var selected := Selected(eng, q, filtered);
    assert NonEmpty(selected) by {
      forall j | 0 <= j < |selected| ensures |selected[j].rows| > 0 {
        assert selected[j] in selected;
      }
    }
    CollapseMerge(selected);
  }

  /** Without having, aggregate collapse or limit, every filtered row yields
      exactly one result row: grouping, ordering and selecting neither lose
      nor duplicate rows. */
  lemma EveryFilteredRowReachesResult(eng: Engine, q: Query, filtered: Table)
    requires Ready(eng, filtered)
    requires !Present(q.having) && q.limit.None?
    requires !eng.isAllTokensInAggregate(CheckExprs(q))
    ensures RunStages(eng, q, filtered).Ok?
    ensures |RunStages(eng, q, filtered).value.rows| == |filtered.rows|
  {
    var es := EvalExprs(eng, q);
    EvaluateShape(eng, filtered, es);
    var res := Evaluated(eng, q, filtered);
    GroupedShape(eng, q, filtered);
    var grouped := Grouped(eng, q, filtered);
    if |q.groups| > 0 {
      GroupsCoverAllRows(res, |q.groups|);
    } else {
      assert grouped == [res] && [res][..0] == [];
    }
    assert TotalRows(grouped) == |filtered.rows|;
    KeptShape(eng, q, filtered);
    var w := GroupWidth(eng, q) - |HavingTokens(eng, q)|;
    if q.orders.Some? {
      OrderStageKeepsRows(eng, grouped, q.orders.value, |OrderTokens(eng, q)|, w);
    }
    OrderedShape(eng, q, filtered);
    SelectKeepsRows(eng, Ordered(eng, q, filtered), q.fieldExprs, OrderedWidth(eng, q));
    SelectedShape(eng, q, filtered);
    MergeShape(Selected(eng, q, filtered));
  }

  // ----------------------------------------------------------------- class

  class Session {
    const eng: Engine
    const source: Source
    const condition: Option<Expr>
    const groups: seq<Expr>
    const having: Option<Expr>
    const orders: Option<Ordering>
    const limit: Option<int>
    /** The keys handed to the fetcher. */
    const fetchKeys: seq<Token>
    /** The select expressions; `Execute` replaces a `*` by the source fields. */
    var fieldExprs: seq<Expr>

    function Params(): Query
      reads this
    {
      Query(fieldExprs, source, condition, groups, having, orders, limit)
    }

    constructor (eng: Engine, fieldExprs: seq<Expr>, source: Source, condition: Option<Expr>,
                 groups: seq<Expr>, having: Option<Expr>, orders: Option<Ordering>, limit: Option<int>)
      ensures Params() == Query(fieldExprs, source, condition, groups, having, orders, limit)
      ensures this.eng == eng
      ensures fetchKeys == FetchKeys(eng, Params())
    {
      this.eng := eng;
      this.fieldExprs := fieldExprs;
      this.source := source;
      this.condition := condition;
      this.groups := groups;
      this.having := having;
      this.orders := orders;
      this.limit := limit;
      var relKeys := eng.extractTokens(fieldExprs);
      ghost var part := relKeys;
      if Present(condition) {
        relKeys := relKeys + eng.extractTokens([condition.value]);
      }
      assert relKeys == part + (if Present(condition) then eng.extractTokens([condition.value]) else []);
      part := relKeys;
      if |groups| > 0 {
        relKeys := relKeys + eng.extractTokens(groups);
      }
      assert relKeys == part + (if |groups| > 0 then eng.extractTokens(groups) else []);
      part := relKeys;
      if Present(having) {
        relKeys := relKeys + eng.extractTokens([having.value]);
      }
      assert relKeys == part + (if Present(having) then eng.extractTokens([having.value]) else []);
      part := relKeys;
      if orders.Some? {
        relKeys := relKeys + eng.extractTokens(orders.value.exprs);
      }
      assert relKeys == part + (if orders.Some? then eng.extractTokens(orders.value.exprs) else []);
      ghost var all := relKeys;
      assert all == ClauseTokens(eng, Query(fieldExprs, source, condition, groups, having, orders, limit));
      relKeys := Dedupe(relKeys);
      assert "*" in relKeys <==> "*" in all by {
        DedupeSpec(all);
      }
      if "*" in relKeys {
        relKeys := ["*"];
      }
      fetchKeys := relKeys;
    }

    /** A table with the select expressions as fields and no rows. */
    method GetEmptyTable() returns (t: Table)
      ensures WellFormed(t) && t.fields == fieldExprs && |t.rows| == 0
    {
      t := EmptyTable(fieldExprs);
    }

    method Execute() returns (r: Result<Table>)
      requires Sound(eng) && SourceOk(source)
      modifies this
      ensures r == Run(eng, old(Params()), fetchKeys)
      ensures fieldExprs == WorkingFields(eng, old(Params()), fetchKeys)
    {
      ghost var q := Params();
      var sourceTable: Table;
      if HasSource(source) {
        sourceTable := if source.Nested? then source.result else eng.fetch(source.name, fetchKeys);
        if |sourceTable.rows| == 0 {
          var empty := GetEmptyTable();
          return Ok(empty);
        } else if "*" in fieldExprs {
          fieldExprs := sourceTable.fields;
        }
      } else {
        sourceTable := EmptyTable(["Dummy Field"]);
        sourceTable := Append(sourceTable, [Text("Dummy Value")]);
      }
      assert sourceTable == SourceTable(eng, q.source, fetchKeys);
      assert fieldExprs == WorkingFields(eng, q, fetchKeys);
      SourceTableWellFormed(eng, q.source, fetchKeys);

      var filtered := FilterSource(eng, Params(), sourceTable);
      assert filtered == Filtered(eng, q, sourceTable);
      if |filtered.rows| == 0 {
        var empty := GetEmptyTable();
        return Ok(empty);
      }
      assert Params() == q.(fieldExprs := WorkingFields(eng, q, fetchKeys));
      r := ExecuteStages(eng, Params(), filtered);
    }
  }
}
