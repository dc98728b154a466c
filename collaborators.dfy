/** The collaborators the session pipeline calls but does not define: the
    expression evaluator, the row and table orderings and the table
    fetcher. Each is a function-valued field of `Engine`; `Sound` states the
    only facts the pipeline relies on, namely the shapes of their results. */
module Collaborators {
  import opened Tables

  type Expr = string
  type Token = string

  /** A sort direction, passed through untouched to the orderings. */
  type Direction = string

  /** An ORDER BY clause: the expressions to sort by and their directions. */
  datatype Ordering = Ordering(exprs: seq<Expr>, directions: seq<Direction>)

  datatype Engine = Engine(
    /** The tokens (column references and sub-expressions) that a list of
        expressions needs evaluated. */
    extractTokens: seq<Expr> -> seq<Token>,
    /** One truth value per row of the table. */
    evaluateExpression: (Table, Expr) -> seq<bool>,
    /** A table with one column per expression and one row per input row. */
    evaluateExpressions: (Table, seq<Expr>) -> Table,
    /** Whether every token of the expressions sits inside an aggregate. */
    isAllTokensInAggregate: seq<Expr> -> bool,
    /** Sorts the rows of one table, keeping all its columns. */
    sortRows: (Table, seq<Direction>) -> Table,
    /** Sorts a list of tables. */
    sortTables: (seq<Table>, seq<Direction>) -> seq<Table>,
    /** Fetches the table a source label names, restricted to the given keys. */
    fetch: (string, seq<Token>) -> Table
  )

  /** The shape contracts of the collaborators. */
  ghost predicate Sound(eng: Engine) {
    && (forall t: Table, e: Expr ::
          WellFormed(t) ==> |eng.evaluateExpression(t, e)| == |t.rows|)
    && (forall t: Table, es: seq<Expr> ::
          WellFormed(t) ==>
            var r := eng.evaluateExpressions(t, es);
            WellFormed(r) && |r.fields| == |es| && |r.rows| == |t.rows|)
    && (forall t: Table, d: seq<Direction> ::
          var r := eng.sortRows(t, d);
          r.fields == t.fields && multiset(r.rows) == multiset(t.rows))
    && (forall ts: seq<Table>, d: seq<Direction> ::
          multiset(eng.sortTables(ts, d)) == multiset(ts))
    && (forall name: string, keys: seq<Token> ::
          WellFormed(eng.fetch(name, keys)))
  }

  /** Evaluating expressions over a well-formed table gives a well-formed
      table with one column per expression and the same rows count. */
  lemma EvaluateShape(eng: Engine, t: Table, es: seq<Expr>)
    requires Sound(eng) && WellFormed(t)
    ensures var r := eng.evaluateExpressions(t, es);
            WellFormed(r) && |r.fields| == |es| && |r.rows| == |t.rows|
  {
  }

  /** Sorting rows keeps the table well-formed and its row count. */
  lemma SortRowsShape(eng: Engine, t: Table, d: seq<Direction>)
    requires Sound(eng) && WellFormed(t)
    ensures var r := eng.sortRows(t, d);
            WellFormed(r) && r.fields == t.fields && |r.rows| == |t.rows|
  {
    var r := eng.sortRows(t, d);
    assert multiset(r.rows) == multiset(t.rows);
    forall row | row in r.rows
      ensures |row| == |r.fields|
    {
      assert row in multiset(r.rows);
    }
    assert |multiset(r.rows)| == |multiset(t.rows)|;
  }

  /** Sorting tables keeps their number and draws every result from the input. */
  lemma SortTablesMembers(eng: Engine, ts: seq<Table>, d: seq<Direction>)
    requires Sound(eng)
    ensures var r := eng.sortTables(ts, d);
            |r| == |ts| && forall t | t in r :: t in ts
  {
    var r := eng.sortTables(ts, d);
    assert multiset(r) == multiset(ts);
    assert |multiset(r)| == |multiset(ts)|;
    forall t | t in r
      ensures t in ts
    {
      assert t in multiset(r);
    }
  }
}
