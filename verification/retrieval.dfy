/** The query interface: `sql_info(id)` walks slots 1..seqId and emits one row
    per slot that passes the filter; `sql_info_reset` does nothing. */
module Retrieval {
  import opened Wrappers
  import opened Host
  import opened Store
  import opened Hooks

  /** One result row: id, source text and the three nullable snapshots. */
  datatype Row = Row(
    sqlId: nat,
    sqlStr: string,
    parseTree: Option<string>,
    rewrittenParseTree: Option<string>,
    plan: Option<string>)

  /** The text column is read from every visited slot without a NULL check, so
      the slots 1..seqId must hold a text. */
  predicate TextsPresent(s: Store)
  {
    forall i :: 1 <= i <= s.seqId ==> s.sqlStmt[i].sqlStr.Some?
  }

  /** Every reachable store meets what the loop needs. */
  lemma ValidHasTexts(s: Store)
    requires Valid(s)
    ensures TextsPresent(s)
  {
  }

  /** The row built from one slot; a NULL snapshot becomes a NULL column. */
  function RowOf(stmt: SqlStmt): (r: Row)
    requires stmt.sqlStr.Some?
    ensures r.sqlId == stmt.sqlId && Some(r.sqlStr) == stmt.sqlStr
    ensures r.parseTree == stmt.parseTree
    ensures r.rewrittenParseTree == stmt.rewrittenParseTree
    ensures r.plan == stmt.plan
  {
    Row(stmt.sqlId, stmt.sqlStr.value, stmt.parseTree, stmt.rewrittenParseTree, stmt.plan)
  }

  /** Filter 0 emits every slot; any other filter emits the slots with that id. */
  predicate Emits(stmt: SqlStmt, filter: nat)
  {
    filter == 0 || stmt.sqlId == filter
  }

  /** The rows emitted from slots 1..n, in slot order. */
  function Selected(s: Store, n: nat, filter: nat): seq<Row>
    requires n <= s.seqId
    requires TextsPresent(s)
  {
    if n == 0 then []
    else Selected(s, n - 1, filter) + (if Emits(s.sqlStmt[n], filter) then [RowOf(s.sqlStmt[n])] else [])
  }

  /** In a valid store, filter 0 over slots 1..n yields the records with ids
      1..n, in ascending order; slot 0 never appears. */
  lemma {:induction false} SelectedAll(s: Store, n: nat)
    requires Valid(s)
    requires n <= s.seqId
    ensures TextsPresent(s)
    ensures |Selected(s, n, 0)| == n
    ensures forall k :: 0 <= k < n ==>
              Selected(s, n, 0)[k] == RowOf(s.sqlStmt[k + 1]) && Selected(s, n, 0)[k].sqlId == k + 1
  {
    ValidHasTexts(s);
    if n > 0 {
      SelectedAll(s, n - 1);
      assert Recorded(s.sqlStmt[n], n);
    }
  }

  /** In a valid store, a filter k >= 1 over slots 1..n yields the one record
      with id k when k <= n, and nothing otherwise. */
  lemma {:induction false} SelectedById(s: Store, n: nat, filter: nat)
    requires Valid(s)
    requires n <= s.seqId
    requires filter >= 1
    ensures TextsPresent(s)
    ensures Selected(s, n, filter) == if filter <= n then [RowOf(s.sqlStmt[filter])] else []
  {
    ValidHasTexts(s);
    if n > 0 {
      SelectedById(s, n - 1, filter);
      assert Recorded(s.sqlStmt[n], n);
    }
  }

  /** sql_info: the loop over slots 1..seqId, keeping the rows the filter passes. */
  method SqlInfo(s: Store, filter: nat) returns (rows: seq<Row>)
    requires TextsPresent(s)
    ensures rows == Selected(s, s.seqId, filter)
    ensures Valid(s) && filter == 0 ==>
              && |rows| == s.seqId
              && forall k :: 0 <= k < |rows| ==> rows[k] == RowOf(s.sqlStmt[k + 1]) && rows[k].sqlId == k + 1
    ensures Valid(s) && 1 <= filter <= s.seqId ==> rows == [RowOf(s.sqlStmt[filter])]
    ensures Valid(s) && filter > s.seqId ==> rows == []
  {
    rows := [];
    var i := 1;
    while i <= s.seqId
      invariant 1 <= i <= s.seqId + 1
      invariant rows == Selected(s, i - 1, filter)
    {
      var row := RowOf(s.sqlStmt[i]);
      if Emits(s.sqlStmt[i], filter) {
        rows := rows + [row];
      }
      i := i + 1;
    }
    if Valid(s) {
      if filter == 0 {
        SelectedAll(s, s.seqId);
      } else {
        SelectedById(s, s.seqId, filter);
      }
    }
  }

  /** sql_info_reset: declared but empty; every later query sees the same rows. */
  function SqlInfoReset(st: State): (r: State)
    ensures r.store.seqId == st.store.seqId
    ensures r.store == st.store
    ensures TextsPresent(st.store) ==>
              TextsPresent(r.store) &&
              forall filter: nat :: Selected(r.store, r.store.seqId, filter) == Selected(st.store, st.store.seqId, filter)
    ensures r.prevPostParse == st.prevPostParse && r.prevPlanner == st.prevPlanner
  {
    st
  }

  /** Two statements observed and planned after loading: filter 0 lists both
      in id order, filter 1 still lists only the first, and each row carries
      the plan dump whenever its planner returned a plan. */
  lemma TwoStatementScenario(host: Host, q1: Query, q2: Query, params: BoundParams)
    ensures var calls := [Analyze(ParseState("SELECT 1"), q1), PlanQuery(q1.(queryId := 1), 0, params, []),
                          Analyze(ParseState("SELECT 2"), q2), PlanQuery(q2.(queryId := 2), 0, params, [])];
            var st := Run(host, Initial(), calls);
            && Valid(st.store)
            && st.store.seqId == 2
            && TextsPresent(st.store)
            && |Selected(st.store, 2, 0)| == 2
            && Selected(st.store, 2, 0)[0].sqlId == 1 && Selected(st.store, 2, 0)[0].sqlStr == "SELECT 1"
            && Selected(st.store, 2, 0)[1].sqlId == 2 && Selected(st.store, 2, 0)[1].sqlStr == "SELECT 2"
            && Selected(st.store, 2, 1) == [Selected(st.store, 2, 0)[0]]
            && (host.standardPlanner(q2.(queryId := 2), 0, params).Success? ==>
                  Selected(st.store, 2, 0)[1].plan.Some?)
  {
    var calls := [Analyze(ParseState("SELECT 1"), q1), PlanQuery(q1.(queryId := 1), 0, params, []),
                  Analyze(ParseState("SELECT 2"), q2), PlanQuery(q2.(queryId := 2), 0, params, [])];
    assert Analyses(calls) == [(ParseState("SELECT 1"), q1), (ParseState("SELECT 2"), q2)] by {
      assert Analyses(calls[3..]) == [];
      assert Analyses(calls[2..]) == [(ParseState("SELECT 2"), q2)];
      assert Analyses(calls[1..]) == [(ParseState("SELECT 2"), q2)];
    }
    RunRecordsAnalyses(host, Initial(), calls);
    var st := Run(host, Initial(), calls);
    var st3 := Run(host, Initial(), calls[..3]);
    assert st == Step(host, st3, calls[3]) by {
      RunSplit(host, Initial(), calls[..3], calls[3..]);
      assert calls[..3] + calls[3..] == calls;
    }
    assert Analyses(calls)[1].0.sourceText == "SELECT 2";
    assert st.store.sqlStmt[0 + 1 + 1].sqlStr == Some(Analyses(calls)[1].0.sourceText);
    assert st.store.sqlStmt[1].sqlStr == Some("SELECT 1");
    assert st.store.sqlStmt[2].sqlStr == Some("SELECT 2");
    SelectedAll(st.store, 2);
    SelectedById(st.store, 2, 1);
  }
}
