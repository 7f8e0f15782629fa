/** The planner hook as written re-reads the counter after its delegate
    returns and puts the plan dump into the record the counter names then. If
    planning analyzes another statement, that is the nested statement's record,
    not the one being planned. */
module Reentry {
  import opened Wrappers
  import opened Host
  import opened Store
  import opened Hooks

  /** The planner wrapper as written: the pre-planning dump goes to the record
      current on entry, the plan dump to the record current on return. Only
      this outermost call is as written; the nested calls run through
      `Hooks.Run`, whose planner calls are the corrected `Hooks.PlannerHook`. */
  function PlannerHookAsWritten(host: Host, st: State, parse: Query, cursorOptions: int, params: BoundParams,
                                nested: seq<Call>): (r: (State, Result<PlanTree, HostError>))
    ensures r.1 == PlannerDelegate(host, st.prevPlanner, parse, cursorOptions, params)
    ensures Extends(st, r.0)
    ensures r.1.Success? ==>
              r.0.store.sqlStmt[r.0.store.seqId].plan == Some(host.render(PlanNode(r.1.value)))
  {
    var entered := st.(store := SetRewritten(st.store, st.store.seqId, host.render(QueryNode(parse))));
    var returned := Run(host, entered, nested);
    var planned := PlannerDelegate(host, st.prevPlanner, parse, cursorOptions, params);
    match planned
    case Success(plan) =>
      (returned.(store := SetPlan(returned.store, returned.store.seqId, host.render(PlanNode(plan)))), planned)
    case Failure(_) => (returned, planned)
  }

  /** As written, when planning analyzes one nested statement, the outer plan
      dump lands in the nested statement's record, and the record being
      planned keeps the plan field it had. */
  lemma AsWrittenMisplacesPlanDump(host: Host, st: State, parse: Query, cursorOptions: int, params: BoundParams,
                                   pstate: ParseState, query: Query)
    requires Valid(st.store) && HasRoom(st.store)
    requires PreviousPostParse(host, st.prevPostParse, pstate, query).Success?
    requires PlannerDelegate(host, st.prevPlanner, parse, cursorOptions, params).Success?
    ensures var id := st.store.seqId;
            var (r, result) := PlannerHookAsWritten(host, st, parse, cursorOptions, params, [Analyze(pstate, query)]);
            && r.store.seqId == id + 1
            && r.store.sqlStmt[id].plan == st.store.sqlStmt[id].plan
            && r.store.sqlStmt[id + 1].sqlStr == Some(pstate.sourceText)
            && r.store.sqlStmt[id + 1].plan == Some(host.render(PlanNode(result.value)))
  {
    var nested := [Analyze(pstate, query)];
    var entered := st.(store := SetRewritten(st.store, st.store.seqId, host.render(QueryNode(parse))));
    assert Analyses(nested) == [(pstate, query)];
    RunRecordsAnalyses(host, entered, nested);
    assert Run(host, entered, nested) == Step(host, entered, nested[0]);
  }

  /** The corrected wrapper keeps the id it started with: the outer plan dump
      goes to the record being planned, and the nested statement's record
      keeps its own NULL plan. */
  lemma CorrectedKeepsPlanWithItsRecord(host: Host, st: State, parse: Query, cursorOptions: int, params: BoundParams,
                                        pstate: ParseState, query: Query)
    requires Valid(st.store) && HasRoom(st.store)
    requires PreviousPostParse(host, st.prevPostParse, pstate, query).Success?
    requires PlannerDelegate(host, st.prevPlanner, parse, cursorOptions, params).Success?
    ensures var id := st.store.seqId;
            var (r, result) := PlannerHook(host, st, parse, cursorOptions, params, [Analyze(pstate, query)]);
            && r.store.seqId == id + 1
            && r.store.sqlStmt[id].rewrittenParseTree == Some(host.render(QueryNode(parse)))
            && r.store.sqlStmt[id].plan == Some(host.render(PlanNode(result.value)))
            && r.store.sqlStmt[id + 1].sqlStr == Some(pstate.sourceText)
            && r.store.sqlStmt[id + 1].plan.None?
  {
    var nested := [Analyze(pstate, query)];
    var entered := st.(store := SetRewritten(st.store, st.store.seqId, host.render(QueryNode(parse))));
    assert Analyses(nested) == [(pstate, query)];
    RunRecordsAnalyses(host, entered, nested);
    assert Run(host, entered, nested) == Step(host, entered, nested[0]);
  }
}
