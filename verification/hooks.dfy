/** The interceptor chain: installing and removing the two wrappers, and what
    each wrapper does to the capture store around its delegate. */
module Hooks {
  import opened Wrappers
  import opened Host
  import opened Store

  /** The host's two hook slots. */
  datatype HookSlots = HookSlots(postParseAnalyze: Option<HookId>, planner: Option<HookId>)

  /** The extension's static state: the capture store and the saved hooks. */
  datatype State = State(store: Store, prevPostParse: Option<HookId>, prevPlanner: Option<HookId>)

  /** Why the post-parse wrapper gave up: its delegate failed, or the store is full. */
  datatype ParseError = DelegateFailed(cause: HostError) | CapacityExceeded

  /** The extension's state right after loading: empty store, no saved hooks. */
  function Initial(): (st: State)
    ensures Valid(st.store) && st.store.seqId == 0
    ensures forall i :: 0 <= i < MAX_SQLSTMT ==> st.store.sqlStmt[i] == EmptySlot
    ensures st.prevPostParse.None? && st.prevPlanner.None?
  {
    State(Empty(), None, None)
  }

  /** Module load: remember the current hooks, then install both wrappers. */
  function Init(slots: HookSlots, st: State): (r: (HookSlots, State))
    ensures r.0.postParseAnalyze == Some(DebugPostParse) && r.0.planner == Some(DebugPlanner)
    ensures r.1.prevPostParse == slots.postParseAnalyze && r.1.prevPlanner == slots.planner
    ensures r.1.store == st.store
  {
    var saved := st.(prevPostParse := slots.postParseAnalyze, prevPlanner := slots.planner);
    (HookSlots(Some(DebugPostParse), Some(DebugPlanner)), saved)
  }

  /** Module unload: put the saved hooks back into the slots, whatever the
      slots hold now. */
  function Fini(current: HookSlots, st: State): (r: HookSlots)
    ensures r.postParseAnalyze == st.prevPostParse && r.planner == st.prevPlanner
  {
    current.(postParseAnalyze := st.prevPostParse, planner := st.prevPlanner)
  }

  /** Init followed by Fini leaves both hook slots as they were. */
  lemma InitThenFiniRestores(slots: HookSlots, st: State)
    ensures var (installed, saved) := Init(slots, st);
            Fini(installed, saved) == slots
  {
  }

  /** Fini's result does not depend on what the slots hold when it runs: a hook
      another module chained on after this one is dropped along with it, since
      uninstalling is not last-in-first-out checked. */
  lemma FiniIgnoresCurrentSlots(slots: HookSlots, st: State, current: HookSlots)
    ensures var (installed, saved) := Init(slots, st);
            Fini(current, saved) == Fini(installed, saved) == slots
  {
  }

  /** The previous post-parse hook, when one was saved; otherwise nothing runs. */
  function PreviousPostParse(host: Host, prev: Option<HookId>, pstate: ParseState, query: Query): (r: Result<Query, HostError>)
    ensures prev.None? ==> r == Success(query)
    ensures prev.Some? ==> r == host.postParseHook(prev.value, pstate, query)
  {
    match prev
    case None => Success(query)
    case Some(h) => host.postParseHook(h, pstate, query)
  }

  /** The planner delegate: the previous planner hook, or the standard planner. */
  function PlannerDelegate(host: Host, prev: Option<HookId>, parse: Query, cursorOptions: int, params: BoundParams)
    : (r: Result<PlanTree, HostError>)
    ensures prev.None? ==> r == host.standardPlanner(parse, cursorOptions, params)
    ensures prev.Some? ==> r == host.plannerHook(prev.value, parse, cursorOptions, params)
  {
    if prev.Some? then host.plannerHook(prev.value, parse, cursorOptions, params)
    else host.standardPlanner(parse, cursorOptions, params)
  }

  /** The post-parse wrapper. The previous hook runs first; only if it returns
      does the wrapper assign the next id, stamp it on the query, and create the
      record from the source text and the dump of the stamped query. A full
      store refuses the statement with an error, which ends the statement, and
      leaves the state as it was. */
  function PostParseAnalyzeHook(host: Host, st: State, pstate: ParseState, query: Query)
    : (r: Result<(State, Query), ParseError>)
    ensures var delegated := PreviousPostParse(host, st.prevPostParse, pstate, query);
            delegated.Failure? ==> r == Failure(DelegateFailed(delegated.error))
    ensures r == Failure(CapacityExceeded) <==>
              PreviousPostParse(host, st.prevPostParse, pstate, query).Success? && !HasRoom(st.store)
    ensures PreviousPostParse(host, st.prevPostParse, pstate, query).Success? && HasRoom(st.store) ==> r.Success?
    ensures r.Success? ==>
              var delegated := PreviousPostParse(host, st.prevPostParse, pstate, query);
              var id := st.store.seqId + 1;
              var (st', query') := r.value;
              && delegated.Success?
              && st'.store.seqId == id
              && query' == delegated.value.(queryId := id)
              && st'.store.sqlStmt[id]
                 == SqlStmt(id, Some(pstate.sourceText), Some(host.render(QueryNode(query'))), None, None)
              && (forall i :: 0 <= i < MAX_SQLSTMT && i != id ==> st'.store.sqlStmt[i] == st.store.sqlStmt[i])
              && st'.prevPostParse == st.prevPostParse
              && st'.prevPlanner == st.prevPlanner
  {
    match PreviousPostParse(host, st.prevPostParse, pstate, query)
    case Failure(e) => Failure(DelegateFailed(e))
    case Success(analyzed) =>
      if !HasRoom(st.store) then Failure(CapacityExceeded)
      else
        var stamped := analyzed.(queryId := st.store.seqId + 1);
        var store' := Create(st.store, pstate.sourceText, host.render(QueryNode(stamped)));
        Success((st.(store := store'), stamped))
  }

  /** One call the host makes into the loaded extension. A planner call lists
      in `nested`, in order, the calls its delegate makes back into the
      extension while it plans: planning can analyze and plan other statements,
      such as the body of an inlined SQL function or a query run through SPI
      while a function is folded. */
  datatype Call =
    | Analyze(pstate: ParseState, query: Query)
    | PlanQuery(parse: Query, cursorOptions: int, params: BoundParams, nested: seq<Call>)

  /** Fields of a record that stay fixed once the parse stage created it. */
  predicate SameIdentity(a: SqlStmt, b: SqlStmt)
  {
    a.sqlId == b.sqlId && a.sqlStr == b.sqlStr && a.parseTree == b.parseTree
  }

  /** What every call keeps: the counter never decreases, the saved hooks stay,
      the id, text and parse dump of every record up to the old counter stay,
      and a valid store stays valid. */
  predicate Extends(st: State, st': State)
  {
    && st.store.seqId <= st'.store.seqId
    && st'.prevPostParse == st.prevPostParse
    && st'.prevPlanner == st.prevPlanner
    && (forall i :: 0 <= i <= st.store.seqId ==> SameIdentity(st'.store.sqlStmt[i], st.store.sqlStmt[i]))
    && (Valid(st.store) ==> Valid(st'.store))
  }

  /** The state after a series of calls, made one after the other. Ids on
      record are always exactly 1..seqId; ids are never reused, and a
      record's id, text and parse dump never change once written. */
  function Run(host: Host, st: State, calls: seq<Call>): (r: State)
    ensures Extends(st, r)
    decreases calls, 0
  {
    if calls == [] then st else Run(host, Step(host, st, calls[0]), calls[1..])
  }

  /** Running two series one after the other is running their concatenation. */
  lemma {:induction false} RunSplit(host: Host, st: State, a: seq<Call>, b: seq<Call>)
    ensures Run(host, st, a + b) == Run(host, Run(host, st, a), b)
    decreases |a|
  {
    if a == [] {
      assert a + b == b;
    } else {
      assert (a + b)[0] == a[0];
      assert (a + b)[1..] == a[1..] + b;
      RunSplit(host, Step(host, st, a[0]), a[1..], b);
    }
  }

  /** The state after one call. A refused post-parse call raises an error that
      ends its statement: the state is unchanged and the host makes no planner
      call for that statement. */
  function Step(host: Host, st: State, call: Call): (r: State)
    ensures Extends(st, r)
    decreases call, 1
  {
    match call
    case Analyze(pstate, query) =>
      var analyzed := PostParseAnalyzeHook(host, st, pstate, query);
      if analyzed.Success? then analyzed.value.0 else st
    case PlanQuery(parse, cursorOptions, params, nested) =>
      PlannerHook(host, st, parse, cursorOptions, params, nested).0
  }

  /** The planner wrapper. It dumps the incoming query into the most recent
      record, runs the delegate (during which the `nested` calls re-enter the
      extension), dumps the plan into the record it started with, and returns
      the delegate's result untouched. A failing delegate leaves that record
      without a new plan dump. */
  function PlannerHook(host: Host, st: State, parse: Query, cursorOptions: int, params: BoundParams, nested: seq<Call>)
    : (r: (State, Result<PlanTree, HostError>))
    ensures r.1 == PlannerDelegate(host, st.prevPlanner, parse, cursorOptions, params)
    ensures Extends(st, r.0)
    ensures r.1.Success? ==>
              r.0.store.sqlStmt[st.store.seqId].plan == Some(host.render(PlanNode(r.1.value)))
    ensures nested == [] ==>
              var before := st.store.sqlStmt[st.store.seqId];
              var after := r.0.store.sqlStmt[st.store.seqId];
              && r.0.store.seqId == st.store.seqId
              && (forall i :: 0 <= i < MAX_SQLSTMT && i != st.store.seqId ==>
                    r.0.store.sqlStmt[i] == st.store.sqlStmt[i])
              && SameIdentity(after, before)
              && after.rewrittenParseTree == Some(host.render(QueryNode(parse)))
              && after.plan == (if r.1.Success? then Some(host.render(PlanNode(r.1.value))) else before.plan)
    decreases nested, 2
  {
    var id := st.store.seqId;
    var entered := st.(store := SetRewritten(st.store, id, host.render(QueryNode(parse))));
    var returned := Run(host, entered, nested);
    var planned := PlannerDelegate(host, st.prevPlanner, parse, cursorOptions, params);
    match planned
    case Success(plan) => (returned.(store := SetPlan(returned.store, id, host.render(PlanNode(plan)))), planned)
    case Failure(_) => (returned, planned)
  }

  /** A refused statement changes nothing: no record, no counter, no hook. */
  lemma RefusedStatementChangesNothing(host: Host, st: State, pstate: ParseState, query: Query)
    requires PostParseAnalyzeHook(host, st, pstate, query).Failure?
    ensures Step(host, st, Analyze(pstate, query)) == st
  {
  }

  /** A statement analyzed and then planned, where the planner receives
      `parse`, the query as the rewriter left it: its record keeps its id, text
      and parse dump, and it holds the dump of the plan whenever the delegate
      returned one. Without re-entry, it also holds the dump of `parse` as its
      pre-planning dump, and it holds a plan dump exactly when the delegate
      returned a plan. */
  lemma AnalyzeThenPlan(host: Host, st: State, pstate: ParseState, query: Query,
                        parse: Query, cursorOptions: int, params: BoundParams, nested: seq<Call>)
    requires PostParseAnalyzeHook(host, st, pstate, query).Success?
    ensures var (analyzed, stamped) := PostParseAnalyzeHook(host, st, pstate, query).value;
            var (planned, result) := PlannerHook(host, analyzed, parse, cursorOptions, params, nested);
            var id := analyzed.store.seqId;
            && id == st.store.seqId + 1
            && planned.store.sqlStmt[id].sqlId == id
            && planned.store.sqlStmt[id].sqlStr == Some(pstate.sourceText)
            && planned.store.sqlStmt[id].parseTree == Some(host.render(QueryNode(stamped)))
            && (result.Success? ==> planned.store.sqlStmt[id].plan == Some(host.render(PlanNode(result.value))))
            && (nested == [] ==>
                  && planned.store.sqlStmt[id].rewrittenParseTree == Some(host.render(QueryNode(parse)))
                  && (planned.store.sqlStmt[id].plan.Some? <==> result.Success?))
  {
    var (analyzed, stamped) := PostParseAnalyzeHook(host, st, pstate, query).value;
    var (planned, result) := PlannerHook(host, analyzed, parse, cursorOptions, params, nested);
    assert SameIdentity(planned.store.sqlStmt[analyzed.store.seqId], analyzed.store.sqlStmt[analyzed.store.seqId]);
  }

  /** The analyses a series of calls performs, nested ones included, in the
      order they run. */
  function Analyses(calls: seq<Call>): seq<(ParseState, Query)>
    decreases calls, 0
  {
    if calls == [] then [] else AnalysesOf(calls[0]) + Analyses(calls[1..])
  }

  /** The analyses one call performs: itself, or those of the planning it wraps. */
  function AnalysesOf(call: Call): seq<(ParseState, Query)>
    decreases call, 1
  {
    match call
    case Analyze(pstate, query) => [(pstate, query)]
    case PlanQuery(_, _, _, nested) => Analyses(nested)
  }

  /** Every analysis gets past the previous post-parse hook. */
  predicate Accepted(host: Host, prev: Option<HookId>, analyses: seq<(ParseState, Query)>)
  {
    forall k :: 0 <= k < |analyses| ==> PreviousPostParse(host, prev, analyses[k].0, analyses[k].1).Success?
  }

  /** `after` holds one new record per analysis, at ids seqId+1, seqId+2, ...
      in order, each with its analysis's source text. */
  predicate RecordsIn(before: Store, after: Store, analyses: seq<(ParseState, Query)>)
  {
    && after.seqId == before.seqId + |analyses|
    && forall k :: 0 <= k < |analyses| ==>
         && after.sqlStmt[before.seqId + k + 1].sqlId == before.seqId + k + 1
         && after.sqlStmt[before.seqId + k + 1].sqlStr == Some(analyses[k].0.sourceText)
  }

  /** When every analysis of `a + b` is accepted, so is every one of `a` and of `b`. */
  lemma AcceptedSplit(host: Host, prev: Option<HookId>, a: seq<(ParseState, Query)>, b: seq<(ParseState, Query)>)
    requires Accepted(host, prev, a + b)
    ensures Accepted(host, prev, a) && Accepted(host, prev, b)
  {
    forall k | 0 <= k < |a| ensures PreviousPostParse(host, prev, a[k].0, a[k].1).Success? {
      assert a[k] == (a + b)[k];
    }
    forall k | 0 <= k < |b| ensures PreviousPostParse(host, prev, b[k].0, b[k].1).Success? {
      assert b[k] == (a + b)[|a| + k];
    }
  }

  /** Any series of calls whose analyses all get past the previous hook, from a
      valid store with room for them, records the N analyses, planning calls
      and re-entrant ones included, under the ids seqId+1 .. seqId+N in the
      order they run, with no gaps. */
  lemma {:induction false} RunRecordsAnalyses(host: Host, st: State, calls: seq<Call>)
    requires Valid(st.store)
    requires st.store.seqId + |Analyses(calls)| < MAX_SQLSTMT
    requires Accepted(host, st.prevPostParse, Analyses(calls))
    ensures RecordsIn(st.store, Run(host, st, calls).store, Analyses(calls))
    decreases calls, 0
  {
    if calls != [] {
      var first := AnalysesOf(calls[0]);
      var rest := Analyses(calls[1..]);
      assert Analyses(calls) == first + rest;
      AcceptedSplit(host, st.prevPostParse, first, rest);
      StepRecordsAnalyses(host, st, calls[0]);
      var mid := Step(host, st, calls[0]);
      RunRecordsAnalyses(host, mid, calls[1..]);
      var last := Run(host, st, calls);
      assert last == Run(host, mid, calls[1..]);
      var base := st.store.seqId;
      forall k | 0 <= k < |first + rest|
        ensures last.store.sqlStmt[base + k + 1].sqlId == base + k + 1
        ensures last.store.sqlStmt[base + k + 1].sqlStr == Some((first + rest)[k].0.sourceText)
      {
        if k < |first| {
          assert SameIdentity(last.store.sqlStmt[base + k + 1], mid.store.sqlStmt[base + k + 1]);
        } else {
          assert (first + rest)[k] == rest[k - |first|];
          assert base + k + 1 == mid.store.seqId + (k - |first|) + 1;
        }
      }
    }
  }

  lemma {:induction false} StepRecordsAnalyses(host: Host, st: State, call: Call)
    requires Valid(st.store)
    requires st.store.seqId + |AnalysesOf(call)| < MAX_SQLSTMT
    requires Accepted(host, st.prevPostParse, AnalysesOf(call))
    ensures RecordsIn(st.store, Step(host, st, call).store, AnalysesOf(call))
    decreases call, 1
  {
    match call
    case Analyze(pstate, query) =>
      assert AnalysesOf(call)[0] == (pstate, query);
      assert PostParseAnalyzeHook(host, st, pstate, query).Success?;
    case PlanQuery(parse, cursorOptions, params, nested) =>
      PlannerRecordsAnalyses(host, st, parse, cursorOptions, params, nested);
  }

  lemma {:induction false} PlannerRecordsAnalyses(host: Host, st: State, parse: Query, cursorOptions: int,
                                                  params: BoundParams, nested: seq<Call>)
    requires Valid(st.store)
    requires st.store.seqId + |Analyses(nested)| < MAX_SQLSTMT
    requires Accepted(host, st.prevPostParse, Analyses(nested))
    ensures RecordsIn(st.store, PlannerHook(host, st, parse, cursorOptions, params, nested).0.store, Analyses(nested))
    decreases nested, 2
  {
    var id := st.store.seqId;
    var entered := st.(store := SetRewritten(st.store, id, host.render(QueryNode(parse))));
    assert Valid(entered.store) by {
      forall i | 1 <= i <= entered.store.seqId ensures Recorded(entered.store.sqlStmt[i], i) {
        assert SameIdentity(entered.store.sqlStmt[i], st.store.sqlStmt[i]);
      }
    }
    RunRecordsAnalyses(host, entered, nested);
    var returned := Run(host, entered, nested);
    var r := PlannerHook(host, st, parse, cursorOptions, params, nested).0;
    forall k | 0 <= k < |Analyses(nested)|
      ensures r.store.sqlStmt[id + k + 1].sqlId == id + k + 1
      ensures r.store.sqlStmt[id + k + 1].sqlStr == Some(Analyses(nested)[k].0.sourceText)
    {
      assert SameIdentity(r.store.sqlStmt[id + k + 1], returned.store.sqlStmt[id + k + 1]);
    }
  }
}
