/** The host query engine as the extension sees it: opaque trees, the text
    renderer, the standard planner and whatever hooks other modules installed.
    None of their internals is modelled; they are parameters of every call. */
module Host {
  import opened Wrappers

  /** The contents of an analyzed query tree, opaque to the extension. */
  type QueryTree(==)

  /** A finished plan tree, opaque to the extension. */
  type PlanTree(==)

  /** The bound parameter list handed to the planner, passed through untouched. */
  type BoundParams

  /** An analyzed query; the extension reads nothing of it but sets `queryId`. */
  datatype Query = Query(tree: QueryTree, queryId: nat)

  /** The parse state of one statement; only its source text is read. */
  datatype ParseState = ParseState(sourceText: string)

  /** Anything the renderer can dump. */
  datatype Node = QueryNode(query: Query) | PlanNode(plan: PlanTree)

  /** What a hook slot can point to: one of this extension's two wrappers, or a
      function installed by some other module. */
  datatype HookId = DebugPostParse | DebugPlanner | Foreign(name: string)

  /** An error raised inside a delegate; it propagates to the caller unchanged. */
  datatype HostError = HostError(message: string)

  /** The host's behaviour, uninterpreted:
      - `render` is nodeToString followed by format_node_dump;
      - `postParseHook` and `plannerHook` run a previously installed hook;
      - `standardPlanner` is the host's default planner. */
  datatype Host = Host(
    render: Node -> string,
    postParseHook: (HookId, ParseState, Query) -> Result<Query, HostError>,
    plannerHook: (HookId, Query, int, BoundParams) -> Result<PlanTree, HostError>,
    standardPlanner: (Query, int, BoundParams) -> Result<PlanTree, HostError>)
}
