# pg_debug capture core, modelled in Dafny

`pg_debug` is a PostgreSQL extension. It chains itself onto two host hooks,
`post_parse_analyze_hook` and `planner_hook`. For every statement it records the
source text and a text dump of the query tree at three points: after analysis,
on entry to the planner, and for the finished plan. `sql_info(id)` returns the
records as rows, and `sql_info_reset()` is a declared no-op.

The model is a pure state machine over immutable values:

- `Store` (store.dfy) holds the counter `seq_id` and the fixed 128-slot array
  `sql_stmt`. The counter's type keeps it below 128, so every index is inside
  the array.
- `Hooks` (hooks.dfy) covers hook installation (`Init`, `Fini`) and the two
  wrappers (`PostParseAnalyzeHook`, `PlannerHook`). `Run` replays any series
  of host calls. A planner call carries the calls its delegate makes back into
  the extension while planning, and `Run` executes them between the two
  snapshots. The store invariant is part of the contracts of `Run`, `Step` and
  `PlannerHook`.
- `Retrieval` (retrieval.dfy) covers the row-selection loop of `sql_info` and
  the empty `sql_info_reset`.
- `Overflow` (overflow.dfy) and `Reentry` (reentry.dfy) model two spots of the
  code as written, for the findings below.
- `Host` (host.dfy) holds the host collaborators, all uninterpreted. They are
  fields of a `Host` value passed to every call: `render` (nodeToString then
  format_node_dump), the previously installed hooks, and `standard_planner`.
  Query and plan trees are opaque types.

Three behaviours of the code are worth spelling out:

- The planner wrapper writes into slot `seq_id` without checking that a record
  exists. Before any statement was analyzed, this is slot 0, which is never
  emitted.
- The post-parse wrapper calls the previous hook only when one is installed.
  With none installed, no default runs.
- The code writes past the array once 127 records exist. The model instead
  refuses the 128th statement with `CapacityExceeded`. The refusal is an error
  that ends the statement, so no planner call follows for it, and the state is
  unchanged (see Findings).

The model also departs from the code in one more place. The code puts the plan
dump in the record that `seq_id` names when the delegate returns. The model
puts it in the record that was current on entry (see Findings).

A failing delegate is modelled as a `Failure` result, which stands for PostgreSQL's
non-local error exit:

- If the previous post-parse hook fails, nothing is recorded.
- If the planner delegate fails, the record keeps its new pre-planning dump and
  its old plan field.

## Model

| member | source | states |
|---|---|---|
| Hooks.Initial | pg_debug.c:30-34 | On load the counter is 0, every slot is zeroed, no hook is saved, and the store invariant holds |
| Store.Empty | pg_debug.c:30-31 | The statically initialised store has counter 0 and every slot empty (id 0, all pointers NULL) |
| Hooks.Init | pg_debug.c:48-55 | Install saves the post-parse and planner hooks that were active, then points both slots at this extension's wrappers; the store is untouched |
| Hooks.Fini | pg_debug.c:57-61 | Uninstall sets both hook slots to the values saved at install, whatever they hold now |
| Hooks.InitThenFiniRestores | pg_debug.c:48-61 | Install followed by uninstall leaves both hook slots exactly as they were |
| Hooks.FiniIgnoresCurrentSlots | pg_debug.c:57-61 | Uninstall gives the same slots whatever they hold when it runs. A hook chained on after this extension is dropped along with it: last-in-first-out is not enforced |
| Hooks.PreviousPostParse | pg_debug.c:66-67 | The post-parse delegate is the saved hook when there is one; with none saved, nothing runs and the query passes through unchanged |
| Hooks.PlannerDelegate | pg_debug.c:94-98 | The planner delegate is the saved planner hook when there is one, otherwise the standard planner |
| Hooks.PostParseAnalyzeHook | pg_debug.c:63-82 | The previous hook runs first, and its failure records nothing. Otherwise the counter rises by exactly 1 and the query's id becomes the new counter. The new slot holds that id, the source text, and the dump of the stamped query; its two later snapshots are NULL. Every other slot and both saved hooks are unchanged. The call is refused exactly when the store is full |
| Hooks.PlannerHook | pg_debug.c:84-107 | Returns the delegate's result unchanged, and the plan dump lands in the record current on entry whenever the delegate returns a plan. With no re-entry, the counter and every other slot stay the same. The current slot then keeps its id, text and parse dump, gains the pre-planning dump, and changes its plan only when a plan is returned. With re-entry, the store invariant and every earlier record's id, text and dump are kept |
| Hooks.Step | pg_debug.c:63-107 | Either wrapper keeps the invariant that ids 1..seq_id sit in their own slots with text and parse dump, and that higher slots are untouched. The counter never decreases, earlier records keep their id, text and dump, and the saved hooks are unchanged |
| Hooks.Run | pg_debug.c:63-107 | The same holds over any series of calls, re-entrant ones included, so ids are never reused and a record's id, text and parse dump are fixed once written |
| Hooks.RefusedStatementChangesNothing | pg_debug.c:69-71 | A statement the post-parse wrapper refuses leaves the whole state unchanged |
| Hooks.AnalyzeThenPlan | pg_debug.c:69-104 | After a statement is analyzed and then planned, its record keeps its id, text and parse dump of the analyzed query, and holds the plan dump whenever the delegate returned a plan. The planner may receive any query, such as the rewriter's output. Without re-entry the record also holds the dump of that planner input as its pre-planning dump, and holds a plan dump exactly when the delegate returned one; a failed planner leaves a partial record |
| Hooks.RunRecordsAnalyses | pg_debug.c:69-72 | Any series of calls, planner calls and re-entrant ones included, records its N analyses under ids seq_id+1 .. seq_id+N in the order they run, with no gaps. Each id's slot holds that analysis's source text. This needs room for N more records and every previous-hook call to return |
| Hooks.StepRecordsAnalyses | pg_debug.c:69-72 | The same for one call: an analysis gets the next id, and a planner call records the analyses made during its planning |
| Hooks.PlannerRecordsAnalyses | pg_debug.c:84-104 | The analyses a planner's delegate makes while planning get consecutive ids after the current one, and the wrapper's own writes leave their ids and texts alone |
| Store.Create | pg_debug.c:69-81 | A fresh record is created at the next id, holding the text and dump; nothing else in the array changes |
| Store.SetRewritten | pg_debug.c:88-92 | Only the target record's pre-planning dump changes |
| Store.SetPlan | pg_debug.c:100-104 | Only the target record's plan dump changes |
| Retrieval.RowOf | pg_debug.c:150-165 | A row carries the slot's id and text and each of its three snapshots; a NULL snapshot is a NULL column |
| Retrieval.SqlInfo | pg_debug.c:143-169 | The loop yields exactly the rows of slots 1..seq_id that pass the filter, in slot order. In a reachable store: filter 0 yields ids 1..seq_id ascending, filter k in 1..seq_id yields only record k, and a larger filter yields nothing |
| Retrieval.SelectedAll | pg_debug.c:143-169 | In a reachable store, filter 0 over slots 1..n yields n rows with ids 1..n in ascending order; slot 0 never appears |
| Retrieval.SelectedById | pg_debug.c:167-168 | In a reachable store, a filter k >= 1 yields the single record k when k <= n, and no row otherwise |
| Retrieval.ValidHasTexts | pg_debug.c:151 | In every reachable store, each slot the loop reads has a non-NULL text, so the text column is always defined |
| Retrieval.SqlInfoReset | pg_debug.c:177-180 | Reset changes no state: the store, counter and saved hooks are as before, so every later query returns the same rows |
| Retrieval.TwoStatementScenario | pg_debug.c:143-169 | "SELECT 1" and "SELECT 2" are each analyzed and then planned. Filter 0 then returns both rows, ids 1 then 2, with their texts; filter 1 still returns only the first. The second row carries a plan dump when its planner returned a plan |
| Hooks.RunSplit | pg_debug.c:63-107 | Running two series of calls one after the other is the same as running their concatenation |
| Overflow.RawCreate | pg_debug.c:69-75 | Without a check, record creation writes to slot (seq_id + 1) mod 2^32, which is outside the array exactly when that index is 128 or more. Otherwise that slot receives the new record and no other slot changes |
| Overflow.AsWrittenFitsFirst127 | pg_debug.c:69-71 | As written, the first 127 statements land inside the array, statement k at id k with its text and dump |
| Overflow.AsWrittenOverflowsAt128thStatement | pg_debug.c:69-71 | As written, the 128th statement writes sql_stmt[128], one past the end of the array |
| Overflow.CorrectedRejects128thStatement | pg_debug.c:69-71 | With the capacity check, any series of calls that analyzes 127 statements leaves the counter at 127, and the next statement is refused with CapacityExceeded |
| Reentry.PlannerHookAsWritten | pg_debug.c:84-107 | As written, the plan dump goes to the record that seq_id names when the delegate returns, and the delegate's result is returned unchanged |
| Reentry.AsWrittenMisplacesPlanDump | pg_debug.c:91-103 | As written, when planning analyzes one nested statement, the outer plan dump lands in the nested statement's record and the outer record keeps its old plan field |
| Reentry.CorrectedKeepsPlanWithItsRecord | pg_debug.c:91-103 | With the id kept from entry, the outer record gets both its pre-planning and plan dumps, and the nested statement's record keeps a NULL plan |

## Left out

- Result-set plumbing of `sql_info`: the checks on the caller's result context and their errors, memory-context switches, the tuple descriptor and the tuplestore (pg_debug.c:111-141, 172). They are host I/O protocol; only the row selection is modelled.
- `pstrdup`, `pfree` and memory contexts: strings are values.
- The internals of `nodeToString`, `format_node_dump`, `standard_planner` and other modules' hooks: they are uninterpreted `Host` functions. `render` is assumed total, so a failure inside the dump routines is not modelled.
- A delegate that mutates the query tree in place is not modelled: the delegates return new values. The post-parse hook's changes to the query are seen by the dump, but a planner that scribbles on its input is not.
- Concurrency: each backend has its own statics and calls the hooks one at a time. Re-entry within one backend is modelled through a planner call's nested calls.
- `PG_MODULE_MAGIC` and the `PG_FUNCTION_INFO_V1` registrations.
- The host's dispatch through its hook slots is not modelled. `Run` stands for the host calling the loaded extension's wrappers directly.
- pg_hook.c is not part of this model. Its planner wrapper only passes through to the previous hook or the standard planner. Its `_PG_fini` restores `planner_hook` but not `ProcessUtility_hook` (pg_hook.c:36-39).
- Hooks.PostParseAnalyzeHook: the previous post-parse hook is assumed not to call back into the extension; only the planner delegate re-enters.
- Hooks.PostParseAnalyzeHook: `queryId` is an unbounded natural, not PostgreSQL's 64-bit field. The values stored are at most 127.
- Hooks.PlannerHook: with re-entry, the contract does not fix the pre-planning dump or the other slots. A nested planner call that runs without a nested analysis writes into the same record and can overwrite them.
- Hooks.AnalyzeThenPlan: with re-entry, the record's pre-planning dump is not stated, and a failed outer planner may still leave a plan dump written by a nested planner call into the same record.
- Retrieval.SqlInfo: the id filter is an unbounded natural. The source reads it as an unsigned 32-bit value, and every value above seq_id behaves the same.
- Retrieval.SqlInfo: its requires asks for a non-NULL text in slots 1..seq_id. The source would dereference a NULL text otherwise. Retrieval.ValidHasTexts shows that every reachable store meets it.

## Findings

| source | as written | input that shows it | evidently intended | confidence | as-written member | corrected member |
|---|---|---|---|---|---|---|
| pg_debug.c:69-71 | `seq_id++` and then writes `sql_stmt[seq_id]` with no check against `MAX_SQLSTMT` (128). `sql_info` then reads slots 1..seq_id of the same array | 128 statements analyzed in one backend: the 128th writes `sql_stmt[128]`, one past the end | The store holds at most 127 records. A statement beyond that is refused with an error that ends it, and nothing is written outside the array | high; not executed | Overflow.AsWrittenOverflowsAt128thStatement | Overflow.CorrectedRejects128thStatement |
| pg_debug.c:91-103 | The pre-planning dump goes to `sql_stmt[seq_id]` before the delegate runs. The plan dump goes to `sql_stmt[seq_id]` re-read after the delegate returns | `SELECT * FROM f()` with `f` an inlinable SQL set-returning function: planning analyzes f's body, so `seq_id` moves from n to n+1 and the outer plan dump lands in record n+1 while record n keeps a NULL plan | Both dumps of a statement go to the record that was current when its planning began | medium; not executed | Reentry.AsWrittenMisplacesPlanDump | Reentry.CorrectedKeepsPlanWithItsRecord |
