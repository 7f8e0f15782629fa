/** The capture store: the counter `seq_id` and the fixed array `sql_stmt` of
    statement records. Slot `i` of the array holds the record with id `i`; slot 0
    is never assigned. The counter's type keeps every index inside the array. */
module Store {
  import opened Wrappers

  /** Number of slots in the record array. */
  const MAX_SQLSTMT: nat := 128

  /** An index that lies inside the record array. */
  type SlotIndex = i: nat | i < MAX_SQLSTMT

  /** One captured statement. Every text field is a nullable pointer in the source. */
  datatype SqlStmt = SqlStmt(
    sqlId: nat,
    sqlStr: Option<string>,
    parseTree: Option<string>,
    rewrittenParseTree: Option<string>,
    plan: Option<string>)

  /** A slot as static initialisation leaves it: id 0 and every pointer NULL. */
  const EmptySlot: SqlStmt := SqlStmt(0, None, None, None, None)

  /** The record array, whose length is fixed. */
  type StmtArray = a: seq<SqlStmt> | |a| == MAX_SQLSTMT witness seq(MAX_SQLSTMT, _ => EmptySlot)

  /** The counter of the last id assigned together with the record array. */
  datatype Store = Store(seqId: SlotIndex, sqlStmt: StmtArray)

  /** The store when the extension is loaded. */
  function Empty(): (s: Store)
    ensures s.seqId == 0
    ensures forall i :: 0 <= i < MAX_SQLSTMT ==> s.sqlStmt[i] == EmptySlot
  {
    Store(0, seq(MAX_SQLSTMT, _ => EmptySlot))
  }

  /** Slot content of a record created by the parse stage with identifier `id`. */
  predicate Recorded(stmt: SqlStmt, id: nat)
  {
    stmt.sqlId == id && stmt.sqlStr.Some? && stmt.parseTree.Some?
  }

  /** The invariant of every reachable store: ids 1..seqId are recorded in their
      own slots, with no gaps, and the slots above seqId are still untouched. */
  predicate Valid(s: Store)
  {
    && (forall i :: 1 <= i <= s.seqId ==> Recorded(s.sqlStmt[i], i))
    && (forall i :: s.seqId < i < MAX_SQLSTMT ==> s.sqlStmt[i] == EmptySlot)
  }

  /** True when one more record fits behind the current one. */
  predicate HasRoom(s: Store)
  {
    s.seqId + 1 < MAX_SQLSTMT
  }

  /** Assign the next id and fill a fresh record for it. */
  function Create(s: Store, text: string, parseTree: string): (r: Store)
    requires HasRoom(s)
    ensures r.seqId == s.seqId + 1
    ensures r.sqlStmt[r.seqId] == SqlStmt(r.seqId, Some(text), Some(parseTree), None, None)
    ensures forall i :: 0 <= i < MAX_SQLSTMT && i != r.seqId ==> r.sqlStmt[i] == s.sqlStmt[i]
  {
    var id := s.seqId + 1;
    Store(id, s.sqlStmt[id := SqlStmt(id, Some(text), Some(parseTree), None, None)])
  }

  /** Store a pre-planning snapshot in record `id`. */
  function SetRewritten(s: Store, id: SlotIndex, snapshot: string): (r: Store)
    ensures r.seqId == s.seqId
    ensures r.sqlStmt[id] == s.sqlStmt[id].(rewrittenParseTree := Some(snapshot))
    ensures forall i :: 0 <= i < MAX_SQLSTMT && i != id ==> r.sqlStmt[i] == s.sqlStmt[i]
  {
    s.(sqlStmt := s.sqlStmt[id := s.sqlStmt[id].(rewrittenParseTree := Some(snapshot))])
  }

  /** Store a plan snapshot in record `id`. */
  function SetPlan(s: Store, id: SlotIndex, snapshot: string): (r: Store)
    ensures r.seqId == s.seqId
    ensures r.sqlStmt[id] == s.sqlStmt[id].(plan := Some(snapshot))
    ensures forall i :: 0 <= i < MAX_SQLSTMT && i != id ==> r.sqlStmt[i] == s.sqlStmt[i]
  {
    s.(sqlStmt := s.sqlStmt[id := s.sqlStmt[id].(plan := Some(snapshot))])
  }
}
