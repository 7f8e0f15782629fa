/** The record array as the post-parse hook writes it when nothing checks the
    capacity: the counter is an unsigned 32-bit integer incremented before the
    write, and the write goes to `sql_stmt[seq_id]` whatever its value. */
module Overflow {
  import opened Wrappers
  import opened Host
  import opened Store
  import opened Hooks

  /** Values of a 32-bit unsigned counter are taken modulo this. */
  const UINT32_MODULUS: nat := 0x1_0000_0000

  /** The unchecked store: a raw counter and the record array. */
  datatype RawStore = RawStore(seqId: nat, sqlStmt: seq<SqlStmt>)

  /** The unchecked store as loading leaves it. */
  function RawInitial(): (s: RawStore)
    ensures s.seqId == 0 && |s.sqlStmt| == MAX_SQLSTMT
    ensures forall i :: 0 <= i < MAX_SQLSTMT ==> s.sqlStmt[i] == EmptySlot
  {
    RawStore(0, Empty().sqlStmt)
  }

  /** The record-creating part of the post-parse hook without a capacity check.
      `None` stands for a write outside `sql_stmt`, which C leaves undefined. */
  function RawCreate(s: RawStore, text: string, parseTree: string): (r: Option<RawStore>)
    ensures r.None? <==> (s.seqId + 1) % UINT32_MODULUS >= |s.sqlStmt|
    ensures r.Some? ==>
              var id := (s.seqId + 1) % UINT32_MODULUS;
              && r.value.seqId == id
              && |r.value.sqlStmt| == |s.sqlStmt|
              && r.value.sqlStmt[id] == SqlStmt(id, Some(text), Some(parseTree), None, None)
              && forall i :: 0 <= i < |s.sqlStmt| && i != id ==> r.value.sqlStmt[i] == s.sqlStmt[i]
  {
    var id := (s.seqId + 1) % UINT32_MODULUS;
    if id < |s.sqlStmt| then
      Some(RawStore(id, s.sqlStmt[id := SqlStmt(id, Some(text), Some(parseTree), None, None)]))
    else None
  }

  /** The unchecked store after recording each (text, dump) pair in turn;
      `None` once some write has left the array. */
  function RawCreateAll(s: RawStore, statements: seq<(string, string)>): Option<RawStore>
    decreases |statements|
  {
    if statements == [] then Some(s)
    else
      var last := statements[|statements| - 1];
      match RawCreateAll(s, statements[..|statements| - 1])
      case None => None
      case Some(s') => RawCreate(s', last.0, last.1)
  }

  /** The first 127 statements land inside the array: statement k (from 1)
      is stored at id k with its text and dump. */
  lemma {:induction false} AsWrittenFitsFirst127(statements: seq<(string, string)>)
    requires |statements| < MAX_SQLSTMT
    ensures var r := RawCreateAll(RawInitial(), statements);
            && r.Some? && r.value.seqId == |statements| && |r.value.sqlStmt| == MAX_SQLSTMT
            && forall k :: 1 <= k <= |statements| ==>
                 r.value.sqlStmt[k] == SqlStmt(k, Some(statements[k - 1].0), Some(statements[k - 1].1), None, None)
    decreases |statements|
  {
    if statements != [] {
      var prefix := statements[..|statements| - 1];
      AsWrittenFitsFirst127(prefix);
      forall j | 0 <= j < |prefix| ensures statements[j] == prefix[j] {
      }
    }
  }

  /** The 128th statement is written to sql_stmt[128], one past the end. */
  lemma AsWrittenOverflowsAt128thStatement(statements: seq<(string, string)>)
    requires |statements| == MAX_SQLSTMT
    ensures RawCreateAll(RawInitial(), statements).None?
  {
    var prefix := statements[..|statements| - 1];
    AsWrittenFitsFirst127(prefix);
    var s' := RawCreateAll(RawInitial(), prefix).value;
    assert (s'.seqId + 1) % UINT32_MODULUS == MAX_SQLSTMT;
  }

  /** With the capacity check, any series of calls that analyzes 127
      statements records them under ids 1..127, and the next statement is
      refused, so no write ever leaves the array. */
  lemma CorrectedRejects128thStatement(host: Host, calls: seq<Call>, pstate: ParseState, query: Query)
    requires |Analyses(calls)| == MAX_SQLSTMT - 1
    ensures var st := Run(host, Initial(), calls);
            && st.store.seqId == MAX_SQLSTMT - 1
            && PostParseAnalyzeHook(host, st, pstate, query) == Failure(CapacityExceeded)
  {
    RunRecordsAnalyses(host, Initial(), calls);
  }
}
