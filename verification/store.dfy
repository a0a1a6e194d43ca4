/** store.go and agentloopmem/stores.go: the rows of a session's trace. */
module Store {
  import opened Text

  datatype StepKind = User | ExecuteJs | ExecuteJsResult | Response | ErrorStep | Summary | Other(name: string)

  /** A step's ToolArgs as decodeCheckpoint reads them: absent, unreadable, or a checkpoint marker
      (an object without the field reads as zero). JSON itself is not part of this model. */
  datatype ToolArgs = Absent | Unreadable | Marker(retainFromStep: int)

  datatype RunStep = RunStep(sessionId: string, index: int, kind: StepKind, content: string, toolArgs: ToolArgs)

  /** The last n rows, oldest first; all of them for a non-positive n. */
  function LastRows(rows: seq<RunStep>, n: int): (out: seq<RunStep>)
    ensures |out| == if n <= 0 || |rows| <= n then |rows| else n
    ensures out == rows[|rows| - |out|..]
  {
    if n <= 0 || |rows| <= n then rows else rows[|rows| - n..]
  }

  function RowsOf(m: map<string, seq<RunStep>>, sid: string): seq<RunStep> {
    if sid in m then m[sid] else []
  }

  class StepStore {
    var rows: map<string, seq<RunStep>>

    constructor ()
      ensures rows == map[]
    {
      rows := map[];
    }

    method Append(step: RunStep)
      modifies this
      ensures rows == old(rows)[step.sessionId := RowsOf(old(rows), step.sessionId) + [step]]
    {
      rows := rows[step.sessionId := RowsOf(rows, step.sessionId) + [step]];
    }

    method LastN(sid: string, n: int) returns (out: seq<RunStep>)
      ensures out == LastRows(RowsOf(rows, sid), n)
    {
      var mine := RowsOf(rows, sid);
      if n <= 0 || |mine| <= n { return mine; }
      return mine[|mine| - n..];
    }
  }

  /** Appending then reading back a window sees the new row last and the old rows before it. */
  lemma AppendThenLastN(rows: seq<RunStep>, step: RunStep, n: int)
    ensures n > 0 ==> LastRows(rows + [step], n) == (if n == 1 then [] else LastRows(rows, n - 1)) + [step]
    ensures n <= 0 ==> LastRows(rows + [step], n) == LastRows(rows, n) + [step]
  {}
}
