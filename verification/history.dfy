/** history.go: turning persisted steps back into the conversation the model sees. */
module History {
  import opened Text
  import opened Messages
  import opened Store
  import Parser

  const HISTORY_WINDOW := 80

  /** One replayed message and the index of the step it came from. */
  datatype Entry = Entry(msg: Message, step: int)

  datatype Checkpoint = Checkpoint(summary: string, retainFrom: int, at: int)

  function StepToTurn(step: RunStep): Option<Message> {
    match step.kind
    case User => Some(Message("user", step.content))
    case Response => Some(Message("assistant", step.content))
    case ExecuteJs => Some(Message("assistant", Parser.Refence(step.content)))
    case ExecuteJsResult => Some(Message("user", RESULT_PREFIX + "\n" + step.content))
    case _ => None
  }

  /** What each kind of step is replayed as: questions, answers, scripts in their fence, outputs under their
      label; checkpoints, errors and kinds of other makers not at all. */
  lemma ReplayedAs(step: RunStep)
    ensures StepToTurn(step) ==
            match step.kind
            case User => Some(Message("user", step.content))
            case Response => Some(Message("assistant", step.content))
            case ExecuteJs => Some(Message("assistant", "```javascript\n" + step.content + "\n```"))
            case ExecuteJsResult => Some(Message("user", "Execution result:\n" + step.content))
            case _ => None
  {
    assert "Execution result:" + "\n" == "Execution result:\n";
  }

  predicate Usable(step: RunStep) {
    step.kind == Summary && !IsBlank(step.content) && step.toolArgs.Marker?
  }

  /** The most recent usable checkpoint. */
  function LastCheckpoint(steps: seq<RunStep>): Option<Checkpoint> {
    if steps == [] then None
    else
      var last := steps[|steps| - 1];
      if Usable(last) then Some(Checkpoint(last.content, last.toolArgs.retainFromStep, last.index))
      else LastCheckpoint(steps[..|steps| - 1])
  }

  /** Whether a step is replayed, given where retained history resumes (if it was compacted). */
  predicate Kept(step: RunStep, from: Option<int>) {
    StepToTurn(step).Some? && (from.Some? ==> step.index >= from.value)
  }

  function Played(step: RunStep, from: Option<int>): seq<Entry> {
    if Kept(step, from) then [Entry(StepToTurn(step).value, step.index)] else []
  }

  function Replay(steps: seq<RunStep>, from: Option<int>): seq<Entry> {
    if steps == [] then [] else Played(steps[0], from) + Replay(steps[1..], from)
  }

  function Loaded(steps: seq<RunStep>, window: int): seq<RunStep> {
    LastRows(steps, if window <= 0 then HISTORY_WINDOW else window)
  }

  /** The history rebuilt from the loaded steps. */
  function Rebuilt(steps: seq<RunStep>): seq<Entry> {
    match LastCheckpoint(steps)
    case None => Replay(steps, None)
    case Some(cp) => [Entry(Message("user", cp.summary), cp.at)] + Replay(steps, Some(cp.retainFrom))
  }

  function Rehydrated(steps: seq<RunStep>, window: int): seq<Entry> { Rebuilt(Loaded(steps, window)) }

  function Msgs(es: seq<Entry>): (ms: seq<Message>)
    ensures |ms| == |es|
  {
    seq(|es|, i requires 0 <= i < |es| => es[i].msg)
  }

  function StepsOf(es: seq<Entry>): (xs: seq<int>)
    ensures |xs| == |es|
  {
    seq(|es|, i requires 0 <= i < |es| => es[i].step)
  }

  method FindLastCheckpoint(steps: seq<RunStep>) returns (cp: Option<Checkpoint>)
    ensures cp == LastCheckpoint(steps)
  {
    var i := |steps| - 1;
    assert steps[..|steps|] == steps;
    while i >= 0
      invariant -1 <= i < |steps|
      invariant LastCheckpoint(steps) == LastCheckpoint(steps[..i + 1])
    {
      var step := steps[i];
      assert steps[..i + 1][..i] == steps[..i];
      if step.kind == Summary && !IsBlank(step.content) && step.toolArgs.Marker? {
        return Some(Checkpoint(step.content, step.toolArgs.retainFromStep, step.index));
      }
      i := i - 1;
    }
    return None;
  }

  lemma {:induction false} ReplaySnoc(steps: seq<RunStep>, step: RunStep, from: Option<int>)
    ensures Replay(steps + [step], from) == Replay(steps, from) + Played(step, from)
  {
    hide Played;
    if steps == [] {
      assert [step][1..] == [] && steps + [step] == [step];
    } else {
      assert (steps + [step])[1..] == steps[1..] + [step];
      ReplaySnoc(steps[1..], step, from);
    }
  }

  lemma ReplayStep(head: seq<Entry>, loaded: seq<RunStep>, i: nat, from: Option<int>)
    requires i < |loaded|
    ensures var before := head + Replay(loaded[..i], from); var after := head + Replay(loaded[..i + 1], from);
            Msgs(after) == Msgs(before) + (if Kept(loaded[i], from) then [StepToTurn(loaded[i]).value] else []) &&
            StepsOf(after) == StepsOf(before) + (if Kept(loaded[i], from) then [loaded[i].index] else [])
  {
    hide StepToTurn, Replay;
    assert loaded[..i + 1] == loaded[..i] + [loaded[i]];
    ReplaySnoc(loaded[..i], loaded[i], from);
    hide Kept;
    var before := head + Replay(loaded[..i], from);
    if Kept(loaded[i], from) {
      var e := Entry(StepToTurn(loaded[i]).value, loaded[i].index);
      assert head + Replay(loaded[..i + 1], from) == before + [e];
      assert Msgs(before + [e]) == Msgs(before) + [e.msg];
      assert StepsOf(before + [e]) == StepsOf(before) + [e.step];
    }
  }

  method RehydrateHistory(steps: seq<RunStep>, window: int) returns (out: seq<Message>, stepOf: seq<int>)
    ensures out == Msgs(Rehydrated(steps, window)) && stepOf == StepsOf(Rehydrated(steps, window))
  {
    hide StepToTurn, LastCheckpoint, Replay;
    var w := if window <= 0 then HISTORY_WINDOW else window;
    var loaded := steps;
    if |loaded| > w { loaded := loaded[|loaded| - w..]; }
    assert loaded == Loaded(steps, window);
    hide Loaded;
    var cp := FindLastCheckpoint(loaded);
    out, stepOf := [], [];
    ghost var head: seq<Entry> := [];
    if cp.Some? {
      out := out + [Message("user", cp.value.summary)];
      stepOf := stepOf + [cp.value.at];
      head := [Entry(Message("user", cp.value.summary), cp.value.at)];
    }
    var from := if cp.Some? then Some(cp.value.retainFrom) else None;
    ReplayNothing(from);
    assert head + Replay([], from) == head && loaded[..0] == [];
    assert head + Replay(loaded, from) == Rebuilt(loaded);
    hide Rebuilt, Msgs, StepsOf;
    var i := 0;
    while i < |loaded|
      invariant 0 <= i <= |loaded|
      invariant out == Msgs(head + Replay(loaded[..i], from))
      invariant stepOf == StepsOf(head + Replay(loaded[..i], from))
    {
      var step := loaded[i];
      ReplayStep(head, loaded, i, from);
      SummaryNotReplayed(step);
      if step.kind != Summary && !(cp.Some? && step.index < cp.value.retainFrom) {
        var turn := StepToTurn(step);
        if turn.Some? {
          out := out + [turn.value];
          stepOf := stepOf + [step.index];
        }
      }
      i := i + 1;
    }
    assert loaded[..i] == loaded;
  }

  lemma ReplayNothing(from: Option<int>)
    ensures Replay([], from) == []
  {}

  lemma SummaryNotReplayed(step: RunStep)
    ensures step.kind == Summary ==> StepToTurn(step) == None
  {}

  lemma MsgsAppend(a: seq<Entry>, b: seq<Entry>)
    ensures Msgs(a + b) == Msgs(a) + Msgs(b)
  {}

  lemma {:induction false} ReplayAppend(a: seq<RunStep>, b: seq<RunStep>, from: Option<int>)
    ensures Replay(a + b, from) == Replay(a, from) + Replay(b, from)
  {
    hide Played;
    if a == [] {
      assert a + b == b;
    } else {
      assert (a + b)[1..] == a[1..] + b;
      ReplayAppend(a[1..], b, from);
    }
  }
}
