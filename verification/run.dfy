/** run.go: one Run of the loop, from loading the session to its single Finalize. */
module Run {
  import opened Text
  import opened Messages
  import opened Compact
  import opened Store
  import opened History
  import opened Parser

  const MAX_ITERATIONS := 20
  const MAX_EMPTY_RETRIES := 2

  type Compactor = seq<Message> -> CompactResult

  datatype Config = Config(historyWindow: int, maxIterations: int, redact: string -> string)

  function New(cfg: Config): Config {
    cfg.(historyWindow := if cfg.historyWindow <= 0 then HISTORY_WINDOW else cfg.historyWindow,
         maxIterations := if cfg.maxIterations <= 0 then MAX_ITERATIONS else cfg.maxIterations)
  }

  /** What running a script gave: its logs and return value, or an error text with a retry hint. */
  datatype Exec = Returned(logs: string, value: string) | Threw(error: string, hint: string)

  datatype Script = Script(code: string, args: string, outcome: Exec)

  datatype Stream = Failed(error: string) | Replied(content: string, inputTokens: int, outputTokens: int)

  /** Everything one iteration learns from outside: whether the context was cancelled, the model's
      reply, and, should a script run, its outcome and the value it passed to answer(). */
  datatype Turn = Turn(cancelled: bool, stream: Stream, exec: Exec, answer: Option<string>)

  /** Everything a Run learns from outside: `appendOk` tells which attempts to persist a step succeed,
      `compactor` what the configured compactor, if there is one, makes of a history in this Run. */
  datatype Env = Env(
    sessionFound: bool, loadOk: bool, buildOk: bool, appendOk: nat -> bool,
    compactor: Option<Compactor>, turn: nat -> Turn)

  /** A step as handed to writeStep. Steps that are no checkpoint carry `{}`, which reads as a zero marker. */
  datatype Draft = Draft(kind: StepKind, content: string, toolArgs: ToolArgs)

  function Plain(kind: StepKind, content: string): Draft { Draft(kind, content, Marker(0)) }

  datatype Status = Running | Completed | Error | MaxIterations

  datatype Progress = Progress(
    drafts: seq<Draft>, live: seq<Message>, scripts: seq<Script>, retries: nat, streams: nat,
    prompt: int, completion: int, status: Status, final: string)

  datatype RunResult = RunResult(finalText: string, steps: int, status: Status, prompt: int, completion: int)

  datatype FinalizeSummary = FinalizeSummary(status: Status, prompt: int, completion: int, stepCount: int)

  function EmptyResponse(): string { "agentloop: model returned an empty response" }

  function Exceeded(max: int): string
    requires max >= 0
  {
    "agent exceeded max iterations (" + Decimal(max) + ") without emitting DONE"
  }

  /** The text a script's outcome is shown as, to the model and in the trace. */
  function Shown(e: Exec): string {
    match e
    case Returned(logs, _) => logs
    case Threw(error, hint) =>
      "Error: " + error + (if hint == "" then "" else "\n\nRETRY HINT: " + hint)
      + "\n(args from the previous turn are preserved \U{E2}\U{80}\U{94} fix and retry.)"
  }

  /** The value the next script receives: what the last successful one returned. */
  function Carry(scripts: seq<Script>): string {
    if scripts == [] then "{}"
    else
      var last := scripts[|scripts| - 1];
      if last.outcome.Returned? then last.outcome.value else Carry(scripts[..|scripts| - 1])
  }

  // ---- one turn ----

  function End(p: Progress, d: Draft, status: Status): Progress {
    p.(drafts := p.drafts + [d], status := status)
  }

  function Respond(p: Progress, text: string): Progress {
    End(p, Plain(Response, text), Completed).(final := text)
  }

  function Ran(p: Progress, reply: string, code: string, t: Turn): Progress {
    var q := p.(drafts := p.drafts + [Plain(ExecuteJs, code)] + [Plain(ExecuteJsResult, Shown(t.exec))],
                scripts := p.scripts + [Script(code, Carry(p.scripts), t.exec)]);
    match t.answer
    case Some(final) => Respond(q, final)
    case None => 
      var output := Message("user", RESULT_PREFIX + "\n" + Shown(t.exec));
      q.(live := q.live + [Message("assistant", reply), output])
  }

  function Read(p: Progress, reply: string, t: Turn): Progress {
    if IsBlank(reply) then
      if p.retries < MAX_EMPTY_RETRIES then p.(retries := p.retries + 1)
      else End(p, Plain(ErrorStep, EmptyResponse()), Error)
    else if ExtractDoneMarker(reply).Some? then Respond(p, ExtractDoneMarker(reply).value)
    else if ExtractJSBlock(reply) == "" then Respond(p, reply)
    else Ran(p, reply, ExtractJSBlock(reply), t)
  }

  function TurnFrom(p: Progress, t: Turn): Progress {
    if t.cancelled then p.(status := Error)
    else
      var q := p.(streams := p.streams + 1);
      match t.stream
      case Failed(e) => End(q, Plain(ErrorStep, e), Error)
      case Replied(content, i, o) =>
        Read(q.(prompt := ToInt32(q.prompt + ToInt32(i)), completion := ToInt32(q.completion + ToInt32(o))), content, t)
  }

  function Loop(p: Progress, turn: nat -> Turn, max: int, iter: nat): Progress
    decreases max - iter
  {
    if p.status != Running then p
    else if iter >= max then End(p, Plain(ErrorStep, Exceeded(if max < 0 then 0 else max)), MaxIterations)
    else Loop(TurnFrom(p, turn(iter)), turn, max, iter + 1)
  }

  // ---- before the first turn ----

  /** The step a checkpoint must name, or nothing when it would cover nothing. */
  function RetainFromStep(retainedFrom: int, stepOf: seq<int>): Option<int> {
    if retainedFrom <= 0 || stepOf == [] then None
    else if retainedFrom >= |stepOf| then Some(ToInt32(stepOf[|stepOf| - 1] + 1))
    else Some(stepOf[retainedFrom])
  }

  function CheckpointDrafts(r: CompactResult, stepOf: seq<int>): seq<Draft> {
    if r.summary != "" && RetainFromStep(r.retainedFrom, stepOf).Some?
    then [Draft(Summary, r.summary, Marker(RetainFromStep(r.retainedFrom, stepOf).value))]
    else []
  }

  /** Whether the loop adopts what its compactor returned. */
  predicate Adopted(r: CompactResult, before: nat) { !r.failed && (r.messages == [] ==> before == 0) }

  function Compacted(p: Progress, compactor: Option<Compactor>, es: seq<Entry>): Progress {
    match compactor
    case None => p.(live := Msgs(es))
    case Some(compact) =>
      var r := compact(Msgs(es));
      var q := p.(prompt := ToInt32(p.prompt + ToInt32(r.promptTokens)),
          completion := ToInt32(p.completion + ToInt32(r.completionTokens)));
      if Adopted(r, |es|) then q.(live := r.messages, drafts := q.drafts + CheckpointDrafts(r, StepsOf(es)))
      else q.(live := Msgs(es))
  }

  function Begin(message: string): Progress {
    Progress([Plain(User, message)], [], [], 0, 0, 0, 0, Running, "")
  }

  function Seed(cfg: Config, env: Env, prior: seq<RunStep>, message: string): Progress {
    if !env.buildOk then Begin(message).(status := Error)
    else
      var q := Compacted(Begin(message), env.compactor, Rehydrated(prior, cfg.historyWindow));
      q.(live := q.live + [Message("user", message)])
  }

  function Prior(cfg: Config, env: Env, rows: seq<RunStep>): seq<RunStep> {
    if env.loadOk then LastRows(rows, cfg.historyWindow) else []
  }

  /** All that one Run does, given the steps it loaded. */
  function Whole(cfg: Config, env: Env, prior: seq<RunStep>, message: string): Progress {
    Loop(Seed(cfg, env, prior, message), env.turn, cfg.maxIterations, 0)
  }

  // ---- the trace a Run leaves ----

  function Row(sid: string, redact: string -> string, index: int, d: Draft): RunStep {
    RunStep(sid, ToInt32(index), d.kind, redact(d.content), d.toolArgs)
  }

  /** The rows that persisting these drafts adds, numbered on from `prior`. */
  function Written(sid: string, cfg: Config, ok: nat -> bool, prior: nat, drafts: seq<Draft>): seq<RunStep> {
    if drafts == [] then []
    else
      var n := |drafts| - 1;
      Written(sid, cfg, ok, prior, drafts[..n]) + (if ok(n) then [Row(sid, cfg.redact, prior + n, drafts[n])] else [])
  }

  function ResultOf(cfg: Config, prior: nat, p: Progress): RunResult {
    RunResult(cfg.redact(p.final), ToInt32(prior + |p.drafts|), p.status, p.prompt, p.completion)
  }

  function Finalized(prior: nat, p: Progress): seq<FinalizeSummary> {
    if p.status == Running then []
    else [FinalizeSummary(p.status, p.prompt, p.completion, ToInt32(prior + |p.drafts|))]
  }

  /** The variables of one Run, and the closures that update them. */
  class Runner {
    const cfg: Config
    const env: Env
    const sid: string
    const store: StepStore
    const prior: nat
    ghost const was: seq<RunStep>
    var stepIdx: int
    var appends: nat
    var history: seq<Message>
    var prevArgs: string
    var emptyRetries: nat
    var streams: nat
    var prompt: int
    var completion: int
    var lastFinal: string
    var finalized: seq<FinalizeSummary>
    ghost var drafts: seq<Draft>
    ghost var scripts: seq<Script>
    ghost var status: Status

    ghost function Now(): Progress
      reads this
    {
      Progress(drafts, history, scripts, emptyRetries, streams, prompt, completion, status, lastFinal)
    }

    ghost predicate Valid()
      reads this, store
    {
      && appends == |drafts|
      && stepIdx == ToInt32(prior + |drafts|)
      && prevArgs == Carry(scripts)
      && RowsOf(store.rows, sid) == was + Written(sid, cfg, env.appendOk, prior, drafts)
      && finalized == Finalized(prior, Now())
    }

    constructor (cfg: Config, env: Env, sid: string, store: StepStore, prior: nat)
      ensures this.cfg == cfg && this.env == env && this.sid == sid && this.store == store && this.prior == prior
      ensures Valid() && was == RowsOf(store.rows, sid)
      ensures Now() == Progress([], [], [], 0, 0, 0, 0, Running, "")
    {
      this.cfg, this.env, this.sid, this.store, this.prior := cfg, env, sid, store, prior;
      was := RowsOf(store.rows, sid);
      stepIdx, appends, history, prevArgs, emptyRetries := ToInt32(prior), 0, [], "{}", 0;
      streams, prompt, completion, lastFinal, finalized := 0, 0, 0, "", [];
      drafts, scripts, status := [], [], Running;
    }

    method WriteStep(d: Draft)
      requires Valid() && status == Running
      modifies `stepIdx, `appends, `drafts, store
      ensures Valid() && drafts == old(drafts) + [d]
      ensures forall other | other != sid :: RowsOf(store.rows, other) == old(RowsOf(store.rows, other))
    {
      hide ToInt32;
      if env.appendOk(appends) {
        store.Append(RunStep(sid, stepIdx, d.kind, cfg.redact(d.content), d.toolArgs));
      }
      IndexAdvances(prior + |drafts|);
      assert (drafts + [d])[..|drafts|] == drafts;
      stepIdx := ToInt32(stepIdx + 1);
      appends := appends + 1;
      drafts := drafts + [d];
    }

    method Finalize(outcome: Status) returns (res: RunResult)
      requires Valid() && status == Running && outcome != Running
      modifies `finalized, `status
      ensures Valid() && status == outcome && res == ResultOf(cfg, prior, Now())
    {
      finalized := finalized + [FinalizeSummary(outcome, prompt, completion, stepIdx)];
      status := outcome;
      res := RunResult(cfg.redact(lastFinal), stepIdx, outcome, prompt, completion);
    }

    method Fail(content: string, outcome: Status) returns (res: RunResult)
      requires Valid() && status == Running && outcome != Running
      modifies this, store
      ensures Valid() && Now() == End(old(Now()), Plain(ErrorStep, content), outcome)
              && res == ResultOf(cfg, prior, Now())
      ensures forall other | other != sid :: RowsOf(store.rows, other) == old(RowsOf(store.rows, other))
    {
      hide Written, Carry, ToInt32;
      WriteStep(Plain(ErrorStep, content));
      res := Finalize(outcome);
    }

    method Answer(text: string) returns (res: RunResult)
      requires Valid() && status == Running
      modifies this, store
      ensures Valid() && Now() == Respond(old(Now()), text) && res == ResultOf(cfg, prior, Now())
      ensures forall other | other != sid :: RowsOf(store.rows, other) == old(RowsOf(store.rows, other))
    {
      hide Written, Carry, ToInt32;
      WriteStep(Plain(Response, text));
      lastFinal := text;
      res := Finalize(Completed);
    }

    /** Persists a script before its outcome is known and the outcome after, and threads its value on. */
    method Execute(code: string, outcome: Exec)
      requires Valid() && status == Running
      modifies `stepIdx, `appends, `drafts, `prevArgs, `scripts, store
      ensures Valid() && drafts == old(drafts) + [Plain(ExecuteJs, code)] + [Plain(ExecuteJsResult, Shown(outcome))]
      ensures scripts == old(scripts) + [Script(code, Carry(old(scripts)), outcome)]
      ensures forall other | other != sid :: RowsOf(store.rows, other) == old(RowsOf(store.rows, other))
    {
      hide Written, Shown, ToInt32;
      WriteStep(Plain(ExecuteJs, code));
      assert (scripts + [Script(code, prevArgs, outcome)])[..|scripts|] == scripts;
      scripts := scripts + [Script(code, prevArgs, outcome)];
      if outcome.Returned? { prevArgs := outcome.value; }
      WriteStep(Plain(ExecuteJsResult, Shown(outcome)));
    }

    method RunScript(reply: string, code: string, t: Turn) returns (res: Option<RunResult>)
      requires Valid() && status == Running
      modifies this, store
      ensures Valid() && Now() == Ran(old(Now()), reply, code, t)
      ensures res == if status == Running then None else Some(ResultOf(cfg, prior, Now()))
      ensures forall other | other != sid :: RowsOf(store.rows, other) == old(RowsOf(store.rows, other))
    {
      hide Written, Shown, ToInt32, Carry;
      Execute(code, t.exec);
      if t.answer.Some? {
        var r := Answer(t.answer.value);
        return Some(r);
      }
      history := history + [Message("assistant", reply), Message("user", RESULT_PREFIX + "\n" + Shown(t.exec))];
      return None;
    }

    method RunTurn(iter: nat) returns (res: Option<RunResult>)
      requires Valid() && status == Running
      modifies this, store
      ensures Valid() && Now() == TurnFrom(old(Now()), env.turn(iter))
      ensures res == if status == Running then None else Some(ResultOf(cfg, prior, Now()))
      ensures forall other | other != sid :: RowsOf(store.rows, other) == old(RowsOf(store.rows, other))
    {
      hide Written, Carry, Shown, ToInt32, EmptyResponse, Ran, IsBlank, ExtractDoneMarker, ExtractJSBlock;
      var t := env.turn(iter);
      var r: RunResult;
      if t.cancelled {
        r := Finalize(Error);
        return Some(r);
      }
      streams := streams + 1;
      if t.stream.Failed? {
        r := Fail(t.stream.error, Error);
        return Some(r);
      }
      prompt := ToInt32(prompt + ToInt32(t.stream.inputTokens));
      completion := ToInt32(completion + ToInt32(t.stream.outputTokens));
      var reply := t.stream.content;
      if IsBlank(reply) {
        if emptyRetries < MAX_EMPTY_RETRIES {
          emptyRetries := emptyRetries + 1;
          return None;
        }
        r := Fail(EmptyResponse(), Error);
        return Some(r);
      }
      var done := ExtractDoneMarker(reply);
      if done.Some? {
        r := Answer(done.value);
        return Some(r);
      }
      var code := ExtractJSBlock(reply);
      if code == "" {
        r := Answer(reply);
        return Some(r);
      }
      res := RunScript(reply, code, t);
    }

    method CompactHistory(out: seq<Message>, stepOf: seq<int>, ghost es: seq<Entry>) returns (kept: seq<Message>)
      requires Valid() && status == Running && out == Msgs(es) && stepOf == StepsOf(es)
      modifies this, store
      ensures Valid() && Now().(live := kept) == Compacted(old(Now()), env.compactor, es)
      ensures forall other | other != sid :: RowsOf(store.rows, other) == old(RowsOf(store.rows, other))
    {
      hide Written, Carry, ToInt32, Msgs, StepsOf;
      if env.compactor == None { return out; }
      var r := env.compactor.value(out);
      prompt := ToInt32(prompt + ToInt32(r.promptTokens));
      completion := ToInt32(completion + ToInt32(r.completionTokens));
      if r.failed || (|r.messages| == 0 && |out| > 0) { return out; }
      var retain := RetainFromStep(r.retainedFrom, stepOf);
      if r.summary != "" && retain.Some? {
        WriteStep(Draft(Summary, r.summary, Marker(retain.value)));
      }
      return r.messages;
    }

    /** Everything before the first turn: the user step, the sandbox and the history. */
    method Start(message: string, loaded: seq<RunStep>) returns (res: Option<RunResult>)
      requires Valid() && Now() == Progress([], [], [], 0, 0, 0, 0, Running, "")
      modifies this, store
      ensures Valid() && Now() == Seed(cfg, env, loaded, message)
      ensures res == if status == Running then None else Some(ResultOf(cfg, prior, Now()))
      ensures forall other | other != sid :: RowsOf(store.rows, other) == old(RowsOf(store.rows, other))
    {
      hide Written, Carry, ToInt32, Rehydrated, Msgs, StepsOf, RetainFromStep;
      WriteStep(Plain(User, message));
      if !env.buildOk {
        var r := Finalize(Error);
        return Some(r);
      }
      var out, stepOf := RehydrateHistory(loaded, cfg.historyWindow);
      var kept := CompactHistory(out, stepOf, Rehydrated(loaded, cfg.historyWindow));
      history := kept + [Message("user", message)];
      return None;
    }

    method Turns() returns (res: RunResult)
      requires Valid() && status == Running && cfg.maxIterations >= 0
      modifies this, store
      ensures Valid() && Now() == Loop(old(Now()), env.turn, cfg.maxIterations, 0) && status != Running
      ensures res == ResultOf(cfg, prior, Now())
      ensures forall other | other != sid :: RowsOf(store.rows, other) == old(RowsOf(store.rows, other))
    {
      hide Written, Carry, ToInt32, TurnFrom, Exceeded;
      var iter := 0;
      while iter < cfg.maxIterations
        invariant 0 <= iter <= cfg.maxIterations && Valid() && status == Running
        invariant Loop(Now(), env.turn, cfg.maxIterations, iter) == Loop(old(Now()), env.turn, cfg.maxIterations, 0)
        invariant forall other | other != sid :: RowsOf(store.rows, other) == old(RowsOf(store.rows, other))
      {
        var r := RunTurn(iter);
        if r.Some? { return r.value; }
        iter := iter + 1;
      }
      res := Fail(Exceeded(cfg.maxIterations), MaxIterations);
    }
  }

  lemma IndexAdvances(n: int)
    ensures ToInt32(ToInt32(n) + 1) == ToInt32(n + 1)
  {
    ToInt32Absorbs(n, 1);
  }

  /** One Run. An unknown session changes nothing; otherwise the trace, the result and the one
      Finalize call are those of `Whole`. */
  method RunSession(cfg: Config, env: Env, store: StepStore, sid: string, message: string)
    returns (res: Option<RunResult>, finalized: seq<FinalizeSummary>)
    modifies store
    ensures !env.sessionFound ==> res == None && finalized == [] && store.rows == old(store.rows)
    ensures env.sessionFound ==>
              var c := New(cfg);
              var was := old(RowsOf(store.rows, sid));
              var prior := Prior(c, env, was);
              var p := Whole(c, env, prior, message);
              && RowsOf(store.rows, sid) == was + Written(sid, c, env.appendOk, |prior|, p.drafts)
              && res == Some(ResultOf(c, |prior|, p))
              && finalized == Finalized(|prior|, p) && |finalized| == 1
    ensures forall other | other != sid :: RowsOf(store.rows, other) == old(RowsOf(store.rows, other))
  {
    hide Written, Carry, ToInt32, TurnFrom, Seed;
    if !env.sessionFound { return None, []; }
    var c := New(cfg);
    var loaded: seq<RunStep> := [];
    if env.loadOk { loaded := store.LastN(sid, c.historyWindow); }
    var run := new Runner(c, env, sid, store, |loaded|);
    res := run.Start(message, loaded);
    if res == None {
      var r := run.Turns();
      res := Some(r);
    }
    finalized := run.finalized;
  }
}
