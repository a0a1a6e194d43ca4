/** What every Run leaves behind, whatever the model, the sandbox and the store do (run.go). */
module Trace {
  import opened Text
  import opened Messages
  import opened Compact
  import opened Store
  import opened History
  import opened Parser
  import opened Run

  /** The steps that running these scripts records. */
  function Middle(scripts: seq<Script>): (ds: seq<Draft>)
    ensures |ds| == 2 * |scripts|
  {
    if scripts == [] then []
    else
      var last := scripts[|scripts| - 1];
      Middle(scripts[..|scripts| - 1]) + [Plain(ExecuteJs, last.code)] + [Plain(ExecuteJsResult, Shown(last.outcome))]
  }

  /** How a Run's trace may close, by its status. */
  predicate Ending(p: Progress, tail: seq<Draft>) {
    match p.status
    case Running => tail == []
    case Completed => tail == [Plain(Response, p.final)]
    case MaxIterations => |tail| == 1 && tail[0].kind == ErrorStep
    case Error => tail == [] || (|tail| == 1 && tail[0].kind == ErrorStep)
  }

  predicate Grammar(p: Progress, head: seq<Draft>) {
    var m := head + Middle(p.scripts);
    m <= p.drafts && Ending(p, p.drafts[|m|..])
  }

  lemma MiddleSnoc(scripts: seq<Script>, s: Script)
    ensures Middle(scripts + [s]) ==
            Middle(scripts) + [Plain(ExecuteJs, s.code)] + [Plain(ExecuteJsResult, Shown(s.outcome))]
  {
    assert (scripts + [s])[..|scripts|] == scripts;
  }

  lemma EndKeepsGrammar(p: Progress, head: seq<Draft>, d: Draft, status: Status, final: string)
    requires Grammar(p, head) && p.status == Running
    requires var q := End(p, d, status).(final := final); Ending(q, [d])
    ensures Grammar(End(p, d, status).(final := final), head)
  {
    hide Middle;
    var m := head + Middle(p.scripts);
    assert p.drafts == m;
    assert (p.drafts + [d])[|m|..] == [d];
  }

  lemma ScriptKeepsGrammar(p: Progress, head: seq<Draft>, s: Script)
    requires Grammar(p, head) && p.status == Running
    ensures var script, result := Plain(ExecuteJs, s.code), Plain(ExecuteJsResult, Shown(s.outcome));
            Grammar(p.(scripts := p.scripts + [s], drafts := p.drafts + [script] + [result]), head)
  {
    MiddleSnoc(p.scripts, s);
    hide Middle, Shown;
    var a, b := Plain(ExecuteJs, s.code), Plain(ExecuteJsResult, Shown(s.outcome));
    assert p.drafts == head + Middle(p.scripts);
    assert p.drafts + [a] + [b] == head + (Middle(p.scripts) + [a] + [b]);
  }

  lemma RanKeepsGrammar(p: Progress, head: seq<Draft>, reply: string, code: string, t: Turn)
    requires Grammar(p, head) && p.status == Running
    ensures Grammar(Ran(p, reply, code, t), head)
  {
    hide Shown, Carry, Grammar, Middle;
    var s := Script(code, Carry(p.scripts), t.exec);
    ScriptKeepsGrammar(p, head, s);
    var q := p.(scripts := p.scripts + [s],
                drafts := p.drafts + [Plain(ExecuteJs, s.code)] + [Plain(ExecuteJsResult, Shown(s.outcome))]);
    if t.answer.Some? {
      EndKeepsGrammar(q, head, Plain(Response, t.answer.value), Completed, t.answer.value);
    } else {
      SameGrammar(q, Ran(p, reply, code, t), head);
    }
  }

  lemma SameGrammar(p: Progress, q: Progress, head: seq<Draft>)
    requires Grammar(p, head) && p.drafts == q.drafts && p.scripts == q.scripts && p.status == q.status
             && p.final == q.final
    ensures Grammar(q, head)
  {}

  lemma TurnKeepsGrammar(p: Progress, head: seq<Draft>, t: Turn)
    requires Grammar(p, head) && p.status == Running && p.final == ""
    ensures var q := TurnFrom(p, t); Grammar(q, head) && (q.status == Running ==> q.final == "")
  {
    hide Grammar, Middle, Carry, IsBlank, ExtractDoneMarker, ExtractJSBlock, EmptyResponse, ToInt32;
    var q := TurnFrom(p, t);
    if t.cancelled {
      CancelKeepsGrammar(p, head);
    } else if t.stream.Failed? {
      EndKeepsGrammar(p, head, Plain(ErrorStep, t.stream.error), Error, "");
      SameGrammar(End(p, Plain(ErrorStep, t.stream.error), Error), q, head);
    } else {
      var reply := t.stream.content;
      var p1 := p.(streams := p.streams + 1, prompt := ToInt32(p.prompt + ToInt32(t.stream.inputTokens)),
                   completion := ToInt32(p.completion + ToInt32(t.stream.outputTokens)));
      SameGrammar(p, p1, head);
      ReadKeepsGrammar(p1, head, reply, t);
    }
  }

  lemma ReadKeepsGrammar(p: Progress, head: seq<Draft>, reply: string, t: Turn)
    requires Grammar(p, head) && p.status == Running && p.final == ""
    ensures var q := Read(p, reply, t); Grammar(q, head) && (q.status == Running ==> q.final == "")
  {
    hide Grammar, Middle, Carry, IsBlank, ExtractDoneMarker, ExtractJSBlock, EmptyResponse, Shown;
    if IsBlank(reply) {
      if p.retries < MAX_EMPTY_RETRIES {
        SameGrammar(p, p.(retries := p.retries + 1), head);
      } else {
        EndKeepsGrammar(p, head, Plain(ErrorStep, EmptyResponse()), Error, "");
      }
    } else if ExtractDoneMarker(reply).Some? {
      var text := ExtractDoneMarker(reply).value;
      EndKeepsGrammar(p, head, Plain(Response, text), Completed, text);
    } else if ExtractJSBlock(reply) == "" {
      EndKeepsGrammar(p, head, Plain(Response, reply), Completed, reply);
    } else {
      RanKeepsGrammar(p, head, reply, ExtractJSBlock(reply), t);
    }
  }

  lemma CancelKeepsGrammar(p: Progress, head: seq<Draft>)
    requires Grammar(p, head) && p.status == Running
    ensures Grammar(p.(status := Error), head)
  {}

  lemma {:induction false} LoopKeepsGrammar(p: Progress, head: seq<Draft>, turn: nat -> Turn, max: int, iter: nat)
    requires Grammar(p, head) && (p.status == Running ==> p.final == "")
    ensures Grammar(Loop(p, turn, max, iter), head) && Loop(p, turn, max, iter).status != Running
    decreases max - iter
  {
    hide Grammar, TurnFrom, Middle, Exceeded;
    if p.status == Running {
      if iter >= max {
        EndKeepsGrammar(p, head, Plain(ErrorStep, Exceeded(if max < 0 then 0 else max)), MaxIterations, "");
      } else {
        TurnKeepsGrammar(p, head, turn(iter));
        LoopKeepsGrammar(TurnFrom(p, turn(iter)), head, turn, max, iter + 1);
      }
    }
  }

  /** A Run opens with the user's message and at most one checkpoint. */
  predicate Opening(head: seq<Draft>, message: string) {
    && 1 <= |head| <= 2 && head[0] == Plain(User, message)
    && (|head| == 2 ==> head[1].kind == Summary && head[1].content != "" && head[1].toolArgs.Marker?)
  }

  lemma SeedOpens(cfg: Config, env: Env, prior: seq<RunStep>, message: string)
    ensures var p := Seed(cfg, env, prior, message);
            Opening(p.drafts, message) && p.scripts == [] && p.final == "" && p.retries == 0 && p.streams == 0
                && (p.status == Running || p.status == Error)
    ensures !env.buildOk ==> Seed(cfg, env, prior, message) == Begin(message).(status := Error)
  {
    hide Rehydrated, RetainFromStep;
  }

  /** The trace of every Run: the user's message, at most one checkpoint, the scripts each with its
      result, then the response if and only if the Run completed, or an error step, or, when the
      context was cancelled or the sandbox was not built, nothing. */
  lemma TraceGrammar(cfg: Config, env: Env, prior: seq<RunStep>, message: string)
    ensures var p := Whole(cfg, env, prior, message);
            var head := Seed(cfg, env, prior, message).drafts;
            && p.status != Running && Opening(head, message) && Grammar(p, head)
  {
    hide Middle;
    SeedOpens(cfg, env, prior, message);
    var s := Seed(cfg, env, prior, message);
    MiddleOfNone();
    hide Seed, Loop;
    assert Grammar(s, s.drafts);
    LoopKeepsGrammar(s, s.drafts, env.turn, cfg.maxIterations, 0);
  }

  lemma TraceOpens(cfg: Config, env: Env, prior: seq<RunStep>, message: string)
    ensures var ds := Whole(cfg, env, prior, message).drafts;
            var head := Seed(cfg, env, prior, message).drafts;
            1 <= |head| <= 2 && head <= ds && ds[0] == Plain(User, message)
  {
    TraceGrammar(cfg, env, prior, message);
    hide Whole, Seed, Middle;
  }

  lemma MiddleOfNone()
    ensures Middle([]) == []
  {}

  lemma {:induction false} MiddleAt(scripts: seq<Script>, i: nat)
    requires i < |scripts|
    ensures Middle(scripts)[2 * i] == Plain(ExecuteJs, scripts[i].code)
    ensures Middle(scripts)[2 * i + 1] == Plain(ExecuteJsResult, Shown(scripts[i].outcome))
  {
    hide Shown;
    if i < |scripts| - 1 {
      MiddleAt(scripts[..|scripts| - 1], i);
    }
  }

  /** The same, read off the kinds of the steps. */
  lemma TraceKinds(cfg: Config, env: Env, prior: seq<RunStep>, message: string)
    ensures var p := Whole(cfg, env, prior, message);
            var h := |Seed(cfg, env, prior, message).drafts|;
            var end := h + 2 * |p.scripts|;
            && end <= |p.drafts| <= end + 1
            && (forall i | 0 <= i < |p.drafts| ::
                  && (p.drafts[i].kind == User <==> i == 0)
                  && (p.drafts[i].kind == Summary <==> 0 < i < h)
                  && (p.drafts[i].kind == ExecuteJs <==> h <= i < end && (i - h) % 2 == 0)
                  && (p.drafts[i].kind == ExecuteJsResult <==> h <= i < end && (i - h) % 2 == 1)
                  && (p.drafts[i].kind == Response <==> i == end && p.status == Completed))
            && (p.status == Completed ==> |p.drafts| == end + 1 && p.drafts[end].content == p.final)
  {
    TraceGrammar(cfg, env, prior, message);
    var p := Whole(cfg, env, prior, message);
    var head := Seed(cfg, env, prior, message).drafts;
    hide Seed, Whole, Middle, Shown;
    var m := head + Middle(p.scripts);
    forall i | 0 <= i < |p.drafts|
      ensures && (p.drafts[i].kind == User <==> i == 0)
              && (p.drafts[i].kind == Summary <==> 0 < i < |head|)
              && (p.drafts[i].kind == ExecuteJs <==> |head| <= i < |m| && (i - |head|) % 2 == 0)
              && (p.drafts[i].kind == ExecuteJsResult <==> |head| <= i < |m| && (i - |head|) % 2 == 1)
              && (p.drafts[i].kind == Response <==> i == |m| && p.status == Completed)
    {
      if i < |head| {
        assert p.drafts[i] == m[i] == head[i];
      } else if i < |m| {
        var k := (i - |head|) / 2;
        MiddleAt(p.scripts, k);
        assert p.drafts[i] == m[i] == Middle(p.scripts)[i - |head|];
      } else {
        assert p.drafts[i] == p.drafts[|m|..][i - |m|];
      }
    }
    if p.status == Completed {
      assert p.drafts[|m|..][0] == p.drafts[|m|];
    }
  }

  // ---- how often the model is asked ----

  predicate Counted(p: Progress, iter: int) {
    && p.retries <= MAX_EMPTY_RETRIES
    && |p.scripts| + p.retries <= p.streams <= |p.scripts| + p.retries + 1
    && p.streams <= iter
    && (p.status == Running ==> p.streams == iter == |p.scripts| + p.retries)
  }

  lemma TurnCounts(p: Progress, t: Turn, iter: nat)
    requires p.status == Running && Counted(p, iter)
    ensures Counted(TurnFrom(p, t), iter + 1) && TurnFrom(p, t).status != MaxIterations
  {
    hide Shown, Carry, IsBlank, ExtractDoneMarker, ExtractJSBlock, EmptyResponse, ToInt32;
  }

  lemma {:induction false} LoopCounts(p: Progress, turn: nat -> Turn, max: int, iter: nat)
    requires Counted(p, iter) && iter <= max && p.status != MaxIterations
    ensures var q := Loop(p, turn, max, iter);
            Counted(q, max) && (q.status == MaxIterations ==> q.streams == max == |q.scripts| + q.retries)
    decreases max - iter
  {
    hide TurnFrom, Exceeded;
    if p.status == Running && iter < max {
      TurnCounts(p, turn(iter), iter);
      LoopCounts(TurnFrom(p, turn(iter)), turn, max, iter + 1);
    }
  }

  /** The model is asked at most maxIterations times, at most two of them again after an empty reply;
      only a Run whose every iteration was spent on scripts and retries ends as max_iterations. */
  lemma StreamsBounded(cfg: Config, env: Env, prior: seq<RunStep>, message: string)
    requires cfg.maxIterations >= 0
    ensures var p := Whole(cfg, env, prior, message);
            && p.streams <= cfg.maxIterations && p.retries <= 2
            && |p.scripts| + p.retries <= p.streams <= |p.scripts| + p.retries + 1
            && (p.status == MaxIterations ==> |p.scripts| + p.retries == cfg.maxIterations)
            && |p.drafts| <= 3 + 2 * cfg.maxIterations
  {
    SeedOpens(cfg, env, prior, message);
    TraceKinds(cfg, env, prior, message);
    var s := Seed(cfg, env, prior, message);
    hide Seed, Loop;
    LoopCounts(s, env.turn, cfg.maxIterations, 0);
  }

  // ---- the value threaded from script to script ----

  predicate Threaded(scripts: seq<Script>) {
    forall i | 0 <= i < |scripts| :: scripts[i].args == Carry(scripts[..i])
  }

  lemma TurnThreads(p: Progress, t: Turn)
    requires Threaded(p.scripts)
    ensures Threaded(TurnFrom(p, t).scripts)
  {
    hide Shown, Carry, IsBlank, ExtractDoneMarker, ExtractJSBlock, EmptyResponse, ToInt32;
    var q := TurnFrom(p, t);
    forall i | 0 <= i < |q.scripts| ensures q.scripts[i].args == Carry(q.scripts[..i]) {
      assert p.scripts <= q.scripts && |q.scripts| <= |p.scripts| + 1;
      assert q.scripts[..i] == p.scripts[..i];
      if i == |p.scripts| { assert p.scripts[..i] == p.scripts; }
    }
  }

  lemma {:induction false} LoopThreads(p: Progress, turn: nat -> Turn, max: int, iter: nat)
    requires Threaded(p.scripts)
    ensures Threaded(Loop(p, turn, max, iter).scripts)
    decreases max - iter
  {
    hide TurnFrom, Threaded, Exceeded;
    if p.status == Running && iter < max {
      TurnThreads(p, turn(iter));
      LoopThreads(TurnFrom(p, turn(iter)), turn, max, iter + 1);
    }
  }

  /** A script receives what the last script that did not throw returned, however many have thrown
      since; the first ones receive an empty object. */
  lemma FailuresKeepTheCarry(cfg: Config, env: Env, prior: seq<RunStep>, message: string, i: nat, j: nat)
    requires var s := Whole(cfg, env, prior, message).scripts;
             i < j < |s| && s[i].outcome.Returned? && forall k | i < k < j :: s[k].outcome.Threw?
    ensures var s := Whole(cfg, env, prior, message).scripts; s[j].args == s[i].outcome.value
  {
    var s := Whole(cfg, env, prior, message).scripts;
    SeedOpens(cfg, env, prior, message);
    LoopThreads(Seed(cfg, env, prior, message), env.turn, cfg.maxIterations, 0);
    assert Threaded(s);
    hide Whole;
    CarryOf(s, i, j);
  }

  lemma {:induction false} CarryOf(s: seq<Script>, i: nat, j: nat)
    requires i < j <= |s| && s[i].outcome.Returned? && forall k | i < k < j :: s[k].outcome.Threw?
    ensures Carry(s[..j]) == s[i].outcome.value
  {
    assert s[..j][..j - 1] == s[..j - 1];
    if j > i + 1 { CarryOf(s, i, j - 1); }
  }

  // ---- what the reported step count means ----

  /** RunResult.Steps is the number of steps this Run persisted exactly when it loaded none before
      it and every append succeeded. */
  lemma StepsCountIff(cfg: Config, sid: string, ok: nat -> bool, prior: nat, p: Progress)
    requires prior + |p.drafts| < TWO_31
    ensures ResultOf(cfg, prior, p).steps == |Written(sid, cfg, ok, prior, p.drafts)| <==>
            prior == 0 && forall i | 0 <= i < |p.drafts| :: ok(i)
  {
    WrittenCount(sid, cfg, ok, prior, p.drafts);
  }

  lemma {:induction false} WrittenCount(sid: string, cfg: Config, ok: nat -> bool, prior: nat, drafts: seq<Draft>)
    ensures |Written(sid, cfg, ok, prior, drafts)| <= |drafts|
    ensures |Written(sid, cfg, ok, prior, drafts)| == |drafts| <==> forall i | 0 <= i < |drafts| :: ok(i)
  {
    if drafts != [] {
      WrittenCount(sid, cfg, ok, prior, drafts[..|drafts| - 1]);
    }
  }

  /** These rows are these drafts, numbered on from `start`. */
  predicate Numbered(rows: seq<RunStep>, sid: string, cfg: Config, start: int, drafts: seq<Draft>) {
    |rows| == |drafts| && forall i | 0 <= i < |rows| :: rows[i] == Row(sid, cfg.redact, start + i, drafts[i])
  }

  /** When every append succeeds the rows are the drafts, numbered on from the steps loaded. */
  lemma {:induction false} WrittenAll(sid: string, cfg: Config, ok: nat -> bool, prior: nat, drafts: seq<Draft>)
    requires forall i | 0 <= i < |drafts| :: ok(i)
    ensures Numbered(Written(sid, cfg, ok, prior, drafts), sid, cfg, prior, drafts)
  {
    hide Row;
    if drafts != [] {
      WrittenAll(sid, cfg, ok, prior, drafts[..|drafts| - 1]);
    }
  }

  // ---- replaying a Run gives back the conversation its model had ----

  /** A model's reply as a later Run replays it: only its script, fenced again. */
  function Retold(m: Message): Message {
    if m.role == "assistant" then Message("assistant", Refence(ExtractJSBlock(m.content))) else m
  }

  function RetoldAll(ms: seq<Message>): (out: seq<Message>)
    ensures |out| == |ms|
  {
    seq(|ms|, i requires 0 <= i < |ms| => Retold(ms[i]))
  }

  /** The messages a Run's scripts turn into on replay. */
  function ScriptTurns(scripts: seq<Script>): (ms: seq<Message>)
    ensures |ms| == 2 * |scripts|
  {
    if scripts == [] then []
    else
      var last := scripts[|scripts| - 1];
      ScriptTurns(scripts[..|scripts| - 1])
      + [Message("assistant", Refence(last.code)), Message("user", RESULT_PREFIX + "\n" + Shown(last.outcome))]
  }

  /** What was said beyond `base`, each reply cut down to its script, is what the scripts left, save
      that a script which answered was never shown to the model again. */
  ghost predicate Follows(p: Progress, base: seq<Message>) {
    base <= p.live
    && exists k: nat ::
         && k <= |p.scripts| <= k + 1 && (p.status != Completed ==> k == |p.scripts|)
         && RetoldAll(p.live[|base|..]) == ScriptTurns(p.scripts[..k])
  }

  /** What was said beyond `base` retells as the scripts that were run, bar a last one that answered. */
  predicate Retells(p: Progress, base: seq<Message>) {
    && base <= p.live
    && var k := |p.scripts| - (if |p.live| - |base| == 2 * |p.scripts| then 0 else 1);
    && 0 <= k
    && RetoldAll(p.live[|base|..]) == ScriptTurns(p.scripts[..k])
    && (p.status != Completed ==> k == |p.scripts|)
  }

  lemma RanRetells(p: Progress, base: seq<Message>, reply: string, t: Turn)
    requires p.status == Running && Retells(p, base)
    ensures Retells(Ran(p, reply, ExtractJSBlock(reply), t), base)
  {
    var code := ExtractJSBlock(reply);
    hide Shown, Carry, ExtractJSBlock, Refence;
    var q := Ran(p, reply, code, t);
    var s := Script(code, Carry(p.scripts), t.exec);
    assert q.scripts[..|p.scripts|] == p.scripts[..|p.scripts|] == p.scripts;
    assert q.scripts[..|q.scripts|] == q.scripts;
    if t.answer == None {
      var a, b := Message("assistant", reply), Message("user", RESULT_PREFIX + "\n" + Shown(t.exec));
      assert q.live[|base|..] == p.live[|base|..] + [a, b];
      assert RetoldAll(p.live[|base|..] + [a, b]) == RetoldAll(p.live[|base|..]) + [Retold(a), Retold(b)];
    }
  }

  lemma TurnRetells(p: Progress, base: seq<Message>, t: Turn)
    requires p.status == Running && Retells(p, base)
    ensures Retells(TurnFrom(p, t), base)
  {
    hide ToInt32, IsBlank, ExtractDoneMarker, ExtractJSBlock, EmptyResponse, ScriptTurns, RetoldAll, Ran;
    if !t.cancelled && t.stream.Replied? {
      var p1 := p.(streams := p.streams + 1, prompt := ToInt32(p.prompt + ToInt32(t.stream.inputTokens)),
                   completion := ToInt32(p.completion + ToInt32(t.stream.outputTokens)));
      RanRetells(p1, base, t.stream.content, t);
    }
  }

  lemma {:induction false} LoopRetells(p: Progress, base: seq<Message>, turn: nat -> Turn, max: int, iter: nat)
    requires Retells(p, base)
    ensures Retells(Loop(p, turn, max, iter), base)
    decreases max - iter
  {
    hide TurnFrom, Exceeded, RetoldAll, ScriptTurns;
    if p.status == Running && iter < max {
      TurnRetells(p, base, turn(iter));
      LoopRetells(TurnFrom(p, turn(iter)), base, turn, max, iter + 1);
    }
  }

  /** A reply and its replayed form hold the same script. */
  lemma RetoldReadsTheSame(m: Message)
    ensures ExtractJSBlock(Retold(m).content) == ExtractJSBlock(m.content)
  {
    ExtractRefenceExtract(m.content);
  }

  /** What replaying one step says, were it persisted as it is. */
  function Said(d: Draft): seq<Message> {
    match StepToTurn(RunStep("", 0, d.kind, d.content, d.toolArgs))
    case None => []
    case Some(m) => [m]
  }

  function Told(ds: seq<Draft>): seq<Message> {
    if ds == [] then [] else Told(ds[..|ds| - 1]) + Said(ds[|ds| - 1])
  }

  lemma ToldSnoc(ds: seq<Draft>, d: Draft)
    ensures Told(ds + [d]) == Told(ds) + Said(d)
  {
    assert (ds + [d])[..|ds|] == ds;
  }

  ghost predicate NoRedactor(cfg: Config) { forall s: string :: cfg.redact(s) == s }

  lemma RowSays(sid: string, cfg: Config, index: int, d: Draft)
    requires NoRedactor(cfg)
    ensures var row := Row(sid, cfg.redact, index, d);
            Msgs(Played(row, None)) == Said(d)
  {
    hide ToInt32, Refence;
  }

  lemma {:induction false} WrittenTold(sid: string, cfg: Config, ok: nat -> bool, prior: nat, drafts: seq<Draft>)
    requires NoRedactor(cfg) && forall i | 0 <= i < |drafts| :: ok(i)
    ensures Msgs(Replay(Written(sid, cfg, ok, prior, drafts), None)) == Told(drafts)
  {
    hide Row, Played, Said, Replay, Msgs, NoRedactor;
    if drafts == [] {
      ReplayNothing(None);
      MsgsOfNone();
    } else {
      var n := |drafts| - 1;
      WrittenTold(sid, cfg, ok, prior, drafts[..n]);
      var rows, row := Written(sid, cfg, ok, prior, drafts[..n]), Row(sid, cfg.redact, prior + n, drafts[n]);
      ReplaySnoc(rows, row, None);
      RowSays(sid, cfg, prior + n, drafts[n]);
      MsgsAppend(Replay(rows, None), Played(row, None));
    }
  }

  lemma MsgsOfNone()
    ensures Msgs([]) == []
  {}

  lemma ScriptSaid(s: Script)
    ensures Said(Plain(ExecuteJs, s.code)) + Said(Plain(ExecuteJsResult, Shown(s.outcome))) == ScriptTurns([s])
  {
    hide Shown, Refence;
    assert [s][..0] == [];
  }

  lemma ScriptTurnsSnoc(scripts: seq<Script>, s: Script)
    ensures ScriptTurns(scripts + [s]) == ScriptTurns(scripts) + ScriptTurns([s])
  {
    hide Shown, Refence;
    assert (scripts + [s])[..|scripts|] == scripts;
    assert [s][..0] == [];
  }

  lemma PairTold(m: seq<Draft>, s: Script)
    ensures Told(m + [Plain(ExecuteJs, s.code)] + [Plain(ExecuteJsResult, Shown(s.outcome))]) ==
            Told(m) + ScriptTurns([s])
  {
    ScriptSaid(s);
    hide *;
    var a, b := Plain(ExecuteJs, s.code), Plain(ExecuteJsResult, Shown(s.outcome));
    ToldSnoc(m, a);
    ToldSnoc(m + [a], b);
    assert Told(m) + Said(a) + Said(b) == Told(m) + (Said(a) + Said(b));
  }

  lemma {:induction false} MiddleTold(head: seq<Draft>, scripts: seq<Script>)
    ensures Told(head + Middle(scripts)) == Told(head) + ScriptTurns(scripts)
  {
    hide Shown, Told;
    if scripts == [] {
      assert head + Middle(scripts) == head;
    } else {
      var last := scripts[|scripts| - 1];
      var front := scripts[..|scripts| - 1];
      MiddleSnoc(front, last);
      assert scripts == front + [last];
      MiddleTold(head, front);
      hide *;
      PairTold(head + Middle(front), last);
      ScriptTurnsSnoc(front, last);
      var a, b := Plain(ExecuteJs, last.code), Plain(ExecuteJsResult, Shown(last.outcome));
      assert head + (Middle(front) + [a] + [b]) == head + Middle(front) + [a] + [b];
      assert Told(head) + ScriptTurns(front) + ScriptTurns([last]) ==
          Told(head) + (ScriptTurns(front) + ScriptTurns([last]));
    }
  }

  function Closing(p: Progress): seq<Message> {
    if p.status == Completed then [Message("assistant", p.final)] else []
  }

  lemma HeadTold(head: seq<Draft>, message: string)
    requires Opening(head, message)
    ensures Told(head) == [Message("user", message)]
  {
    var one := head[..1];
    assert one == [] + [head[0]];
    ToldSnoc([], head[0]);
    if |head| == 2 {
      assert head == one + [head[1]];
      ToldSnoc(one, head[1]);
    }
  }

  lemma EndSaid(p: Progress, d: Draft)
    requires Ending(p, [d])
    ensures Said(d) == Closing(p)
  {}

  lemma WholeTold(p: Progress, head: seq<Draft>, message: string)
    requires Opening(head, message) && Grammar(p, head)
    ensures Told(p.drafts) == [Message("user", message)] + ScriptTurns(p.scripts) + Closing(p)
  {
    var m := head + Middle(p.scripts);
    assert m <= p.drafts && Ending(p, p.drafts[|m|..]);
    hide *;
    HeadTold(head, message);
    MiddleTold(head, p.scripts);
    PrefixThenRest(m, p.drafts);
    TailTold(p, m, p.drafts[|m|..]);
  }

  lemma PrefixThenRest<T>(m: seq<T>, s: seq<T>)
    requires m <= s
    ensures s == m + s[|m|..]
  {}

  lemma TailTold(p: Progress, m: seq<Draft>, tail: seq<Draft>)
    requires Ending(p, tail)
    ensures Told(m + tail) == Told(m) + Closing(p)
  {
    if tail == [] {
      assert m + tail == m;
    } else {
      EndSaid(p, tail[0]);
      hide Said, Told, Closing;
      assert tail == [tail[0]];
      ToldSnoc(m, tail[0]);
    }
  }

  /** Replaying the rows a Run persisted gives back the conversation its model had: the user's
      message, then every reply cut down to its script with the script's output, a last script that
      answered included, then the answer. */
  lemma ReplayRetellsTheRun(sid: string, cfg: Config, env: Env, prior: seq<RunStep>, message: string)
    requires NoRedactor(cfg) && env.buildOk && forall n: nat :: env.appendOk(n)
    ensures var p := Whole(cfg, env, prior, message);
            var rows := Written(sid, cfg, env.appendOk, |prior|, p.drafts);
            var base := Seed(cfg, env, prior, message).live;
            && Follows(p, base)
            && Msgs(Replay(rows, None)) == [Message("user", message)] + ScriptTurns(p.scripts) + Closing(p)
  {
    var p := Whole(cfg, env, prior, message);
    var s := Seed(cfg, env, prior, message);
    TraceGrammar(cfg, env, prior, message);
    SeedOpens(cfg, env, prior, message);
    WrittenTold(sid, cfg, env.appendOk, |prior|, p.drafts);
    WholeTold(p, s.drafts, message);
    hide Seed, Grammar, Opening, Written, Replay;
    assert Retells(s, s.live);
    LoopRetells(s, s.live, env.turn, cfg.maxIterations, 0);
    var k := |p.scripts| - (if |p.live| - |s.live| == 2 * |p.scripts| then 0 else 1);
    hide Loop, ScriptTurns, RetoldAll;
    assert k >= 0;
  }
}
