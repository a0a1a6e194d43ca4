/** What a Run reports, read off its environment alone (run.go). */
module Usage {
  import opened Text
  import opened Messages
  import opened Compact
  import opened Store
  import opened History
  import opened Parser
  import opened Run
  import opened Trace

  // ---- tokens ----

  /** The prompt tokens of the replies among the first n iterations. */
  function PromptSum(turn: nat -> Turn, n: nat): int {
    if n == 0 then 0
    else
      PromptSum(turn, n - 1)
      + match turn(n - 1).stream { case Replied(_, inputs, _) => inputs case Failed(_) => 0 }
  }

  function CompletionSum(turn: nat -> Turn, n: nat): int {
    if n == 0 then 0
    else
      CompletionSum(turn, n - 1)
      + match turn(n - 1).stream { case Replied(_, _, outputs) => outputs case Failed(_) => 0 }
  }

  /** What the compactor answers in this Run, should it come to that. */
  function Compaction(cfg: Config, env: Env, prior: seq<RunStep>): Option<CompactResult> {
    if env.buildOk && env.compactor.Some?
    then Some(env.compactor.value(Msgs(Rehydrated(prior, cfg.historyWindow))))
    else None
  }

  /** After the streams made so far, `a` and `b` aside, the counters hold what the replies cost. */
  predicate Charged(p: Progress, turn: nat -> Turn, a: int, b: int) {
    && p.prompt == ToInt32(a + PromptSum(turn, p.streams))
    && p.completion == ToInt32(b + CompletionSum(turn, p.streams))
  }

  lemma ReadKeepsTokens(p: Progress, reply: string, t: Turn)
    ensures var q := Read(p, reply, t);
            q.prompt == p.prompt && q.completion == p.completion && q.streams == p.streams
  {
    hide IsBlank, ExtractDoneMarker, ExtractJSBlock, EmptyResponse, Shown, Carry;
  }

  lemma TurnCharges(p: Progress, turn: nat -> Turn, a: int, b: int)
    requires Charged(p, turn, a, b)
    ensures var q := TurnFrom(p, turn(p.streams));
            Charged(q, turn, a, b) && (q.status == Running && p.status == Running ==> q.streams == p.streams + 1)
  {
    var t, iter := turn(p.streams), p.streams;
    hide Read, ToInt32;
    if !t.cancelled && t.stream.Replied? {
      var q := p.(streams := p.streams + 1, prompt := ToInt32(p.prompt + ToInt32(t.stream.inputTokens)),
                  completion := ToInt32(p.completion + ToInt32(t.stream.outputTokens)));
      ReadKeepsTokens(q, t.stream.content, t);
      ToInt32Absorbs(a + PromptSum(turn, iter), t.stream.inputTokens);
      ToInt32Absorbs(b + CompletionSum(turn, iter), t.stream.outputTokens);
    }
  }

  lemma {:induction false} LoopCharges(p: Progress, turn: nat -> Turn, a: int, b: int, max: int, iter: nat)
    requires Charged(p, turn, a, b) && (p.status == Running ==> p.streams == iter)
    ensures Charged(Loop(p, turn, max, iter), turn, a, b)
    decreases max - iter
  {
    hide TurnFrom, Exceeded, ToInt32, PromptSum, CompletionSum;
    if p.status == Running && iter < max {
      TurnCharges(p, turn, a, b);
      LoopCharges(TurnFrom(p, turn(iter)), turn, a, b, max, iter + 1);
    }
  }

  lemma SeedTokens(cfg: Config, env: Env, prior: seq<RunStep>, message: string)
    ensures var p := Seed(cfg, env, prior, message);
            var c := Compaction(cfg, env, prior);
            && p.streams == 0 && p.retries == 0
            && p.prompt == ToInt32(if c.Some? then c.value.promptTokens else 0)
            && p.completion == ToInt32(if c.Some? then c.value.completionTokens else 0)
  {
    hide Rehydrated, CheckpointDrafts;
    var c := Compaction(cfg, env, prior);
    if c.Some? {
      ToInt32Absorbs(0, c.value.promptTokens);
      ToInt32Absorbs(0, c.value.completionTokens);
    }
  }

  lemma NoneCharged(turn: nat -> Turn)
    ensures PromptSum(turn, 0) == 0 == CompletionSum(turn, 0)
  {}

  /** The totals of every Run: the compactor's tokens, if it was asked, and those of every reply, each on
      its own side, in 32 bits. */
  lemma TokensCharged(cfg: Config, env: Env, prior: seq<RunStep>, message: string)
    ensures var p := Whole(cfg, env, prior, message);
            var c := Compaction(cfg, env, prior);
            && p.prompt == ToInt32((if c.Some? then c.value.promptTokens else 0) + PromptSum(env.turn, p.streams))
            && p.completion ==
               ToInt32((if c.Some? then c.value.completionTokens else 0) + CompletionSum(env.turn, p.streams))
  {
    var c := Compaction(cfg, env, prior);
    var a := if c.Some? then c.value.promptTokens else 0;
    var b := if c.Some? then c.value.completionTokens else 0;
    hide *;
    SeedTokens(cfg, env, prior, message);
    WholeCharged(cfg, env, prior, message, a, b);
  }

  lemma WholeCharged(cfg: Config, env: Env, prior: seq<RunStep>, message: string, a: int, b: int)
    requires var s := Seed(cfg, env, prior, message);
             s.streams == 0 && s.prompt == ToInt32(a) && s.completion == ToInt32(b)
    ensures var p := Whole(cfg, env, prior, message);
            && p.prompt == ToInt32(a + PromptSum(env.turn, p.streams))
            && p.completion == ToInt32(b + CompletionSum(env.turn, p.streams))
  {
    NoneCharged(env.turn);
    hide Seed, Loop, ToInt32, PromptSum, CompletionSum;
    LoopCharges(Seed(cfg, env, prior, message), env.turn, a, b, cfg.maxIterations, 0);
  }

  // ---- empty replies ----

  predicate Blank(t: Turn) { t.stream.Replied? && IsBlank(t.stream.content) }

  /** The blank replies among the first n iterations. */
  function Blanks(turn: nat -> Turn, n: nat): nat {
    if n == 0 then 0 else Blanks(turn, n - 1) + if Blank(turn(n - 1)) then 1 else 0
  }

  /** The Run stopped at its last reply, which was the third blank one. */
  predicate GaveUp(p: Progress, turn: nat -> Turn) {
    && p.streams > 0 && Blank(turn(p.streams - 1)) && p.status == Error
    && p.drafts != []
    && p.drafts[|p.drafts| - 1] == Plain(ErrorStep, "agentloop: model returned an empty response")
  }

  predicate Retried(p: Progress, turn: nat -> Turn) {
    && p.retries == (if Blanks(turn, p.streams) < 2 then Blanks(turn, p.streams) else 2)
    && (p.status == Running ==> Blanks(turn, p.streams) <= 2)
    && (p.status == MaxIterations ==> Blanks(turn, p.streams) <= 2)
    && Blanks(turn, p.streams) <= 3
    && (Blanks(turn, p.streams) == 3 ==> GaveUp(p, turn))
  }

  lemma TurnRetries(p: Progress, turn: nat -> Turn)
    requires p.status == Running && Retried(p, turn)
    ensures Retried(TurnFrom(p, turn(p.streams)), turn)
    ensures var t, q := turn(p.streams), TurnFrom(p, turn(p.streams));
            && (q.status == Running ==> q.streams == p.streams + 1)
            && (Blank(t) && !t.cancelled && Blanks(turn, p.streams) < 2 ==> q.status == Running)
            && p.streams <= q.streams <= p.streams + 1
            && (q.streams == p.streams <==> t.cancelled) && (t.cancelled ==> q.status == Error)
  {
    hide IsBlank, ExtractDoneMarker, ExtractJSBlock, Shown, Carry, ToInt32;
  }

  lemma {:induction false} LoopRetries(p: Progress, turn: nat -> Turn, max: int, iter: nat)
    requires Retried(p, turn) && (p.status == Running ==> p.streams == iter)
    ensures var q := Loop(p, turn, max, iter);
            && Retried(q, turn) && q.streams >= p.streams
            && (p.status == Running && q.streams == p.streams ==>
                  if iter < max then turn(iter).cancelled && q.status == Error else q.status == MaxIterations)
    decreases max - iter
  {
    hide TurnFrom, Exceeded, EmptyResponse, GaveUp, Blank;
    if p.status == Running && iter < max {
      TurnRetries(p, turn);
      LoopRetries(TurnFrom(p, turn(iter)), turn, max, iter + 1);
    } else {
      EndRetries(p, turn, max);
    }
  }

  lemma EndRetries(p: Progress, turn: nat -> Turn, max: int)
    requires Retried(p, turn)
    ensures p.status == Running ==>
              Retried(End(p, Plain(ErrorStep, Exceeded(if max < 0 then 0 else max)), MaxIterations), turn)
  {
    hide Exceeded;
  }

  /** What follows iteration k. */
  predicate GoesOn(p: Progress, turn: nat -> Turn, max: int, k: nat) {
    || k + 1 < p.streams
    || (k + 1 < max && turn(k + 1).cancelled && p.status == Error)
    || (k + 1 >= max && p.status == MaxIterations)
  }

  lemma {:induction false} BlankGoesOn(p: Progress, turn: nat -> Turn, max: int, iter: nat, k: nat)
    requires Retried(p, turn) && p.status == Running && p.streams == iter <= k < Loop(p, turn, max, iter).streams
    requires Blank(turn(k)) && Blanks(turn, k) < 2
    ensures GoesOn(Loop(p, turn, max, iter), turn, max, k)
    decreases max - iter
  {
    hide TurnFrom, Exceeded, Blank;
    TurnRetries(p, turn);
    if iter < max {
      var q := TurnFrom(p, turn(iter));
      if q.status == Running {
        LoopRetries(q, turn, max, iter + 1);
        if k > iter { BlankGoesOn(q, turn, max, iter + 1, k); }
      }
    }
  }

  /** The first two blank replies of a Run are asked again, whatever else it does; the third ends it with
      the error for an empty response. */
  lemma BlankRepliesRetried(cfg: Config, env: Env, prior: seq<RunStep>, message: string)
    ensures var p := Whole(cfg, env, prior, message);
            var blanks := Blanks(env.turn, p.streams);
            && blanks <= 3 && p.retries == (if blanks < 2 then blanks else 2)
            && (blanks == 3 ==> GaveUp(p, env.turn))
            && forall k: nat | k < p.streams && Blank(env.turn(k)) && Blanks(env.turn, k) < 2 ::
                 GoesOn(p, env.turn, cfg.maxIterations, k)
  {
    var s := Seed(cfg, env, prior, message);
    SeedTokens(cfg, env, prior, message);
    SeedOpens(cfg, env, prior, message);
    hide Seed, Loop, GoesOn, Blank, GaveUp, Compaction;
    LoopRetries(s, env.turn, cfg.maxIterations, 0);
    forall k: nat | k < Whole(cfg, env, prior, message).streams && Blank(env.turn(k)) && Blanks(env.turn, k) < 2
      ensures GoesOn(Whole(cfg, env, prior, message), env.turn, cfg.maxIterations, k)
    {
      if s.status == Running {
        BlankGoesOn(s, env.turn, cfg.maxIterations, 0, k);
      } else {
        Stopped(s, env.turn, cfg.maxIterations);
      }
    }
  }

  lemma Stopped(p: Progress, turn: nat -> Turn, max: int)
    requires p.status != Running
    ensures Loop(p, turn, max, 0) == p
  {}

  // ---- how a Run ends ----

  /** This reply holds a script that is run. */
  predicate HoldsScript(t: Turn) {
    && t.stream.Replied? && !IsBlank(t.stream.content)
    && ExtractDoneMarker(t.stream.content) == None && ExtractJSBlock(t.stream.content) != ""
  }

  /** The scripts of the replies among the first n iterations, each with its outcome. */
  function ScriptsOf(turn: nat -> Turn, n: nat): seq<(string, Exec)> {
    if n == 0 then []
    else
      var t := turn(n - 1);
      ScriptsOf(turn, n - 1) + if HoldsScript(t) then [(ExtractJSBlock(t.stream.content), t.exec)] else []
  }

  function Outcomes(scripts: seq<Script>): seq<(string, Exec)> {
    if scripts == [] then []
    else
      var last := scripts[|scripts| - 1];
      Outcomes(scripts[..|scripts| - 1]) + [(last.code, last.outcome)]
  }

  /** After this iteration the Run goes on: a blank reply, or a script that did not call answer(). */
  predicate Passes(t: Turn) {
    !t.cancelled && t.stream.Replied? && (IsBlank(t.stream.content) || (HoldsScript(t) && t.answer == None))
  }

  /** The answer that this reply ends the Run with. */
  function FinalAnswer(t: Turn): Option<string> {
    if !t.stream.Replied? || IsBlank(t.stream.content) then None
    else if HoldsScript(t) then t.answer
    else if ExtractDoneMarker(t.stream.content).Some? then ExtractDoneMarker(t.stream.content)
    else Some(t.stream.content)
  }

  function LastDraft(p: Progress): Draft {
    if p.drafts == [] then Plain(User, "") else p.drafts[|p.drafts| - 1]
  }

  /** Why the Run stopped, read off the iterations. */
  predicate StoppedBy(p: Progress, turn: nat -> Turn, max: int) {
    var n := p.streams;
    match p.status
    case Running => false
    case Completed =>
      n > 0 && FinalAnswer(turn(n - 1)) == Some(p.final) && LastDraft(p) == Plain(Response, p.final)
    case MaxIterations =>
      && n == (if max < 0 then 0 else max)
      && LastDraft(p) ==
         Plain(ErrorStep, "agent exceeded max iterations (" + Decimal(n) + ") without emitting DONE")
    case Error =>
      || (n < max && turn(n).cancelled)
      || (n > 0 && turn(n - 1).stream.Failed? && LastDraft(p) == Plain(ErrorStep, turn(n - 1).stream.error))
      || (GaveUp(p, turn) && Blanks(turn, n) == 3)
  }

  /** What holds between iterations. */
  ghost predicate SoFar(p: Progress, turn: nat -> Turn, iter: nat) {
    && p.status == Running && p.streams == iter && Retried(p, turn)
    && Outcomes(p.scripts) == ScriptsOf(turn, iter)
    && forall k | 0 <= k < iter :: Passes(turn(k))
  }

  /** What holds at the end. */
  ghost predicate Accounted(p: Progress, turn: nat -> Turn, max: int) {
    && StoppedBy(p, turn, max)
    && Outcomes(p.scripts) == ScriptsOf(turn, p.streams)
    && forall k | 0 <= k < p.streams - 1 :: Passes(turn(k))
  }

  lemma OutcomesSnoc(scripts: seq<Script>, s: Script)
    ensures Outcomes(scripts + [s]) == Outcomes(scripts) + [(s.code, s.outcome)]
  {
    assert (scripts + [s])[..|scripts|] == scripts;
  }

  lemma TurnAccounts(p: Progress, turn: nat -> Turn, max: int, iter: nat)
    requires SoFar(p, turn, iter) && iter < max
    ensures var q := TurnFrom(p, turn(iter));
            if q.status == Running then SoFar(q, turn, iter + 1) else Accounted(q, turn, max)
  {
    var t := turn(iter);
    TurnRetries(p, turn);
    TurnAnswers(p, t);
    TurnScripts(p, t);
    hide *;
    TurnSettles(p, TurnFrom(p, t), turn, max, iter);
  }

  /** What one turn does to the status and to the last step. */
  predicate Ends(p: Progress, t: Turn, q: Progress) {
    match q.status
    case Running => Passes(t)
    case Completed => !t.cancelled && FinalAnswer(t) == Some(q.final) && LastDraft(q) == Plain(Response, q.final)
    case MaxIterations => false
    case Error =>
      || t.cancelled
      || (t.stream.Failed? && LastDraft(q) == Plain(ErrorStep, t.stream.error))
      || (Blank(t) && p.retries >= 2)
  }

  lemma TurnAnswers(p: Progress, t: Turn)
    requires p.status == Running
    ensures Ends(p, t, TurnFrom(p, t))
  {
    hide IsBlank, ExtractDoneMarker, ExtractJSBlock, Shown, Carry, ToInt32;
  }

  /** And to the scripts. */
  predicate Adds(p: Progress, t: Turn, q: Progress) {
    && q.streams == (if t.cancelled then p.streams else p.streams + 1)
    && Outcomes(q.scripts) ==
       Outcomes(p.scripts)
       + if !t.cancelled && HoldsScript(t) then [(ExtractJSBlock(t.stream.content), t.exec)] else []
  }

  lemma TurnScripts(p: Progress, t: Turn)
    requires p.status == Running
    ensures Adds(p, t, TurnFrom(p, t))
  {
    hide IsBlank, ExtractDoneMarker, ExtractJSBlock, Shown, ToInt32, EmptyResponse, Outcomes;
    var q := TurnFrom(p, t);
    if !t.cancelled && HoldsScript(t) {
      OutcomesSnoc(p.scripts, Script(ExtractJSBlock(t.stream.content), Carry(p.scripts), t.exec));
    } else {
      assert Outcomes(p.scripts) + [] == Outcomes(p.scripts);
    }
    hide Carry;
  }

  lemma TurnSettles(p: Progress, q: Progress, turn: nat -> Turn, max: int, iter: nat)
    requires SoFar(p, turn, iter) && iter < max && Ends(p, turn(iter), q) && Adds(p, turn(iter), q) && Retried(q, turn)
    requires q.status == Running ==> q.streams == iter + 1
    ensures if q.status == Running then SoFar(q, turn, iter + 1) else Accounted(q, turn, max)
  {
    hide *;
    ScriptsStep(p, q, turn, iter);
    if q.status == Running {
      StillSoFar(p, q, turn, iter);
    } else {
      NowStopped(p, q, turn, max, iter);
      PassedBefore(p, q, turn, max, iter);
    }
  }

  lemma ScriptsStep(p: Progress, q: Progress, turn: nat -> Turn, iter: nat)
    requires SoFar(p, turn, iter) && Adds(p, turn(iter), q)
    ensures q.streams == (if turn(iter).cancelled then iter else iter + 1)
    ensures Outcomes(q.scripts) == ScriptsOf(turn, q.streams)
  {
    hide Outcomes, HoldsScript, Passes, Retried, ExtractJSBlock;
  }

  lemma StillSoFar(p: Progress, q: Progress, turn: nat -> Turn, iter: nat)
    requires SoFar(p, turn, iter) && Ends(p, turn(iter), q) && Retried(q, turn)
    requires q.status == Running && q.streams == iter + 1 && Outcomes(q.scripts) == ScriptsOf(turn, q.streams)
    ensures SoFar(q, turn, iter + 1)
  {
    hide Outcomes, ScriptsOf, Passes, Retried;
  }

  lemma PassedBefore(p: Progress, q: Progress, turn: nat -> Turn, max: int, iter: nat)
    requires SoFar(p, turn, iter) && StoppedBy(q, turn, max) && q.streams <= iter + 1
    requires Outcomes(q.scripts) == ScriptsOf(turn, q.streams)
    ensures Accounted(q, turn, max)
  {
    hide Outcomes, ScriptsOf, Passes, Retried, StoppedBy;
  }

  lemma NowStopped(p: Progress, q: Progress, turn: nat -> Turn, max: int, iter: nat)
    requires SoFar(p, turn, iter) && iter < max && Ends(p, turn(iter), q) && Retried(q, turn) && q.status != Running
    requires q.streams == (if turn(iter).cancelled then iter else iter + 1)
    ensures StoppedBy(q, turn, max)
  {
    hide IsBlank, Outcomes, ScriptsOf, HoldsScript, Decimal, FinalAnswer, LastDraft, Passes, GaveUp;
    if Blank(turn(iter)) && p.retries >= 2 && !turn(iter).cancelled { ThirdBlank(p, turn, iter); }
  }

  lemma ThirdBlank(p: Progress, turn: nat -> Turn, iter: nat)
    requires p.status == Running && p.streams == iter && Retried(p, turn) && Blank(turn(iter)) && p.retries >= 2
    ensures Blanks(turn, iter + 1) == 3
  {
    hide Blank, GaveUp;
  }

  lemma {:induction false} LoopAccounts(p: Progress, turn: nat -> Turn, max: int, iter: nat)
    requires SoFar(p, turn, iter) && (iter <= max || iter == 0)
    ensures Accounted(Loop(p, turn, max, iter), turn, max)
    decreases max - iter
  {
    hide *;
    LoopUnfolds(p, turn, max, iter);
    if iter < max {
      TurnAccounts(p, turn, max, iter);
      var q := TurnFrom(p, turn(iter));
      if q.status == Running { LoopAccounts(q, turn, max, iter + 1); }
    } else {
      LimitAccounts(p, turn, max, iter);
    }
  }

  lemma LoopUnfolds(p: Progress, turn: nat -> Turn, max: int, iter: nat)
    requires SoFar(p, turn, iter)
    ensures var q := TurnFrom(p, turn(iter));
            Loop(p, turn, max, iter) ==
            if iter >= max then End(p, Plain(ErrorStep, Exceeded(if max < 0 then 0 else max)), MaxIterations)
            else if q.status == Running then Loop(q, turn, max, iter + 1)
            else q
  {
    hide TurnFrom, Exceeded, Retried, Outcomes, ScriptsOf, Passes;
  }

  lemma LimitAccounts(p: Progress, turn: nat -> Turn, max: int, iter: nat)
    requires SoFar(p, turn, iter) && iter == (if max < 0 then 0 else max)
    ensures Accounted(End(p, Plain(ErrorStep, Exceeded(if max < 0 then 0 else max)), MaxIterations), turn, max)
  {
    hide Decimal, Passes, ScriptsOf, Outcomes, Retried;
  }

  /** Every Run, read off its environment. Where the sandbox was built: it runs the scripts of its replies in
      order; every iteration but the last passed; and it stops because of the last one, with that iteration's
      answer or error as its last step, or at the limit, or cancelled. Otherwise it asks nothing. */
  lemma RunsAsItsTurnsSay(cfg: Config, env: Env, prior: seq<RunStep>, message: string)
    ensures var p := Whole(cfg, env, prior, message);
            && (env.buildOk ==> Accounted(p, env.turn, cfg.maxIterations))
            && (!env.buildOk ==> p.status == Error && p.streams == 0 && p.drafts == [Plain(User, message)])
  {
    SeedTokens(cfg, env, prior, message);
    SeedOpens(cfg, env, prior, message);
    var s := Seed(cfg, env, prior, message);
    if env.buildOk {
      SeedRuns(cfg, env, prior, message);
      hide Seed, Loop, Compaction;
      LoopAccounts(s, env.turn, cfg.maxIterations, 0);
    }
  }

  lemma SeedRuns(cfg: Config, env: Env, prior: seq<RunStep>, message: string)
    requires env.buildOk
    ensures SoFar(Seed(cfg, env, prior, message), env.turn, 0)
  {
    SeedTokens(cfg, env, prior, message);
    SeedOpens(cfg, env, prior, message);
    hide Rehydrated, RetainFromStep, Compaction;
  }

  /** Where a compaction is not adopted, because it failed or left nothing of something, the turns start from
      the whole history; otherwise from what it made of it. The question comes last. */
  lemma HistoryStartsFrom(cfg: Config, env: Env, prior: seq<RunStep>, message: string)
    requires env.buildOk
    ensures var history := Msgs(Rehydrated(prior, cfg.historyWindow));
            var c := Compaction(cfg, env, prior);
            var p := Seed(cfg, env, prior, message);
            if c == None || c.value.failed || (c.value.messages == [] && history != [])
            then p.live == history + [Message("user", message)] && p.drafts == [Plain(User, message)]
            else p.live == c.value.messages + [Message("user", message)]
  {
    hide Rehydrated, RetainFromStep, Msgs;
  }

  // ---- what a script's outcome is shown as ----

  /** The text that stands in the trace, and is read by the model, for each script of every Run: its logs
      and not the value it returned, or the error with its hint. */
  lemma OutputShown(cfg: Config, env: Env, prior: seq<RunStep>, message: string, i: nat)
    requires i < |Whole(cfg, env, prior, message).scripts|
    ensures var p := Whole(cfg, env, prior, message);
            var at := |Seed(cfg, env, prior, message).drafts| + 2 * i + 1;
            && at < |p.drafts|
            && match p.scripts[i].outcome
               case Returned(logs, value) => p.drafts[at] == Plain(ExecuteJsResult, logs)
               case Threw(error, hint) =>
                 && p.drafts[at].kind == ExecuteJsResult
                 && "Error: " + error <= p.drafts[at].content
                 && (hint != "" ==> "Error: " + error + "\n\nRETRY HINT: " + hint <= p.drafts[at].content)
  {
    hide Whole, Seed, Middle, Shown, Opening, Ending;
    TraceGrammar(cfg, env, prior, message);
    var p := Whole(cfg, env, prior, message);
    var head := Seed(cfg, env, prior, message).drafts;
    assert head + Middle(p.scripts) <= p.drafts;
    hide Grammar;
    MiddleAt(p.scripts, i);
    assert p.drafts[|head| + 2 * i + 1] == (head + Middle(p.scripts))[|head| + 2 * i + 1];
    ShownMeans(p.scripts[i].outcome);
  }

  lemma ShownMeans(e: Exec)
    ensures match e
            case Returned(logs, _) => Shown(e) == logs
            case Threw(error, hint) =>
              && "Error: " + error <= Shown(e)
              && (hint != "" ==> "Error: " + error + "\n\nRETRY HINT: " + hint <= Shown(e))
  {}

  // ---- the result ----

  /** A Run that was not completed has no final text. */
  lemma {:induction false} NoFinal(p: Progress, turn: nat -> Turn, max: int, iter: nat)
    requires p.status == Completed || p.final == ""
    ensures var q := Loop(p, turn, max, iter); q.status == Completed || q.final == ""
    decreases max - iter
  {
    hide TurnFrom, Exceeded;
    if p.status == Running && iter < max {
      TurnNoFinal(p, turn(iter));
      NoFinal(TurnFrom(p, turn(iter)), turn, max, iter + 1);
    }
  }

  lemma TurnNoFinal(p: Progress, t: Turn)
    requires p.final == ""
    ensures TurnFrom(p, t).status == Completed || TurnFrom(p, t).final == ""
  {
    hide IsBlank, ExtractDoneMarker, ExtractJSBlock, Shown, Carry, ToInt32, EmptyResponse;
  }

  /** The result of every Run, and the one summary that Finalize gets, agree; the text is the last step's
      as persisted, redacted, when the Run was completed, and otherwise there is none. */
  lemma ResultReports(cfg: Config, sid: string, env: Env, prior: seq<RunStep>, message: string)
    ensures var p := Whole(cfg, env, prior, message);
            var r, summaries := ResultOf(cfg, |prior|, p), Finalized(|prior|, p);
            var n := |p.drafts| - 1;
            var rows := Written(sid, cfg, env.appendOk, |prior|, p.drafts);
            && summaries == [FinalizeSummary(r.status, r.prompt, r.completion, r.steps)]
            && r.status == p.status && r.prompt == p.prompt && r.completion == p.completion
            && 0 <= n
            && r.finalText == cfg.redact(if p.status == Completed then p.drafts[n].content else "")
            && (p.status == Completed && env.appendOk(n) ==>
                  rows != [] && rows[|rows| - 1].kind == Response && rows[|rows| - 1].content == r.finalText)
  {
    TraceGrammar(cfg, env, prior, message);
    TraceKinds(cfg, env, prior, message);
    SeedOpens(cfg, env, prior, message);
    var s := Seed(cfg, env, prior, message);
    hide Seed, Loop, Grammar, ToInt32;
    NoFinal(s, env.turn, cfg.maxIterations, 0);
  }

  /** Defaults stand in for limits that are not positive; everything else is kept. */
  lemma SettingsKept(cfg: Config)
    ensures var c := New(cfg);
            && c.redact == cfg.redact
            && c.historyWindow == (if cfg.historyWindow > 0 then cfg.historyWindow else 80)
            && c.maxIterations == (if cfg.maxIterations > 0 then cfg.maxIterations else 20)
  {}
}
