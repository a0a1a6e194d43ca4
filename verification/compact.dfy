/** compact.go: folding the older part of a long history into one summary message. */
module Compact {
  import opened Text
  import opened Messages
  import opened Budget
  import opened Transcript
  import opened Summarize
  import Fold

  const DEFAULT_TRIGGER := 60
  const DEFAULT_KEEP := 20

  /** What a Compactor hands back to the loop. */
  datatype CompactResult = CompactResult(
    messages: seq<Message>, promptTokens: int, completionTokens: int,
    summary: string, retainedFrom: int, failed: bool)

  function Unchanged(history: seq<Message>): CompactResult {
    CompactResult(history, 0, 0, "", 0, false)
  }

  /** Trigger and Keep resolved, in that order. */
  function Bounds(trigger: int, keep: int): (int, int) {
    var t := if trigger <= 0 then DEFAULT_TRIGGER else trigger;
    var k := if keep <= 0 then DEFAULT_KEEP else keep;
    (t, if k >= t then t / 2 else k)
  }

  lemma BoundsSane(trigger: int, keep: int)
    ensures var (t, k) := Bounds(trigger, keep); 0 < t && 0 <= k < t && (k == 0 <==> t == 1)
    ensures 0 < keep < trigger ==> Bounds(trigger, keep) == (trigger, keep)
    ensures trigger <= 0 && keep <= 0 ==> Bounds(trigger, keep) == (60, 20)
  {}

  function SafeSplitPoint(history: seq<Message>, desired: int): int {
    if desired <= 0 then 0
    else if desired >= |history| then |history|
    else if IsExecutionResult(history[desired]) then desired - 1
    else desired
  }

  function SummaryContent(covered: nat, summary: string): string {
    "[summary of the " + Decimal(covered) + " earlier messages"
    + " in this session, which are no longer shown in full]\n" + summary
  }

  lemma SummaryContentBytes(covered: nat, summary: string)
    ensures var c := SummaryContent(covered, summary);
            c != "" && c[0] == '[' && !IsBlank(c) && !IsExecutionResult(Message("user", c))
            && |c| >= |summary| && c[|c| - |summary|..] == summary
            && "[summary of the " + Decimal(covered) + " earlier messages" <= c
  {
    SummaryCounts(covered, summary);
    hide Decimal;
    var c := SummaryContent(covered, summary);
    assert c[0] == '[';
    TrimKeepsFirst(c);
    assert RESULT_PREFIX[0] == 'E';
  }

  lemma SummaryCounts(covered: nat, summary: string)
    ensures "[summary of the " + Decimal(covered) + " earlier messages" <= SummaryContent(covered, summary)
  {
    hide Decimal;
  }

  lemma TrimKeepsFirst(s: string)
    requires s != "" && !IsSpace(s[0])
    ensures !IsBlank(s)
  {
    assert TrimLeft(s) == s;
    TrimRightKeepsFirst(s);
  }

  lemma {:induction false} TrimRightKeepsFirst(s: string)
    requires s != "" && !IsSpace(s[0])
    ensures TrimRight(s) != ""
    decreases |s|
  {
    if IsSpace(s[|s| - 1]) { TrimRightKeepsFirst(s[..|s| - 1]); }
  }

  /** history with its first `split` messages replaced by one summary. */
  predicate Folds(history: seq<Message>, split: int, r: CompactResult) {
    && 0 < split <= |history|
    && !r.failed && r.retainedFrom == split
    && r.messages == [Message("user", r.summary)] + history[split..]
  }

  /** The outcomes a SummarizingCompactor with these resolved bounds can produce on this history. */
  ghost predicate Outcome(trigger: int, keep: int, history: seq<Message>, r: CompactResult) {
    var split := SafeSplitPoint(history, |history| - keep);
    if |history| <= trigger || split <= 0 then r == Unchanged(history)
    else if r.failed then r.messages == history && r.summary == ""
    else Folds(history, split, r) && exists text :: Tidy(text) && r.summary == SummaryContent(split, text)
  }

  /** The calls behind a compaction of `older`, what the loop is billed for them, and that every message
      folded away was before the model in one of them. */
  ghost predicate Billed(llm: Llm, compactPrompt: string, mergePrompt: string, budget: ContextBudget,
                         older: seq<Message>, r: CompactResult) {
    exists log: seq<CallMade>, chunks: seq<string>, spans: seq<Span> ::
      BilledBy(llm, compactPrompt, mergePrompt, budget, older, r, log, chunks, spans)
  }

  ghost predicate BilledBy(llm: Llm, compactPrompt: string, mergePrompt: string, budget: ContextBudget,
                           older: seq<Message>, r: CompactResult,
                           log: seq<CallMade>, chunks: seq<string>, spans: seq<Span>) {
    var a := ChunkAllowance(budget, compactPrompt, mergePrompt);
    && (if older == [] then chunks == [""] else Cover(older, a, budget.Est(), chunks, spans, |older|))
    && SummarizeChunks(llm, compactPrompt, mergePrompt, a, budget.Est(), chunks) == (SummaryOf(|older|, r), |log|)
    && r.promptTokens == ToInt32(SpentIn(llm, log))
    && r.completionTokens == ToInt32(SpentOut(llm, log))
    && (!r.failed ==> AllMessagesAsked(log, compactPrompt, a, budget.Est(), older))
  }

  /** The text a summary message stands for, or nothing after a failure. */
  ghost function SummaryOf(covered: nat, r: CompactResult): Option<string> {
    if r.failed then None
    else if |r.summary| >= |SummaryContent(covered, "")| then Some(r.summary[|SummaryContent(covered, "")|..])
    else None
  }

  class SummarizingCompactor {
    var llm: Option<Llm>
    var trigger: int
    var keep: int
    var compactPrompt: string
    var mergePrompt: string
    var budget: ContextBudget

    constructor (llm: Option<Llm>, trigger: int, keep: int, compactPrompt: string, mergePrompt: string,
        budget: ContextBudget)
      ensures this.llm == llm && this.trigger == trigger && this.keep == keep
      ensures this.compactPrompt == compactPrompt && this.mergePrompt == mergePrompt && this.budget == budget
    {
      this.llm, this.trigger, this.keep := llm, trigger, keep;
      this.compactPrompt, this.mergePrompt, this.budget := compactPrompt, mergePrompt, budget;
    }

    method Compact(history: seq<Message>) returns (r: CompactResult)
      ensures llm == None ==> r == Unchanged(history)
      ensures llm.Some? ==> Outcome(Bounds(trigger, keep).0, Bounds(trigger, keep).1, history, r)
      ensures llm.Some? && r != Unchanged(history) ==>
                var split := SafeSplitPoint(history, |history| - Bounds(trigger, keep).1);
                0 < split <= |history| && Billed(llm.value, compactPrompt, mergePrompt, budget, history[..split], r)
    {
      hide Bounds, SummaryContent, SpentIn, SpentOut, SummarizeChunks, Cover, AllMessagesAsked, Called,
           ChunkAllowance, ToInt32, Billed, BilledBy, Outcome, Tidy, SummaryOf;
      var t, k := Bounds(trigger, keep).0, Bounds(trigger, keep).1;
      UnchangedOutcome(t, k, history);
      if llm == None || |history| <= t { return Unchanged(history); }
      var split := SafeSplitPoint(history, |history| - k);
      if split <= 0 { return Unchanged(history); }
      var older, tail := history[..split], history[split..];
      var attempt := new Attempt(llm.value, compactPrompt, mergePrompt, budget);
      var summary, chunks, spans := attempt.Summarize(older);
      if summary == None {
        r := CompactResult(history, attempt.promptTokens, attempt.completionTokens, "", 0, true);
        FailedOutcome(t, k, history, split, r);
      } else {
        var content := SummaryContent(|older|, summary.value);
        r := CompactResult([Message("user", content)] + tail,
                           attempt.promptTokens, attempt.completionTokens, content, split, false);
        SummarizedIsTidy(attempt.llm, compactPrompt, mergePrompt, ChunkAllowance(budget, compactPrompt, mergePrompt),
            budget.Est(), chunks);
        FoldedOutcome(t, k, history, split, r, summary.value);
        AllAsked(attempt.log, compactPrompt, mergePrompt, budget, older, chunks, spans);
      }
      BilledHere(attempt.llm, compactPrompt, mergePrompt, budget, older, r, attempt.log, chunks, spans);
    }
  }

  lemma UnchangedOutcome(trigger: int, keep: int, history: seq<Message>)
    ensures |history| <= trigger || SafeSplitPoint(history, |history| - keep) <= 0 ==>
              Outcome(trigger, keep, history, Unchanged(history))
  {}

  lemma FailedOutcome(trigger: int, keep: int, history: seq<Message>, split: int, r: CompactResult)
    requires |history| > trigger && split == SafeSplitPoint(history, |history| - keep) && 0 < split <= |history|
    requires r.failed && r.messages == history && r.summary == ""
    ensures Outcome(trigger, keep, history, r) && SummaryOf(|history[..split]|, r) == None
  {}

  lemma FoldedOutcome(trigger: int, keep: int, history: seq<Message>, split: int, r: CompactResult, text: string)
    requires |history| > trigger && split == SafeSplitPoint(history, |history| - keep) && 0 < split <= |history|
    requires !r.failed && r.retainedFrom == split && Tidy(text) && r.summary == SummaryContent(split, text)
    requires r.messages == [Message("user", r.summary)] + history[split..]
    ensures Outcome(trigger, keep, history, r) && SummaryOf(|history[..split]|, r) == Some(text)
  {
    hide Tidy, SummaryContent, SafeSplitPoint;
    SummaryContentEnds(split, text);
    assert |history[..split]| == split;
  }

  lemma BilledHere(llm: Llm, compactPrompt: string, mergePrompt: string, budget: ContextBudget, older: seq<Message>,
                   r: CompactResult, log: seq<CallMade>, chunks: seq<string>, spans: seq<Span>)
    requires var a := ChunkAllowance(budget, compactPrompt, mergePrompt);
             && (if older == [] then chunks == [""] else Cover(older, a, budget.Est(), chunks, spans, |older|))
             && SummarizeChunks(llm, compactPrompt, mergePrompt, a, budget.Est(), chunks)
                == (SummaryOf(|older|, r), |log|)
             && (!r.failed ==> AllMessagesAsked(log, compactPrompt, a, budget.Est(), older))
    requires r.promptTokens == ToInt32(SpentIn(llm, log)) && r.completionTokens == ToInt32(SpentOut(llm, log))
    ensures Billed(llm, compactPrompt, mergePrompt, budget, older, r)
  {
    hide SummaryOf, SummarizeChunks, Cover, ChunkAllowance, SpentIn, SpentOut, ToInt32, AllMessagesAsked,
         ContextBudget.Est;
    assert BilledBy(llm, compactPrompt, mergePrompt, budget, older, r, log, chunks, spans);
  }

  /** Every one of these messages was before the model. */
  ghost predicate AllMessagesAsked(log: seq<CallMade>, compactPrompt: string, allowance: int, est: Estimator,
                                   ms: seq<Message>) {
    forall k | 0 <= k < |ms| :: MessageAsked(log, compactPrompt, ms[k], allowance, est)
  }

  lemma AllAsked(log: seq<CallMade>, compactPrompt: string, mergePrompt: string, budget: ContextBudget,
                 older: seq<Message>, chunks: seq<string>, spans: seq<Span>)
    requires Called(log, compactPrompt, mergePrompt, chunks) && |log| >= |chunks|
    requires older != [] ==>
               Cover(older, ChunkAllowance(budget, compactPrompt, mergePrompt), budget.Est(), chunks, spans, |older|)
    ensures AllMessagesAsked(log, compactPrompt, ChunkAllowance(budget, compactPrompt, mergePrompt), budget.Est(),
                             older)
  {
    hide Called, Cover, ChunkAllowance, MessageAsked, ContextBudget.Est;
    var a, est := ChunkAllowance(budget, compactPrompt, mergePrompt), budget.Est();
    forall k | 0 <= k < |older| ensures MessageAsked(log, compactPrompt, older[k], a, est) {
      EveryMessageAsked(log, compactPrompt, mergePrompt, older, a, est, chunks, spans, k);
    }
  }

  lemma SummaryContentEnds(covered: nat, summary: string)
    ensures var h := SummaryContent(covered, ""); SummaryContent(covered, summary) == h + summary
    ensures SummaryContent(covered, summary)[|SummaryContent(covered, "")|..] == summary
  {
    hide Decimal;
    var h := SummaryContent(covered, "");
    assert SummaryContent(covered, summary) == h + summary;
    hide SummaryContent;
    assert (h + summary)[|h|..] == summary;
  }

  /** Whatever comes out of summarizing is a trimmed, non-empty text. */
  lemma SummarizedIsTidy(llm: Llm, compactPrompt: string, mergePrompt: string, allowance: int, est: Estimator,
                         chunks: seq<string>)
    ensures var r := SummarizeChunks(llm, compactPrompt, mergePrompt, allowance, est, chunks).0;
            r.Some? ==> Tidy(r.value)
  {
    hide Ask, FoldFrom, Tidy, ChunkBodies;
    AskTidy(llm, 0, compactPrompt, ChunkBodies(chunks));
    var parts := Ask(llm, 0, compactPrompt, ChunkBodies(chunks));
    if parts.0.Some? { FoldTidy(llm, mergePrompt, allowance, est, parts.0.value, parts.1, MAX_FOLD_ROUNDS); }
  }

  predicate AllTidy(parts: seq<string>) { forall i | 0 <= i < |parts| :: Tidy(parts[i]) }

  lemma {:induction false} AskTidy(llm: Llm, n: nat, prompt: string, bodies: seq<string>)
    ensures var r := Ask(llm, n, prompt, bodies).0; r.Some? ==> AllTidy(r.value)
    decreases |bodies|
  {
    hide Answer, Tidy;
    if bodies != [] {
      AnswerTidy(llm, n, prompt, bodies[0]);
      AskTidy(llm, n + 1, prompt, bodies[1..]);
    }
  }

  lemma AnswerTidy(llm: Llm, n: nat, prompt: string, body: string)
    ensures Answer(llm, n, prompt, body).Some? ==> Tidy(Answer(llm, n, prompt, body).value)
  {
    var t := TrimSpace(llm(n, prompt, body).content);
    if t != "" { TrimSpaceFixed(t); }
  }

  lemma {:induction false} FoldTidy(llm: Llm, prompt: string, allowance: int, est: Estimator, parts: seq<string>,
                                    n: nat, left: nat)
    requires AllTidy(parts)
    ensures var r := FoldFrom(llm, prompt, allowance, est, parts, n, left).0; r.Some? ==> Tidy(r.value)
    decreases left
  {
    hide Ask, Tidy, Bodies;
    if |parts| > 1 && left > 0 {
      AskTidy(llm, n, prompt, Bodies(Fold.Greedy(allowance, est, [], parts)));
      var merged := Round(llm, prompt, allowance, est, parts, n);
      if merged.0.Some? { FoldTidy(llm, prompt, allowance, est, merged.0.value, n + merged.1, left - 1); }
    }
  }

  // ---- what a compaction does to a history ----

  /** A history long enough to compact always has something to fold away: the guard against an
      indivisible tail never fires. */
  lemma SplitBounds(trigger: int, keep: int, history: seq<Message>)
    requires 0 <= keep < trigger && |history| > trigger
    ensures 1 <= SafeSplitPoint(history, |history| - keep) <= |history| - keep
    ensures |history| - keep - 1 <= SafeSplitPoint(history, |history| - keep)
  {}

  /** The compacted history is never longer, and holds at most keep + 2 messages once folded. */
  lemma NeverLonger(trigger: int, keep: int, history: seq<Message>, r: CompactResult)
    requires 0 <= keep < trigger && Outcome(trigger, keep, history, r)
    ensures |r.messages| <= |history|
    ensures r.messages == history || keep + 1 <= |r.messages| <= keep + 2
  {
    if |history| > trigger {
      SplitBounds(trigger, keep, history);
      var split := SafeSplitPoint(history, |history| - keep);
      if !r.failed {
        assert |r.messages| == 1 + |history| - split;
      }
    }
  }

  function SomeResult(): Message { Message("user", RESULT_PREFIX) }

  /** Folding shrinks every history it is applied to exactly when keep + 2 <= trigger (or nothing
      is kept): otherwise the step back can leave a summary of a single message. */
  lemma ShrinksIff(trigger: int, keep: int)
    requires 0 <= keep < trigger
    ensures (forall h: seq<Message> :: |h| > trigger ==> 1 + |h| - SafeSplitPoint(h, |h| - keep) < |h|)
            <==> keep + 2 <= trigger || keep == 0
  {
    if keep + 2 > trigger && keep > 0 {
      var h := seq(trigger + 1, i => SomeResult());
      assert |h| - keep == 2 && IsExecutionResult(h[2]);
      assert SafeSplitPoint(h, |h| - keep) == 1;
    } else {
      forall h: seq<Message> | |h| > trigger ensures 1 + |h| - SafeSplitPoint(h, |h| - keep) < |h| {
        SplitBounds(trigger, keep, h);
      }
    }
  }

  /** The retained tail opens with an execution result exactly when two in a row sit at the cut. */
  lemma TailOpensWithResultIff(history: seq<Message>, desired: int)
    ensures var split := SafeSplitPoint(history, desired);
            0 < split < |history| && IsExecutionResult(history[split]) <==>
            1 < desired < |history| && IsExecutionResult(history[desired]) && IsExecutionResult(history[desired - 1])
  {}
}
