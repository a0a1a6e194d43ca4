/** compact.go: summarizing a transcript in as many calls as it takes. The model behind the
    calls is an arbitrary function of the call's number, instruction and body. */
module Summarize {
  import opened Text
  import opened Messages
  import opened Budget
  import opened Transcript
  import opened Fold

  datatype Reply = Reply(content: string, inputTokens: int, outputTokens: int, failed: bool)

  type Llm = (nat, string, string) -> Reply

  datatype CallMade = CallMade(prompt: string, body: string)

  /** A usable answer is a successful, non-blank one, trimmed. */
  function Answer(llm: Llm, n: nat, prompt: string, body: string): Option<string> {
    var r := llm(n, prompt, body);
    if r.failed || IsBlank(r.content) then None else Some(TrimSpace(r.content))
  }

  const DEFAULT_SUMMARIZE_TOKENS := 50_000
  const MIN_CHUNK_TOKENS := 1_000
  const MAX_FOLD_ROUNDS: nat := 5

  /** chunkBounds: the transcript tokens one call may carry beside the larger instruction. */
  function ChunkAllowance(budget: ContextBudget, compactPrompt: string, mergePrompt: string): (a: int)
    ensures a >= MIN_CHUNK_TOKENS
  {
    var est := budget.Est();
    var room := if budget.Enabled() then budget.Allowance() else DEFAULT_SUMMARIZE_TOKENS;
    var overhead := if est(mergePrompt) > est(compactPrompt) then est(mergePrompt) else est(compactPrompt);
    var a := room - (overhead + 2 * FRAME_TOKENS);
    if a < MIN_CHUNK_TOKENS then MIN_CHUNK_TOKENS else a
  }

  // ---- what a call is sent ----

  function Labelled(parts: seq<string>, i: nat): string
    requires i <= |parts|
    decreases |parts| - i
  {
    if i == |parts| then ""
    else "[part " + Decimal(i + 1) + " of " + Decimal(|parts|) + "]\n" + parts[i] + "\n\n" + Labelled(parts, i + 1)
  }

  function JoinParts(parts: seq<string>): string {
    if |parts| == 1 then parts[0] else TrimSpace(Labelled(parts, 0))
  }

  function ChunkBody(chunks: seq<string>, i: nat): string
    requires i < |chunks|
  {
    if |chunks| == 1 then chunks[0]
    else "Part " + Decimal(i + 1) + " of " + Decimal(|chunks|) + " of the earlier transcript.\n\n" + chunks[i]
  }

  // ---- the specification ----

  /** The replies to a series of calls, made until one fails, and how many were made. */
  function Ask(llm: Llm, n: nat, prompt: string, bodies: seq<string>): (r: (Option<seq<string>>, nat))
    ensures r.1 <= |bodies|
    ensures r.0.Some? ==> r.1 == |bodies| == |r.0.value|
    decreases |bodies|
  {
    if bodies == [] then (Some([]), 0)
    else
      match Answer(llm, n, prompt, bodies[0])
      case None => (None, 1)
      case Some(a) =>
        var rest := Ask(llm, n + 1, prompt, bodies[1..]);
        (if rest.0.None? then None else Some([a] + rest.0.value), rest.1 + 1)
  }

  function Bodies(groups: seq<seq<string>>): seq<string> {
    seq(|groups|, i requires 0 <= i < |groups| => JoinParts(groups[i]))
  }

  /** One fold round: one call per group, starting with call n. */
  function Round(llm: Llm, prompt: string, allowance: int, est: Estimator, parts: seq<string>, n: nat)
    : (r: (Option<seq<string>>, nat))
    ensures r.0.Some? ==> r.1 == |r.0.value|
  {
    Ask(llm, n, prompt, Bodies(Greedy(allowance, est, [], parts)))
  }

  /** Merge in rounds until one part remains; give up when no round is left or at a failed call. */
  function FoldFrom(llm: Llm, prompt: string, allowance: int, est: Estimator, parts: seq<string>, n: nat, left: nat)
    : (Option<string>, nat)
    decreases left
  {
    if |parts| == 0 then (None, 0)
    else if |parts| == 1 then (Some(parts[0]), 0)
    else if left == 0 then (None, 0)
    else
      var merged := Round(llm, prompt, allowance, est, parts, n);
      if merged.0.None? then (None, merged.1)
      else
        var rest := FoldFrom(llm, prompt, allowance, est, merged.0.value, n + merged.1, left - 1);
        (rest.0, merged.1 + rest.1)
  }

  function ChunkBodies(chunks: seq<string>): seq<string> {
    seq(|chunks|, i requires 0 <= i < |chunks| => ChunkBody(chunks, i))
  }

  function SummarizeChunks(llm: Llm, compactPrompt: string, mergePrompt: string, allowance: int, est: Estimator,
                           chunks: seq<string>)
    : (Option<string>, nat)
  {
    var parts := Ask(llm, 0, compactPrompt, ChunkBodies(chunks));
    if parts.0.None? then (None, parts.1)
    else
      var folded := FoldFrom(llm, mergePrompt, allowance, est, parts.0.value, parts.1, MAX_FOLD_ROUNDS);
      (folded.0, parts.1 + folded.1)
  }

  // ---- tokens ----

  /** What the calls of a log cost, as true sums. */
  function SpentIn(llm: Llm, log: seq<CallMade>): int {
    if log == [] then 0
    else
      var k := |log| - 1;
      SpentIn(llm, log[..k]) + llm(k, log[k].prompt, log[k].body).inputTokens
  }

  function SpentOut(llm: Llm, log: seq<CallMade>): int {
    if log == [] then 0
    else
      var k := |log| - 1;
      SpentOut(llm, log[..k]) + llm(k, log[k].prompt, log[k].body).outputTokens
  }

  lemma SpentSnoc(llm: Llm, log: seq<CallMade>, c: CallMade)
    ensures SpentIn(llm, log + [c]) == SpentIn(llm, log) + llm(|log|, c.prompt, c.body).inputTokens
    ensures SpentOut(llm, log + [c]) == SpentOut(llm, log) + llm(|log|, c.prompt, c.body).outputTokens
  {
    assert (log + [c])[..|log|] == log;
  }

  /** One compaction attempt: its calls so far and the int32 usage they were charged to. */
  class Attempt {
    const llm: Llm
    const compactPrompt: string
    const mergePrompt: string
    const budget: ContextBudget
    var log: seq<CallMade>
    var promptTokens: int
    var completionTokens: int

    constructor (llm: Llm, compactPrompt: string, mergePrompt: string, budget: ContextBudget)
      ensures Charged() && log == []
      ensures this.llm == llm && this.compactPrompt == compactPrompt && this.mergePrompt == mergePrompt
      ensures this.budget == budget
    {
      this.llm, this.compactPrompt, this.mergePrompt, this.budget := llm, compactPrompt, mergePrompt, budget;
      log, promptTokens, completionTokens := [], 0, 0;
    }

    /** Every call made so far is in the reported usage, whether or not it succeeded. */
    ghost predicate Charged()
      reads this
    {
      promptTokens == ToInt32(SpentIn(llm, log)) && completionTokens == ToInt32(SpentOut(llm, log))
    }

    method Call(prompt: string, body: string) returns (r: Option<string>)
      requires Charged()
      modifies this
      ensures Charged()
      ensures log == old(log) + [CallMade(prompt, body)]
      ensures r == Answer(llm, |old(log)|, prompt, body)
    {
      SpentSnoc(llm, log, CallMade(prompt, body));
      hide SpentIn, SpentOut, ToInt32, TrimSpace;
      var resp := llm(|log|, prompt, body);
      ToInt32Absorbs(SpentIn(llm, log), resp.inputTokens);
      ToInt32Absorbs(SpentOut(llm, log), resp.outputTokens);
      promptTokens := ToInt32(promptTokens + ToInt32(resp.inputTokens));
      completionTokens := ToInt32(completionTokens + ToInt32(resp.outputTokens));
      log := log + [CallMade(prompt, body)];
      if resp.failed { return None; }
      var summary := TrimSpace(resp.content);
      if summary == "" { return None; }
      return Some(summary);
    }

    /** A series of calls under one instruction, up to the first failure. */
    method CallAll(prompt: string, bodies: seq<string>) returns (out: Option<seq<string>>)
      requires Charged()
      modifies this
      ensures Charged()
      ensures (out, |log| - |old(log)|) == Ask(llm, |old(log)|, prompt, bodies)
      ensures log == old(log) + Made(prompt, bodies[..Ask(llm, |old(log)|, prompt, bodies).1])
    {
      hide SpentIn, SpentOut, Answer;
      var acc := [];
      assert bodies[0..] == bodies;
      OnwardNone(Ask(llm, |log|, prompt, bodies));
      var i := 0;
      while i < |bodies|
        invariant 0 <= i <= |bodies| && |acc| == i
        invariant Charged() && log == old(log) + Made(prompt, bodies[..i])
        invariant Ask(llm, |old(log)|, prompt, bodies) ==
                  Onward(acc, Ask(llm, |old(log)| + i, prompt, bodies[i..]))
      {
        var r := Call(prompt, bodies[i]);
        MadeSnoc(prompt, bodies, i);
        assert bodies[i..][1..] == bodies[i + 1..];
        if r.None? { return None; }
        OnwardStep(acc, r.value, Ask(llm, |old(log)| + i + 1, prompt, bodies[i + 1..]));
        acc := acc + [r.value];
        i := i + 1;
      }
      assert acc + [] == acc;
      return Some(acc);
    }

    method FoldParts(start: seq<string>, allowance: int) returns (r: Option<string>)
      requires Charged() && start != []
      modifies this
      ensures Charged() && old(log) <= log
      ensures (r, |log| - |old(log)|) ==
              FoldFrom(llm, mergePrompt, allowance, budget.Est(), start, |old(log)|, MAX_FOLD_ROUNDS)
      ensures forall i | |old(log)| <= i < |log| :: log[i].prompt == mergePrompt
    {
      hide Greedy, Ask, Bodies, SpentIn, SpentOut;
      var parts, round := start, 1;
      while |parts| > 1
        invariant 1 <= round <= MAX_FOLD_ROUNDS + 1 && parts != []
        invariant Charged() && old(log) <= log
        invariant forall i | |old(log)| <= i < |log| :: log[i].prompt == mergePrompt
        invariant var made := |log| - |old(log)|;
                  var rest := FoldFrom(llm, mergePrompt, allowance, budget.Est(), parts, |log|,
                      MAX_FOLD_ROUNDS + 1 - round);
                  FoldFrom(llm, mergePrompt, allowance, budget.Est(), start, |old(log)|, MAX_FOLD_ROUNDS) ==
                      (rest.0, made + rest.1)
        decreases MAX_FOLD_ROUNDS + 1 - round
      {
        if round > MAX_FOLD_ROUNDS { return None; }
        var groups := GroupParts(parts, allowance, budget.Est());
        var next := CallAll(mergePrompt, Bodies(groups));
        if next.None? { return None; }
        GreedyNonEmpty(allowance, budget.Est(), parts);
        BodiesCount(groups);
        parts := next.value;
        round := round + 1;
      }
      return Some(parts[0]);
    }

    method Summarize(messages: seq<Message>)
      returns (r: Option<string>, ghost chunks: seq<string>, ghost spans: seq<Span>)
      requires Charged() && log == []
      modifies this
      ensures Charged()
      ensures var a := ChunkAllowance(budget, compactPrompt, mergePrompt);
              && (if messages == [] then chunks == [""]
                  else Cover(messages, a, budget.Est(), chunks, spans, |messages|))
              && (r, |log|) == SummarizeChunks(llm, compactPrompt, mergePrompt, a, budget.Est(), chunks)
      ensures Called(log, compactPrompt, mergePrompt, chunks) && (r.Some? ==> |log| >= |chunks|)
    {
      hide Cover, ChunkAllowance, Ask, FoldFrom, ChunkBodies, Made, SpentIn, SpentOut, Called;
      var allowance := ChunkAllowance(budget, compactPrompt, mergePrompt);
      var pieces, cover := TranscriptChunks(messages, allowance, budget.Est());
      chunks, spans := pieces, cover;
      if |pieces| == 1 {
        r := Call(compactPrompt, pieces[0]);
        LoneCalled(compactPrompt, mergePrompt, pieces);
        assert [] + [CallMade(compactPrompt, pieces[0])] == [CallMade(compactPrompt, pieces[0])];
        SingleChunk(llm, compactPrompt, mergePrompt, allowance, budget.Est(), pieces);
        return;
      }
      ChunkBodiesCount(pieces);
      var parts := CallAll(compactPrompt, ChunkBodies(pieces));
      ChunksCalled(compactPrompt, mergePrompt, pieces, Ask(llm, 0, compactPrompt, ChunkBodies(pieces)).1);
      ghost var made := Made(compactPrompt, ChunkBodies(pieces)[..Ask(llm, 0, compactPrompt, ChunkBodies(pieces)).1]);
      assert [] + made == made;
      if parts.None? { return None, chunks, spans; }
      ghost var asked := log;
      r := FoldParts(parts.value, allowance);
      MergesCalled(compactPrompt, mergePrompt, pieces, asked, log);
    }
  }

  /** The calls of a log: the chunks in order under one instruction, then merges under the other. */
  predicate Called(log: seq<CallMade>, compactPrompt: string, mergePrompt: string, chunks: seq<string>) {
    forall i | 0 <= i < |log| ::
      if i < |chunks| then log[i] == CallMade(compactPrompt, ChunkBody(chunks, i)) else log[i].prompt == mergePrompt
  }

  lemma LoneCalled(compactPrompt: string, mergePrompt: string, chunks: seq<string>)
    requires |chunks| == 1
    ensures Called([CallMade(compactPrompt, chunks[0])], compactPrompt, mergePrompt, chunks)
  {}

  lemma ChunksCalled(compactPrompt: string, mergePrompt: string, chunks: seq<string>, n: nat)
    requires n <= |ChunkBodies(chunks)|
    ensures var log := Made(compactPrompt, ChunkBodies(chunks)[..n]);
            |log| == n && Called(log, compactPrompt, mergePrompt, chunks)
  {
    hide ChunkBody;
  }

  lemma MergesCalled(compactPrompt: string, mergePrompt: string, chunks: seq<string>,
                     asked: seq<CallMade>, log: seq<CallMade>)
    requires Called(asked, compactPrompt, mergePrompt, chunks) && |asked| >= |chunks| && asked <= log
    requires forall i | |asked| <= i < |log| :: log[i].prompt == mergePrompt
    ensures Called(log, compactPrompt, mergePrompt, chunks)
  {
    hide ChunkBody;
  }

  function Made(prompt: string, bodies: seq<string>): seq<CallMade> {
    seq(|bodies|, i requires 0 <= i < |bodies| => CallMade(prompt, bodies[i]))
  }

  lemma MadeSnoc(prompt: string, bodies: seq<string>, i: nat)
    requires i < |bodies|
    ensures Made(prompt, bodies[..i + 1]) == Made(prompt, bodies[..i]) + [CallMade(prompt, bodies[i])]
  {}

  function Onward(acc: seq<string>, rest: (Option<seq<string>>, nat)): (Option<seq<string>>, nat) {
    (if rest.0.None? then None else Some(acc + rest.0.value), |acc| + rest.1)
  }

  lemma OnwardNone(rest: (Option<seq<string>>, nat))
    ensures Onward([], rest) == rest
  {
    if rest.0.Some? { assert [] + rest.0.value == rest.0.value; }
  }

  lemma OnwardStep(acc: seq<string>, a: string, rest: (Option<seq<string>>, nat))
    ensures Onward(acc, (if rest.0.None? then None else Some([a] + rest.0.value), rest.1 + 1)) ==
            Onward(acc + [a], rest)
  {
    if rest.0.Some? { assert acc + ([a] + rest.0.value) == acc + [a] + rest.0.value; }
  }

  lemma SingleChunk(llm: Llm, compactPrompt: string, mergePrompt: string, allowance: int, est: Estimator,
                    chunks: seq<string>)
    requires |chunks| == 1
    ensures SummarizeChunks(llm, compactPrompt, mergePrompt, allowance, est, chunks)
            == (Answer(llm, 0, compactPrompt, chunks[0]), 1)
  {
    var bodies := ChunkBodies(chunks);
    assert bodies == [chunks[0]] && bodies[1..] == [];
    var r := Ask(llm, 0, compactPrompt, bodies);
    assert Ask(llm, 1, compactPrompt, []) == (Some([]), 0);
    assert r.0.Some? ==> r.0.value == [Answer(llm, 0, compactPrompt, chunks[0]).value];
  }

  lemma BodiesCount(groups: seq<seq<string>>)
    ensures |Bodies(groups)| == |groups|
  {}

  lemma ChunkBodiesCount(chunks: seq<string>)
    ensures |ChunkBodies(chunks)| == |chunks|
  {}

  // ---- theorems about folding ----

  /** A round makes at most one call per part, and never yields more parts than it was given. */
  lemma RoundBound(llm: Llm, prompt: string, allowance: int, est: Estimator, parts: seq<string>, n: nat)
    requires parts != []
    ensures var r := Round(llm, prompt, allowance, est, parts, n);
            r.1 <= |parts| && (r.0.Some? ==> 1 <= |r.0.value| <= |parts|)
  {
    GreedyNonEmpty(allowance, est, parts);
    hide Greedy;
  }

  /** In all cases folding stops within one call per part and round, five rounds at most. */
  lemma {:induction false} FoldCallBound(llm: Llm, prompt: string, allowance: int, est: Estimator, parts: seq<string>,
      n: nat, left: nat)
    ensures FoldFrom(llm, prompt, allowance, est, parts, n, left).1 <= left * |parts|
    decreases left
  {
    hide Round;
    if |parts| > 1 && left > 0 {
      RoundBound(llm, prompt, allowance, est, parts, n);
      var merged := Round(llm, prompt, allowance, est, parts, n);
      if merged.0.Some? {
        var m := merged.0.value;
        FoldCallBound(llm, prompt, allowance, est, m, n + merged.1, left - 1);
        AllRounds(left, |parts|, |m|, merged.1, FoldFrom(llm, prompt, allowance, est, m, n + merged.1, left - 1).1);
      } else {
        AllRounds(left, |parts|, 0, merged.1, 0);
      }
    }
  }

  lemma AllRounds(left: nat, p: nat, m: nat, first: nat, others: nat)
    requires left >= 1 && m <= p && first <= p && others <= (left - 1) * m
    ensures first + others <= left * p
  {
    MulMonotone(m, p, left - 1);
    Distribute(p, left - 1, 1);
  }

  /** The model answers every call, with a summary of which k fit one call. */
  ghost predicate Concise(llm: Llm, allowance: int, est: Estimator, k: nat) {
    forall n: nat, prompt: string, body: string ::
      Answer(llm, n, prompt, body).Some? && k * PartCost(est, Answer(llm, n, prompt, body).value) <= allowance
  }

  lemma {:induction false} AskConcise(llm: Llm, n: nat, prompt: string, bodies: seq<string>, allowance: int,
                                      est: Estimator, k: nat)
    requires Concise(llm, allowance, est, k)
    ensures var r := Ask(llm, n, prompt, bodies).0;
            r.Some? && |r.value| == |bodies| && SmallParts(allowance, est, r.value, k)
    decreases |bodies|
  {
    hide Answer;
    if bodies != [] {
      assert Answer(llm, n, prompt, bodies[0]).Some?;
      AskConcise(llm, n + 1, prompt, bodies[1..], allowance, est, k);
    }
  }

  lemma RoundConcise(llm: Llm, prompt: string, allowance: int, est: Estimator, parts: seq<string>, n: nat, k: nat)
    requires k >= 1 && Concise(llm, allowance, est, k) && SmallParts(allowance, est, parts, k) && parts != []
    ensures var r := Round(llm, prompt, allowance, est, parts, n).0;
            r.Some? && 1 <= |r.value| <= BlockCount(|parts|, k) && SmallParts(allowance, est, r.value, k)
  {
    RoundShrinks(allowance, est, parts, k);
    GreedyNonEmpty(allowance, est, parts);
    hide Greedy, SmallParts, Concise, Ask;
    AskConcise(llm, n, prompt, Bodies(Greedy(allowance, est, [], parts)), allowance, est, k);
  }

  function Power(k: nat, e: nat): nat { if e == 0 then 1 else k * Power(k, e - 1) }

  /** With summaries of which k >= 2 fit one call, j rounds take up to k^j parts to one: with the
      five rounds allowed, any input of up to k^5 parts converges. */
  lemma {:induction false} FoldConverges(llm: Llm, prompt: string, allowance: int, est: Estimator, parts: seq<string>,
      n: nat, k: nat, left: nat)
    requires k >= 2 && Concise(llm, allowance, est, k) && SmallParts(allowance, est, parts, k)
    requires 1 <= |parts| <= Power(k, left)
    ensures FoldFrom(llm, prompt, allowance, est, parts, n, left).0.Some?
    decreases left
  {
    hide Round, SmallParts, Concise;
    if |parts| > 1 {
      RoundConcise(llm, prompt, allowance, est, parts, n, k);
      BlockCountBound(|parts|, k, Power(k, left - 1));
      var merged := Round(llm, prompt, allowance, est, parts, n);
      FoldConverges(llm, prompt, allowance, est, merged.0.value, n + merged.1, k, left - 1);
    }
  }

  /** The model answers every call, but no two of its summaries ever fit one call. */
  ghost predicate Verbose(llm: Llm, allowance: int, est: Estimator) {
    forall n: nat, prompt: string, body: string ::
      Answer(llm, n, prompt, body).Some? && 2 * PartCost(est, Answer(llm, n, prompt, body).value) > allowance
  }

  lemma {:induction false} AskVerbose(llm: Llm, n: nat, prompt: string, bodies: seq<string>, allowance: int,
                                      est: Estimator)
    requires Verbose(llm, allowance, est)
    ensures var r := Ask(llm, n, prompt, bodies).0;
            r.Some? && |r.value| == |bodies| && BigParts(allowance, est, r.value)
    decreases |bodies|
  {
    hide Answer;
    if bodies != [] {
      assert Answer(llm, n, prompt, bodies[0]).Some?;
      AskVerbose(llm, n + 1, prompt, bodies[1..], allowance, est);
    }
  }

  lemma RoundVerbose(llm: Llm, prompt: string, allowance: int, est: Estimator, parts: seq<string>, n: nat)
    requires Verbose(llm, allowance, est) && BigParts(allowance, est, parts)
    ensures var r := Round(llm, prompt, allowance, est, parts, n).0;
            r.Some? && |r.value| == |parts| && BigParts(allowance, est, r.value)
  {
    RoundStalls(allowance, est, parts);
    hide Greedy, BigParts, Verbose, Ask;
    AskVerbose(llm, n, prompt, Bodies(Greedy(allowance, est, [], parts)), allowance, est);
  }

  /** Rounds need not shrink anything: with such a model the fold pays for every round in full and
      gives up. */
  lemma {:induction false} FoldRunsAway(llm: Llm, prompt: string, allowance: int, est: Estimator, parts: seq<string>,
                                        n: nat, left: nat)
    requires Verbose(llm, allowance, est) && BigParts(allowance, est, parts) && |parts| >= 2
    ensures FoldFrom(llm, prompt, allowance, est, parts, n, left) == (None, left * |parts|)
    decreases left
  {
    hide Round, BigParts, Verbose;
    if left > 0 {
      RoundVerbose(llm, prompt, allowance, est, parts, n);
      var merged := Round(llm, prompt, allowance, est, parts, n);
      FoldRunsAway(llm, prompt, allowance, est, merged.0.value, n + merged.1, left - 1);
      Distribute(|parts|, left - 1, 1);
    }
  }

  /** A model that always answers with `size` letters. */
  function LongWinded(size: nat): Llm {
    (n: nat, prompt: string, body: string) => Reply(Letters(size), 0, 0, false)
  }

  function Letters(size: nat): (s: string)
    ensures |s| == size
  {
    seq(size, i => 'x')
  }

  lemma LettersAnswer(size: nat, n: nat, prompt: string, body: string)
    requires size > 0
    ensures Answer(LongWinded(size), n, prompt, body) == Some(Letters(size))
  {
    var s := Letters(size);
    assert s[0] == 'x' && s[size - 1] == 'x';
    hide Letters;
    TrimSpaceFixed(s);
  }

  /** There is such a model for every allowance: the fold of its first two summaries costs ten calls
      and fails. */
  lemma SomeModelRunsAway(prompt: string, allowance: nat, n: nat)
    ensures var llm, parts := LongWinded(2 * allowance + 1), [Letters(2 * allowance + 1), Letters(2 * allowance + 1)];
            && Verbose(llm, allowance, EstimateTokens) && BigParts(allowance, EstimateTokens, parts)
            && FoldFrom(llm, prompt, allowance, EstimateTokens, parts, n, MAX_FOLD_ROUNDS) == (None, 10)
  {
    var size := 2 * allowance + 1;
    var llm, parts := LongWinded(size), [Letters(size), Letters(size)];
    hide Letters, LongWinded;
    assert 2 * PartCost(EstimateTokens, Letters(size)) > allowance;
    forall i: nat, p: string, body: string
      ensures Answer(llm, i, p, body).Some? && 2 * PartCost(EstimateTokens, Answer(llm, i, p, body).value) > allowance
    {
      LettersAnswer(size, i, p, body);
    }
    FoldRunsAway(llm, prompt, allowance, EstimateTokens, parts, n, MAX_FOLD_ROUNDS);
  }

  /** A whole compaction makes at most six calls per chunk. */
  lemma SummarizeCallBound(llm: Llm, compactPrompt: string, mergePrompt: string, allowance: int, est: Estimator,
                           chunks: seq<string>)
    ensures SummarizeChunks(llm, compactPrompt, mergePrompt, allowance, est, chunks).1
            <= (MAX_FOLD_ROUNDS + 1) * |chunks|
  {
    hide FoldFrom, Ask, ChunkBodies;
    ChunkBodiesCount(chunks);
    var parts := Ask(llm, 0, compactPrompt, ChunkBodies(chunks));
    if parts.0.Some? {
      FoldCallBound(llm, mergePrompt, allowance, est, parts.0.value, parts.1, MAX_FOLD_ROUNDS);
    }
  }

  // ---- nothing is lost on the way ----

  /** What a chunk's call is sent: the chunk itself when it is the only one; otherwise the chunk behind a
      line that says which of how many it is. */
  lemma ChunkBodyMeans(chunks: seq<string>, i: nat)
    requires i < |chunks|
    ensures |ChunkBodies(chunks)| == |chunks|
    ensures var body := ChunkBodies(chunks)[i];
            if |chunks| == 1 then body == chunks[i]
            else
              body == "Part " + Decimal(i + 1) + " of " + Decimal(|chunks|) + " of the earlier transcript.\n\n"
                      + chunks[i]
    ensures Contains(ChunkBodies(chunks)[i], chunks[i])
  {
    var body, c := ChunkBodies(chunks)[i], chunks[i];
    assert body[|body| - |c|..] == c;
    assert OccursAt(body, c, |body| - |c|);
  }

  /** Some call of the log was sent this text with the compact instruction. */
  ghost predicate Asked(log: seq<CallMade>, compactPrompt: string, text: string) {
    exists i | 0 <= i < |log| :: log[i].prompt == compactPrompt && Contains(log[i].body, text)
  }

  /** This message stood in the text of such a call: whole, or with its middle elided when it alone
      exceeds a call. */
  ghost predicate MessageAsked(log: seq<CallMade>, compactPrompt: string, m: Message, allowance: int, est: Estimator) {
    if est(RenderMessage(m)) <= allowance then Asked(log, compactPrompt, RenderMessage(m))
    else exists r :: IsElision(RenderMessage(m), allowance, est, r) && Asked(log, compactPrompt, r)
  }

  lemma MessageMeans(log: seq<CallMade>, compactPrompt: string, m: Message, allowance: int, est: Estimator)
    ensures est(RenderMessage(m)) <= allowance && Asked(log, compactPrompt, RenderMessage(m)) ==>
              MessageAsked(log, compactPrompt, m, allowance, est)
    ensures forall r | est(RenderMessage(m)) > allowance && IsElision(RenderMessage(m), allowance, est, r)
                       && Asked(log, compactPrompt, r) :: MessageAsked(log, compactPrompt, m, allowance, est)
  {
    hide RenderMessage, IsElision, Asked;
  }

  /** A successful summary leaves nothing out. */
  lemma EveryMessageAsked(log: seq<CallMade>, compactPrompt: string, mergePrompt: string, ms: seq<Message>,
                          allowance: int, est: Estimator, chunks: seq<string>, spans: seq<Span>, k: nat)
    requires Called(log, compactPrompt, mergePrompt, chunks) && |log| >= |chunks|
    requires k < |ms| && Cover(ms, allowance, est, chunks, spans, |ms|)
    ensures MessageAsked(log, compactPrompt, ms[k], allowance, est)
  {
    MessageMeans(log, compactPrompt, ms[k], allowance, est);
    hide *;
    var n := SpanOf(ms, allowance, est, chunks, spans, |ms|, k);
    ChunkHolds(ms, allowance, est, spans[n], chunks[n], k);
    ChunkAsked(log, compactPrompt, mergePrompt, chunks, n);
    if est(RenderMessage(ms[k])) <= allowance {
      AskedWithin(log, compactPrompt, chunks[n], RenderMessage(ms[k]));
    } else {
      assert IsElision(RenderMessage(ms[k]), allowance, est, chunks[n]);
    }
  }

  lemma ChunkAsked(log: seq<CallMade>, compactPrompt: string, mergePrompt: string, chunks: seq<string>, n: nat)
    requires Called(log, compactPrompt, mergePrompt, chunks) && n < |chunks| <= |log|
    ensures Asked(log, compactPrompt, chunks[n])
  {
    ChunkBodyMeans(chunks, n);
    hide Contains, ChunkBody;
    assert ChunkBodies(chunks)[n] == ChunkBody(chunks, n);
    assert log[n] == CallMade(compactPrompt, ChunkBody(chunks, n));
  }

  lemma AskedWithin(log: seq<CallMade>, compactPrompt: string, c: string, text: string)
    requires Asked(log, compactPrompt, c) && Contains(c, text)
    ensures Asked(log, compactPrompt, text)
  {
    hide Contains;
    var i :| 0 <= i < |log| && log[i].prompt == compactPrompt && Contains(log[i].body, c);
    ContainsTransitive(log[i].body, c, text);
  }

  /** The chunk that message k is in. */
  lemma {:induction false} SpanOf(ms: seq<Message>, allowance: int, est: Estimator, chunks: seq<string>,
                                  spans: seq<Span>, n: nat, k: nat) returns (i: nat)
    requires Cover(ms, allowance, est, chunks, spans, n) && k < n <= |ms|
    ensures i < |spans| == |chunks| && spans[i].lo <= k < spans[i].hi
    ensures ChunkOf(ms, allowance, est, spans[i], chunks[i])
    decreases |spans|
  {
    var last := |spans| - 1;
    assert ChunkOf(ms, allowance, est, spans[last], chunks[last]);
    if spans[last].lo <= k {
      i := last;
    } else {
      CoverFront(ms, allowance, est, chunks, spans, n);
      hide Cover, ChunkOf;
      i := SpanOf(ms, allowance, est, chunks[..last], spans[..last], spans[last].lo, k);
    }
  }

  lemma CoverFront(ms: seq<Message>, allowance: int, est: Estimator, chunks: seq<string>, spans: seq<Span>, n: nat)
    requires Cover(ms, allowance, est, chunks, spans, n) && spans != []
    ensures |spans| == |chunks|
    ensures var last := |spans| - 1; Cover(ms, allowance, est, chunks[..last], spans[..last], spans[last].lo)
  {
    hide RenderMessage, IsElision, Parts, RenderTranscript;
    var last := |spans| - 1;
    if last == 0 { assert spans[..0] == []; }
    assert forall i | 0 <= i < last :: spans[..last][i] == spans[i] && chunks[..last][i] == chunks[i];
    hide ChunkOf;
  }

  lemma ChunkHolds(ms: seq<Message>, allowance: int, est: Estimator, sp: Span, chunk: string, k: nat)
    requires ChunkOf(ms, allowance, est, sp, chunk) && sp.lo <= k < sp.hi
    ensures k < |ms|
    ensures if est(RenderMessage(ms[k])) > allowance then IsElision(RenderMessage(ms[k]), allowance, est, chunk)
            else Contains(chunk, RenderMessage(ms[k]))
  {
    hide RenderMessage, IsElision, Parts;
    if est(RenderMessage(ms[sp.lo])) <= allowance {
      hide RenderTranscript, Contains;
      TranscriptHolds(ms[sp.lo..sp.hi], k - sp.lo);
      assert ms[sp.lo..sp.hi][k - sp.lo] == ms[k];
    }
  }

  lemma TranscriptHolds(ms: seq<Message>, k: nat)
    requires k < |ms|
    ensures Contains(RenderTranscript(ms), RenderMessage(ms[k]))
  {
    hide RenderMessage, RenderTranscript;
    assert ms == ms[..k] + ms[k..] && ms[k..] == [ms[k]] + ms[k + 1..];
    RenderAppend(ms[..k], ms[k..]);
    RenderAppend([ms[k]], ms[k + 1..]);
    RenderOne(ms[k]);
    var a, m, c := RenderTranscript(ms[..k]), RenderMessage(ms[k]), RenderTranscript(ms[k + 1..]);
    assert RenderTranscript(ms) == a + (m + c);
    Amid(a, m, c);
  }

  lemma RenderOne(m: Message)
    ensures RenderTranscript([m]) == RenderMessage(m)
  {
    assert [m][1..] == [];
    assert RenderMessage(m) + "" == RenderMessage(m);
  }

  lemma Amid(a: string, m: string, c: string)
    ensures Contains(a + (m + c), m)
  {
    assert OccursAt(a + (m + c), m, |a|);
  }

  predicate Tidy(p: string) { p != "" && TrimSpace(p) == p }

  /** A part stands in the labelled list followed by its blank line. */
  lemma {:induction false} LabelledHolds(parts: seq<string>, from: nat, i: nat)
    requires from <= i < |parts|
    ensures Contains(Labelled(parts, from), parts[i] + "\n\n")
    decreases |parts| - from
  {
    var head := "[part " + Decimal(from + 1) + " of " + Decimal(|parts|) + "]\n";
    var rest := Labelled(parts, from + 1);
    var whole := Labelled(parts, from);
    assert whole == head + (parts[from] + "\n\n") + rest;
    if i == from {
      assert OccursAt(whole, parts[i] + "\n\n", |head|);
    } else {
      LabelledHolds(parts, from + 1, i);
      var lo := |whole| - |rest|;
      assert whole[lo..|whole|] == rest;
      ContainsWithin(whole, lo, |whole|, parts[i] + "\n\n");
    }
  }

  /** Trimming takes off white space only, so text that does not end in it survives inside. */
  lemma TrimKeeps(s: string, p: string)
    requires Tidy(p) && Contains(s, p)
    ensures Contains(TrimSpace(s), p)
  {
    var l := TrimLeft(s);
    TrimLeftKeeps(s, p);
    TrimRightKeeps(l, p);
  }

  lemma {:induction false} TrimLeftKeeps(s: string, p: string)
    requires p != "" && !IsSpace(p[0]) && Contains(s, p)
    ensures Contains(TrimLeft(s), p)
  {
    if s != "" && IsSpace(s[0]) {
      var i: nat :| i <= |s| && OccursAt(s, p, i);
      assert s[i + 0] == p[0];
      assert OccursAt(s[1..], p, i - 1);
      TrimLeftKeeps(s[1..], p);
    }
  }

  lemma {:induction false} TrimRightKeeps(s: string, p: string)
    requires p != "" && !IsSpace(p[|p| - 1]) && Contains(s, p)
    ensures Contains(TrimRight(s), p)
    decreases |s|
  {
    if s != "" && IsSpace(s[|s| - 1]) {
      var i: nat :| i <= |s| && OccursAt(s, p, i);
      assert s[i + (|p| - 1)] == p[|p| - 1];
      assert OccursAt(s[..|s| - 1], p, i);
      TrimRightKeeps(s[..|s| - 1], p);
    }
  }

  /** Every partial summary of a group is in the body of the call that merges the group. */
  lemma JoinKeepsEveryPart(parts: seq<string>, i: nat)
    requires i < |parts| && Tidy(parts[i])
    ensures Contains(JoinParts(parts), parts[i])
  {
    if |parts| == 1 {
      assert OccursAt(parts[0], parts[0], 0);
    } else {
      hide Contains, Labelled;
      LabelledHolds(parts, 0, i);
      ContainsFront(Labelled(parts, 0), parts[i], "\n\n");
      TrimKeeps(Labelled(parts, 0), parts[i]);
    }
  }

  lemma ContainsFront(s: string, p: string, q: string)
    requires Contains(s, p + q)
    ensures Contains(s, p)
  {
    var j: nat :| j <= |s| && OccursAt(s, p + q, j);
    assert forall m | 0 <= m < |p| :: p[m] == (p + q)[m];
    assert OccursAt(s, p, j);
  }

  /** So one round's calls between them carry every partial summary. */
  lemma RoundCarriesEveryPart(allowance: int, est: Estimator, parts: seq<string>, i: nat)
    requires i < |parts| && forall j | 0 <= j < |parts| :: Tidy(parts[j])
    ensures var bodies := Bodies(Greedy(allowance, est, [], parts));
            exists g | 0 <= g < |bodies| :: Contains(bodies[g], parts[i])
  {
    hide *;
    var gs := Greedy(allowance, est, [], parts);
    GreedyFlattens(allowance, est, parts);
    var g, k := FlattenFind(gs, i);
    JoinKeepsEveryPart(gs[g], k);
    BodyAt(gs, g);
  }

  lemma GreedyFlattens(allowance: int, est: Estimator, parts: seq<string>)
    ensures Flatten(Greedy(allowance, est, [], parts)) == parts
  {
    assert [] + parts == parts;
    GreedyValid(allowance, est, [], parts);
  }

  lemma BodyAt(groups: seq<seq<string>>, g: nat)
    requires g < |groups|
    ensures |Bodies(groups)| == |groups| && Bodies(groups)[g] == JoinParts(groups[g])
  {}

  lemma {:induction false} FlattenFind(gs: seq<seq<string>>, i: nat) returns (g: nat, k: nat)
    requires i < |Flatten(gs)|
    ensures g < |gs| && k < |gs[g]| && gs[g][k] == Flatten(gs)[i]
    decreases |gs|
  {
    if i < |gs[0]| {
      g, k := 0, i;
    } else {
      g, k := FlattenFind(gs[1..], i - |gs[0]|);
      g := g + 1;
    }
  }
}
