/** Chat messages (llm/client.go), the execution-result label (compact.go) and token estimates (budget.go). */
module Messages {
  import opened Text

  datatype Message = Message(role: string, content: string)

  const RESULT_PREFIX := "Execution result:"

  predicate IsExecutionResult(m: Message) {
    m.role == "user" && RESULT_PREFIX <= m.content
  }

  /** The label, in words. */
  lemma ResultIff(m: Message)
    ensures IsExecutionResult(m) <==> m.role == "user" && "Execution result:" <= m.content
  {}

  const FRAME_TOKENS := 4

  type Estimator = string -> nat

  function EstimateTokens(s: string): nat { if s == "" then 0 else (|s| + 3) / 4 }

  /** A longer text is never estimated cheaper. */
  ghost predicate Monotone(est: Estimator) {
    forall a: string, b: string :: |a| <= |b| ==> est(a) <= est(b)
  }

  lemma MonotoneAt(est: Estimator, a: string, b: string)
    requires Monotone(est) && |a| <= |b|
    ensures est(a) <= est(b)
  {}

  /** Two texts together never cost more than they do apart. */
  ghost predicate Subadditive(est: Estimator) {
    forall a: string, b: string :: est(a + b) <= est(a) + est(b)
  }

  /** The default estimator has both properties, and takes a token for every four bytes, rounded up. */
  lemma EstimateTokensBehaves()
    ensures Monotone(EstimateTokens) && Subadditive(EstimateTokens)
    ensures forall s: string :: 4 * EstimateTokens(s) - 4 < |s| <= 4 * EstimateTokens(s)
  {
    forall a: string, b: string ensures EstimateTokens(a + b) <= EstimateTokens(a) + EstimateTokens(b) {
      assert |a + b| == |a| + |b|;
    }
  }

  function Cost(est: Estimator, m: Message): nat { est(m.content) + FRAME_TOKENS }

  function Total(est: Estimator, ms: seq<Message>): nat {
    if ms == [] then 0 else Cost(est, ms[0]) + Total(est, ms[1..])
  }

  lemma {:induction false} TotalAppend(est: Estimator, a: seq<Message>, b: seq<Message>)
    ensures Total(est, a + b) == Total(est, a) + Total(est, b)
  {
    if a == [] {
      assert a + b == b;
    } else {
      assert (a + b)[1..] == a[1..] + b;
      TotalAppend(est, a[1..], b);
    }
  }
}
