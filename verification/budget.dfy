/** budget.go: trimming one turn's request to a token budget. */
module Budget {
  import opened Text
  import opened Messages

  /** Go's integer division, which truncates toward zero. */
  function Quot(a: int, b: int): int
    requires b > 0
  {
    if a >= 0 then a / b else -((-a) / b)
  }

  const MIN_DEFAULT_RESERVE := 512
  const MAX_DEFAULT_RESERVE := 4096

  datatype ContextBudget = ContextBudget(maxTokens: int, reserve: int, estimate: Option<Estimator>) {

    predicate Enabled() { maxTokens > 0 }

    function Reserve(): int {
      if reserve > 0 then reserve
      else
        var eighth := Quot(maxTokens, 8);
        var floored := if eighth < MIN_DEFAULT_RESERVE then MIN_DEFAULT_RESERVE else eighth;
        var r := if floored > MAX_DEFAULT_RESERVE then MAX_DEFAULT_RESERVE else floored;
        if r > Quot(maxTokens, 2) then Quot(maxTokens, 2) else r
    }

    function Allowance(): int { maxTokens - Reserve() }

    function Est(): Estimator {
      match estimate case Some(e) => e case None => EstimateTokens
    }

    function CompletionCap(): Option<int> {
      if Enabled() then Some(Reserve()) else None
    }
  }

  datatype Fit = Fit(messages: seq<Message>, dropped: int, tokens: int, over: bool)

  /** The text that stands in for n dropped messages (its dash is three bytes of UTF-8). */
  function DropMarker(n: nat): string { "[" + Decimal(n) + MarkerTail() }

  function MarkerTail(): string {
    " earlier messages in this session were dropped to fit the context window. They are gone "
    + "\U{E2}\U{80}\U{94}" + " do not assume what they contained.]"
  }

  lemma MarkerMonotone(a: nat, b: nat)
    requires a <= b
    ensures |DropMarker(a)| <= |DropMarker(b)|
  {
    hide MarkerTail, Decimal;
    DecimalMonotone(a, b);
  }

  // ---- the specification ----

  /** What survives no matter what, with the marker charged as if all messages were dropped. */
  function Floor(est: Estimator, ms: seq<Message>): nat
    requires |ms| >= 2
  {
    Cost(est, ms[0]) + Cost(est, ms[|ms| - 1]) + est(DropMarker(|ms|)) + FRAME_TOKENS
  }

  /** The charge for keeping the messages from k on. */
  function Charge(est: Estimator, ms: seq<Message>, k: int): nat
    requires |ms| >= 3 && 1 <= k < |ms|
  {
    Floor(est, ms) + Total(est, ms[k..|ms| - 1])
  }

  /** Walk back from k while one more message fits. */
  function WalkBack(est: Estimator, allowance: int, ms: seq<Message>, k: nat): (c: nat)
    requires |ms| >= 3 && 1 <= k < |ms|
    ensures 1 <= c <= k
    decreases k
  {
    if k > 1 && Charge(est, ms, k - 1) <= allowance then WalkBack(est, allowance, ms, k - 1) else k
  }

  /** Step forward past execution results, at most to the last message. */
  function SkipResults(ms: seq<Message>, k: nat): (c: nat)
    requires k < |ms|
    ensures k <= c < |ms|
    ensures c < |ms| - 1 ==> !IsExecutionResult(ms[c])
    ensures forall i | k <= i < c :: IsExecutionResult(ms[i])
    decreases |ms| - k
  {
    if k < |ms| - 1 && IsExecutionResult(ms[k]) then SkipResults(ms, k + 1) else k
  }

  function Cut(est: Estimator, allowance: int, ms: seq<Message>): (c: nat)
    requires |ms| >= 3
    ensures 1 <= c < |ms|
  {
    SkipResults(ms, WalkBack(est, allowance, ms, |ms| - 1))
  }

  function Trimmed(ms: seq<Message>, k: nat): seq<Message>
    requires 1 <= k < |ms|
  {
    [ms[0], Message("user", DropMarker(k - 1))] + ms[k..]
  }

  function FitSpec(b: ContextBudget, ms: seq<Message>): Fit
    requires b.Enabled() ==> |ms| >= 1
  {
    var est := b.Est();
    if !b.Enabled() then Fit(ms, 0, 0, false)
    else if |ms| < 3 then
      var used := if |ms| == 1 then Cost(est, ms[0]) else Cost(est, ms[0]) + Cost(est, ms[1]);
      Fit(ms, 0, used, used > b.Allowance())
    else
      var k := Cut(est, b.Allowance(), ms);
      var charge := Charge(est, ms, k);
      if k <= 1 then Fit(ms, 0, charge - est(DropMarker(|ms|)) - FRAME_TOKENS, false)
      else Fit(Trimmed(ms, k), k - 1, charge, charge > b.Allowance())
  }

  // ---- the loops ----

  lemma ChargeStep(est: Estimator, ms: seq<Message>, k: nat)
    requires |ms| >= 3 && 1 <= k < |ms| - 1
    ensures Charge(est, ms, k) == Charge(est, ms, k + 1) + Cost(est, ms[k])
  {
    hide DropMarker;
    assert ms[k..|ms| - 1][1..] == ms[k + 1..|ms| - 1];
  }

  lemma ChargeLast(est: Estimator, ms: seq<Message>)
    requires |ms| >= 3
    ensures Charge(est, ms, |ms| - 1) == Floor(est, ms)
  {
    hide DropMarker;
    assert ms[|ms| - 1..|ms| - 1] == [];
  }

  lemma WalkBackStep(est: Estimator, allowance: int, ms: seq<Message>, k: nat)
    requires |ms| >= 3 && 1 <= k < |ms|
    ensures WalkBack(est, allowance, ms, k) ==
            if k > 1 && Charge(est, ms, k - 1) <= allowance then WalkBack(est, allowance, ms, k - 1) else k
  {}

  lemma SkipStep(ms: seq<Message>, k: nat)
    requires k < |ms|
    ensures SkipResults(ms, k) == if k < |ms| - 1 && IsExecutionResult(ms[k]) then SkipResults(ms, k + 1) else k
  {}

  method FitMessages(b: ContextBudget, messages: seq<Message>) returns (r: Fit)
    requires b.Enabled() ==> |messages| >= 1
    ensures r == FitSpec(b, messages)
  {
    hide DropMarker, Total, WalkBack, SkipResults;
    if !b.Enabled() { return Fit(messages, 0, 0, false); }
    var est, allowance := b.Est(), b.Allowance();
    var last := |messages| - 1;
    var used := Cost(est, messages[0]);
    if last > 0 { used := used + Cost(est, messages[last]); }
    if |messages| < 3 { return Fit(messages, 0, used, used > allowance); }
    used := used + est(DropMarker(|messages|)) + FRAME_TOKENS;
    ChargeLast(est, messages);
    hide Charge;

    var keepFrom := last;
    var i := last - 1;
    while i >= 1
      invariant 0 <= i < last && keepFrom == i + 1
      invariant used == Charge(est, messages, keepFrom)
      invariant WalkBack(est, allowance, messages, last) == WalkBack(est, allowance, messages, keepFrom)
    {
      var c := Cost(est, messages[i]);
      ChargeStep(est, messages, i);
      WalkBackStep(est, allowance, messages, i + 1);
      if used + c > allowance { break; }
      used := used + c;
      keepFrom := i;
      i := i - 1;
    }

    WalkBackStep(est, allowance, messages, keepFrom);
    keepFrom, used := SkipForward(est, messages, keepFrom, used);
    if keepFrom <= 1 {
      return Fit(messages, 0, used - est(DropMarker(|messages|)) - FRAME_TOKENS, false);
    }
    var dropped := keepFrom - 1;
    var out := [messages[0]];
    out := out + [Message("user", DropMarker(dropped))];
    out := out + messages[keepFrom..];
    return Fit(out, dropped, used, used > allowance);
  }

  /** The second loop: drop the execution results the cut would open with. */
  method SkipForward(est: Estimator, messages: seq<Message>, from: nat, charged: int) returns (keepFrom: nat, used: int)
    requires |messages| >= 3 && 1 <= from < |messages| && charged == Charge(est, messages, from)
    ensures keepFrom == SkipResults(messages, from) && used == Charge(est, messages, keepFrom)
  {
    hide SkipResults, Charge;
    var last := |messages| - 1;
    keepFrom, used := from, charged;
    while keepFrom < last && IsExecutionResult(messages[keepFrom])
      invariant 1 <= keepFrom <= last
      invariant used == Charge(est, messages, keepFrom)
      invariant SkipResults(messages, from) == SkipResults(messages, keepFrom)
      decreases last - keepFrom
    {
      ChargeStep(est, messages, keepFrom);
      SkipStep(messages, keepFrom);
      used := used - Cost(est, messages[keepFrom]);
      keepFrom := keepFrom + 1;
    }
    SkipStep(messages, keepFrom);
  }

  // ---- what the trim guarantees ----

  lemma {:induction false} WalkBackEarliest(est: Estimator, allowance: int, ms: seq<Message>, k: nat)
    requires |ms| >= 3 && 1 <= k < |ms|
    ensures var c := WalkBack(est, allowance, ms, k);
            && (c < k ==> Charge(est, ms, c) <= allowance)
            && forall j | 1 <= j < c :: Charge(est, ms, j) > allowance
    decreases k
  {
    hide Charge;
    if k > 1 {
      if Charge(est, ms, k - 1) <= allowance {
        WalkBackEarliest(est, allowance, ms, k - 1);
      } else {
        forall j | 1 <= j < k ensures Charge(est, ms, j) > allowance {
          ChargeGrows(est, ms, j, k - 1);
        }
      }
    }
  }

  lemma {:induction false} ChargeGrows(est: Estimator, ms: seq<Message>, j: nat, k: nat)
    requires |ms| >= 3 && 1 <= j <= k < |ms|
    ensures Charge(est, ms, j) >= Charge(est, ms, k)
    decreases k - j
  {
    hide Charge;
    if j < k {
      ChargeStep(est, ms, j);
      ChargeGrows(est, ms, j + 1, k);
    }
  }

  lemma TotalOfEnds(est: Estimator, ms: seq<Message>)
    requires |ms| >= 2
    ensures Total(est, ms) == Cost(est, ms[0]) + Total(est, ms[1..|ms| - 1]) + Cost(est, ms[|ms| - 1])
  {
    var mid, last := ms[1..|ms| - 1], ms[|ms| - 1];
    assert Total(est, ms) == Cost(est, ms[0]) + Total(est, ms[1..]);
    TotalOne(est, last);
    hide Total, Cost;
    assert ms[1..] == mid + [last];
    TotalAppend(est, mid, [last]);
  }

  lemma TotalOne(est: Estimator, m: Message)
    ensures Total(est, [m]) == Cost(est, m)
  {
    assert [m][1..] == [];
  }

  lemma TotalOfTrimmed(est: Estimator, ms: seq<Message>, k: nat)
    requires |ms| >= 3 && 1 <= k < |ms|
    ensures Total(est, Trimmed(ms, k)) ==
            Charge(est, ms, k) - est(DropMarker(|ms|)) + est(DropMarker(k - 1))
  {
    hide DropMarker;
    var last := ms[|ms| - 1];
    var marker := Message("user", DropMarker(k - 1));
    assert ms[k..] == ms[k..|ms| - 1] + [last];
    TotalAppend(est, ms[k..|ms| - 1], [last]);
    assert [last][1..] == [];
    var t := Trimmed(ms, k);
    assert t[1..] == [marker] + ms[k..] && t[1..][1..] == ms[k..];
  }

  /** Sound: the request really costs at most what is reported, so unless the fit says Over, the
      prompt and the completion cap together stay within the window. */
  lemma FitSound(b: ContextBudget, ms: seq<Message>)
    requires b.Enabled() && |ms| >= 1 && Monotone(b.Est())
    ensures var r := FitSpec(b, ms);
            && Total(b.Est(), r.messages) <= r.tokens
            && (r.over <==> r.tokens > b.Allowance())
            && (!r.over ==> Total(b.Est(), r.messages) + b.CompletionCap().value <= b.maxTokens)
  {
    hide DropMarker, Charge, Total, Trimmed, Monotone, EstimateTokens;
    var est := b.Est();
    if |ms| < 3 {
      TotalOfFew(est, ms);
    } else {
      var last := |ms| - 1;
      var w := WalkBack(est, b.Allowance(), ms, last);
      var k := Cut(est, b.Allowance(), ms);
      WalkBackEarliest(est, b.Allowance(), ms, last);
      if k <= 1 {
        TotalUntrimmed(est, ms);
      } else {
        TotalOfTrimmed(est, ms, k);
        MarkerMonotone(k - 1, |ms|);
        MonotoneAt(est, DropMarker(k - 1), DropMarker(|ms|));
      }
    }
  }

  lemma TotalOfFew(est: Estimator, ms: seq<Message>)
    requires 1 <= |ms| < 3
    ensures Total(est, ms) == Cost(est, ms[0]) + if |ms| == 1 then 0 else Cost(est, ms[1])
  {
    assert ms[1..] == if |ms| == 1 then [] else [ms[1]];
    assert [ms[|ms| - 1]][1..] == [];
  }

  lemma TotalUntrimmed(est: Estimator, ms: seq<Message>)
    requires |ms| >= 3
    ensures Total(est, ms) == Charge(est, ms, 1) - est(DropMarker(|ms|)) - FRAME_TOKENS
  {
    hide DropMarker;
    TotalOfEnds(est, ms);
  }

  /** Tight: what is kept is the earliest suffix that fits with the marker charged, moved past
      execution results; the system prompt and the last message always survive. */
  lemma FitTight(b: ContextBudget, ms: seq<Message>)
    requires b.Enabled() && |ms| >= 3
    ensures var est, a, r := b.Est(), b.Allowance(), FitSpec(b, ms);
            var cut := r.dropped + 1;
            && 1 <= cut < |ms|
            && r.messages == (if r.dropped == 0 then ms else Trimmed(ms, cut))
            && (cut < |ms| - 1 ==> !IsExecutionResult(ms[cut]))
            && (exists k | 1 <= k <= cut ::
                  && (k < |ms| - 1 ==> Charge(est, ms, k) <= a)
                  && (forall j | 1 <= j < k :: Charge(est, ms, j) > a)
                  && (forall i | k <= i < cut :: IsExecutionResult(ms[i])))
  {
    hide DropMarker, Charge, Trimmed;
    WalkBackEarliest(b.Est(), b.Allowance(), ms, |ms| - 1);
    var k := WalkBack(b.Est(), b.Allowance(), ms, |ms| - 1);
    assert k < |ms| - 1 ==> Charge(b.Est(), ms, k) <= b.Allowance();
  }

  /** Over is reported exactly when even the system prompt, the marker and the last message are too
      much, and then nothing else is left to drop. */
  lemma FitOverIff(b: ContextBudget, ms: seq<Message>)
    requires b.Enabled() && |ms| >= 3
    ensures var r := FitSpec(b, ms);
            && (r.over <==> Floor(b.Est(), ms) > b.Allowance())
            && (r.over ==> r.messages == Trimmed(ms, |ms| - 1))
  {
    hide DropMarker, Charge, Trimmed;
    var est, a, last := b.Est(), b.Allowance(), |ms| - 1;
    WalkBackEarliest(est, a, ms, last);
    ChargeLast(est, ms);
    var w := WalkBack(est, a, ms, last);
    ChargeGrows(est, ms, w, last);
    var k := Cut(est, a, ms);
    ChargeGrows(est, ms, w, k);
  }

  /** Nothing is dropped exactly when everything fits with the marker charged and the
      conversation does not open with an execution result. */
  lemma FitUntouchedIff(b: ContextBudget, ms: seq<Message>)
    requires b.Enabled() && |ms| >= 3
    ensures FitSpec(b, ms).dropped == 0 <==>
            Charge(b.Est(), ms, 1) <= b.Allowance() && !IsExecutionResult(ms[1])
  {
    hide DropMarker, Charge, Trimmed;
    WalkBackEarliest(b.Est(), b.Allowance(), ms, |ms| - 1);
  }

  /** A request keeps its first and its last message. It goes out as it is if nothing was dropped; otherwise
      a marker with the count stands second, before the latest messages in their order. */
  predicate Sent(ms: seq<Message>, r: Fit) {
    && (ms != [] ==>
          r.messages != [] && r.messages[0] == ms[0] && r.messages[|r.messages| - 1] == ms[|ms| - 1])
    && 0 <= r.dropped
    && (r.dropped == 0 ==> r.messages == ms)
    && (r.dropped > 0 ==>
          && |r.messages| == |ms| - r.dropped + 1 && 2 < |r.messages| <= |ms|
          && r.messages[2..] == ms[|ms| - |r.messages| + 2..]
          && r.messages[1] == Message("user", Dropped(r.dropped)))
  }

  /** Nothing is dropped from fewer than three messages, nor by a disabled budget, which reports no tokens and
      never Over. A request that is sent as it is costs what is reported. */
  predicate Reported(b: ContextBudget, ms: seq<Message>, r: Fit) {
    && (!b.Enabled() ==> r == Fit(ms, 0, 0, false))
    && (|ms| < 3 ==> r.dropped == 0)
    && (b.Enabled() && r.dropped == 0 ==> r.tokens == Total(b.Est(), ms))
    && (b.Enabled() && |ms| == 1 ==> r.tokens == b.Est()(ms[0].content) + 4)
  }

  /** Both hold of every budget and every request. */
  lemma FitKeeps(b: ContextBudget, ms: seq<Message>)
    requires b.Enabled() ==> |ms| >= 1
    ensures Sent(ms, FitSpec(b, ms)) && Reported(b, ms, FitSpec(b, ms))
  {
    hide *;
    FitFew(b, ms);
    var r := FitSpec(b, ms);
    if b.Enabled() && |ms| >= 3 {
      FitMany(b, ms);
      SentMany(ms, r);
      ReportedMany(b, ms, r);
    } else {
      SentAll(ms, r);
    }
  }

  lemma SentAll(ms: seq<Message>, r: Fit)
    requires r.messages == ms && r.dropped == 0
    ensures Sent(ms, r)
  {}

  lemma SentMany(ms: seq<Message>, r: Fit)
    requires 0 <= r.dropped < |ms| - 1
    requires r.messages == (if r.dropped == 0 then ms else Trimmed(ms, r.dropped + 1))
    ensures Sent(ms, r)
  {
    hide Trimmed, Dropped;
    if r.dropped > 0 { TrimmedParts(ms, r.dropped + 1); }
  }

  lemma ReportedMany(b: ContextBudget, ms: seq<Message>, r: Fit)
    requires b.Enabled() && |ms| >= 3 && (r.dropped == 0 ==> r.tokens == Total(b.Est(), ms))
    ensures Reported(b, ms, r)
  {
    hide Total, ContextBudget.Est;
  }

  lemma FitFew(b: ContextBudget, ms: seq<Message>)
    requires b.Enabled() ==> |ms| >= 1
    ensures var r := FitSpec(b, ms);
            !b.Enabled() || |ms| < 3 ==> r.messages == ms && r.dropped == 0 && Reported(b, ms, r)
  {
    hide Total, EstimateTokens, Charge, Cut, Trimmed, DropMarker, Floor,
         ContextBudget.Reserve, ContextBudget.Est, ContextBudget.Allowance;
    if b.Enabled() && |ms| < 3 { TotalOfFew(b.Est(), ms); }
  }

  lemma FitMany(b: ContextBudget, ms: seq<Message>)
    requires b.Enabled() && |ms| >= 3
    ensures var r := FitSpec(b, ms);
            && 0 <= r.dropped < |ms| - 1
            && r.messages == (if r.dropped == 0 then ms else Trimmed(ms, r.dropped + 1))
            && (r.dropped == 0 ==> r.tokens == Total(b.Est(), ms))
  {
    hide Total, EstimateTokens, Charge, Trimmed, DropMarker, WalkBack, SkipResults, IsExecutionResult, Floor, Cost,
         ContextBudget.Reserve, ContextBudget.Est, ContextBudget.Allowance;
    TotalUntrimmed(b.Est(), ms);
    CutBound(b.Est(), b.Allowance(), ms);
    hide Cut;
  }

  lemma CutBound(est: Estimator, allowance: int, ms: seq<Message>)
    requires |ms| >= 3
    ensures 1 <= Cut(est, allowance, ms) < |ms|
  {}

  /** The words of the marker. */
  function Dropped(n: nat): string {
    "[" + Decimal(n)
    + " earlier messages in this session were dropped to fit the context window. They are gone "
    + "\U{E2}\U{80}\U{94}" + " do not assume what they contained.]"
  }

  lemma TrimmedParts(ms: seq<Message>, k: nat)
    requires 1 < k < |ms|
    ensures var out := Trimmed(ms, k);
            && |out| == |ms| - k + 2 && out[0] == ms[0] && out[|out| - 1] == ms[|ms| - 1]
            && out[2..] == ms[|ms| - |out| + 2..] && out[1] == Message("user", Dropped(k - 1))
  {
    hide Decimal;
    var out := Trimmed(ms, k);
    assert out[2..] == ms[k..];
    MarkerWords("[" + Decimal(k - 1));
  }

  lemma MarkerWords(s: string)
    ensures s + MarkerTail() ==
            s + " earlier messages in this session were dropped to fit the context window. They are gone "
            + "\U{E2}\U{80}\U{94}" + " do not assume what they contained.]"
  {}

  /** An explicit reserve is honoured as it is; the default is an eighth of the window within 512 and 4096
      tokens, and at most half the window. It is the cap on the completion, and prompt and completion share
      the window. */
  lemma ReserveHonoured(b: ContextBudget)
    requires b.Enabled()
    ensures b.CompletionCap().Some? && b.Allowance() + b.CompletionCap().value == b.maxTokens
    ensures var cap := b.CompletionCap().value;
            && (b.reserve > 0 ==> cap == b.reserve)
            && (b.reserve <= 0 ==>
                  && 2 * cap <= b.maxTokens && cap <= 4096
                  && (2 * cap < b.maxTokens - 1 ==> cap >= 512)
                  && (512 < cap < 4096 && 2 * cap < b.maxTokens - 1 ==> 8 * cap <= b.maxTokens < 8 * cap + 8))
  {}
}
