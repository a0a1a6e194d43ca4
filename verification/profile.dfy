/** profile.go: every context limit, derived from one context window. */
module Profiles {
  import opened Text
  import opened Messages
  import opened Budget

  const AVG_MESSAGE_TOKENS := 250
  const MIN_TRIGGER := 12
  const MAX_TRIGGER := 60
  const MIN_HISTORY := 24
  const MAX_HISTORY := 200
  const MIN_STANDING := 1024
  const DEFAULT_MAX_LOG_BYTES := 16 * 1024
  const DEFAULT_PROJECT_INLINE_BYTES := 4 * 1024

  function Clamp(v: int, lo: int, hi: int): int {
    if v < lo then lo else if v > hi then hi else v
  }

  datatype Profile = Profile(
    budget: ContextBudget, historyWindow: int, compactTrigger: int, compactKeep: int,
    summarizeBudget: ContextBudget, maxLogBytes: int, projectInlineBytes: int)

  const DISABLED := ContextBudget(0, 0, None)

  function ProfileFor(window: int): Profile {
    if window <= 0 then Profile(DISABLED, 0, 0, 0, DISABLED, 0, 0)
    else
      var budget := ContextBudget(window, 0, None);
      var allowance := budget.Allowance();
      var trigger := Clamp(Quot(allowance, AVG_MESSAGE_TOKENS), MIN_TRIGGER, MAX_TRIGGER);
      var third := Quot(trigger, 3);
      var standing := Quot(allowance, 8) * 4;
      Profile(budget,
              Clamp(trigger * 3, MIN_HISTORY, MAX_HISTORY),
              trigger,
              if third < 4 then 4 else third,
              budget,
              Clamp(standing, MIN_STANDING, DEFAULT_MAX_LOG_BYTES),
              Clamp(standing, MIN_STANDING, DEFAULT_PROJECT_INLINE_BYTES))
  }

  /** What a Profile's settings do to the loop's configuration. A compactor the loop does not own
      is not configured. */
  datatype CompactorConfig =
    | Summarizing(trigger: int, keep: int, budget: ContextBudget)
    | OtherCompactor
    | NoCompactor

  class Config {
    var budget: ContextBudget
    var historyWindow: int
    var compactor: CompactorConfig

    constructor (budget: ContextBudget, historyWindow: int, compactor: CompactorConfig)
      ensures this.budget == budget && this.historyWindow == historyWindow && this.compactor == compactor
    {
      this.budget, this.historyWindow, this.compactor := budget, historyWindow, compactor;
    }
  }

  method Apply(p: Profile, cfg: Config?)
    modifies cfg
    ensures cfg != null && !p.budget.Enabled() ==>
              cfg.budget == old(cfg.budget) && cfg.historyWindow == old(cfg.historyWindow)
                  && cfg.compactor == old(cfg.compactor)
    ensures cfg != null && p.budget.Enabled() ==>
              && cfg.budget == p.budget && cfg.historyWindow == p.historyWindow
              && cfg.compactor == (if old(cfg.compactor).Summarizing?
                                   then Summarizing(p.compactTrigger, p.compactKeep, p.summarizeBudget)
                                   else old(cfg.compactor))
  {
    if cfg == null || p.budget.maxTokens <= 0 { return; }
    cfg.budget := p.budget;
    cfg.historyWindow := p.historyWindow;
    if cfg.compactor.Summarizing? {
      cfg.compactor := Summarizing(p.compactTrigger, p.compactKeep, p.summarizeBudget);
    }
  }

  /** For every window the settings fit together: the loop accepts the budget, a compaction always
      shrinks the history, and the history window can hold enough to trigger one. */
  lemma ProfileConsistent(w: int)
    requires w > 0
    ensures var p := ProfileFor(w);
            && p.budget.Enabled() && p.budget.Allowance() > 0
            && 0 < p.compactKeep && p.compactKeep + 2 <= p.compactTrigger <= p.historyWindow
            && p.historyWindow == 3 * p.compactTrigger
            && p.budget == ContextBudget(w, 0, None) == p.summarizeBudget
  {
    AllowanceBounds(w);
  }

  /** Each limit is the largest of its kind: as many messages of 250 tokens as the allowance holds, a third
      of them kept, an eighth of the allowance in bytes of four to the token, unless its floor or ceiling
      says otherwise. */
  lemma ProfileTight(w: int)
    requires w > 0
    ensures var p := ProfileFor(w);
            var a := p.budget.Allowance();
            && 12 <= p.compactTrigger <= 60 && 4 <= p.compactKeep
            && (p.compactTrigger > 12 ==> 250 * p.compactTrigger <= a)
            && (p.compactTrigger < 60 ==> a < 250 * (p.compactTrigger + 1))
            && (p.compactKeep > 4 ==> 3 * p.compactKeep <= p.compactTrigger)
            && p.compactTrigger < 3 * (p.compactKeep + 1)
            && 1024 <= p.projectInlineBytes <= 4096 && p.projectInlineBytes <= p.maxLogBytes <= 16384
            && (p.maxLogBytes > 1024 ==> 2 * p.maxLogBytes <= a)
            && (p.maxLogBytes < 16384 ==> a < 2 * (p.maxLogBytes + 8))
            && (p.projectInlineBytes < 4096 ==> p.projectInlineBytes == p.maxLogBytes)
  {
    AllowanceBounds(w);
  }

  lemma HistoryBounded(w: int)
    requires w > 0
    ensures MIN_HISTORY <= ProfileFor(w).historyWindow <= MAX_HISTORY
  {}

  lemma TriggerHalved(w: int)
    requires w > 0
    ensures var p := ProfileFor(w); 2 * (p.compactTrigger - p.compactKeep - 1) >= p.compactTrigger
  {}

  lemma AllowanceBounds(w: int)
    requires w > 0
    ensures var a := ContextBudget(w, 0, None).Allowance(); 0 < a <= w && 2 * a >= w
  {}

  /** A larger window never derives a smaller limit. */
  lemma {:induction false} ProfileMonotone(v: int, w: int)
    requires 0 < v <= w
    ensures var p, q := ProfileFor(v), ProfileFor(w);
            && p.budget.Allowance() <= q.budget.Allowance()
            && p.budget.Reserve() <= q.budget.Reserve()
            && p.compactTrigger <= q.compactTrigger && p.compactKeep <= q.compactKeep
            && p.historyWindow <= q.historyWindow
            && p.maxLogBytes <= q.maxLogBytes && p.projectInlineBytes <= q.projectInlineBytes
    decreases w - v
  {
    if v < w {
      ProfileStep(v);
      ProfileMonotone(v + 1, w);
    }
  }

  lemma ProfileStep(v: int)
    requires 0 < v
    ensures var p, q := ProfileFor(v), ProfileFor(v + 1);
            && p.budget.Allowance() <= q.budget.Allowance()
            && p.budget.Reserve() <= q.budget.Reserve()
            && p.compactTrigger <= q.compactTrigger && p.compactKeep <= q.compactKeep
            && p.historyWindow <= q.historyWindow
            && p.maxLogBytes <= q.maxLogBytes && p.projectInlineBytes <= q.projectInlineBytes
  {
    var a, b := ContextBudget(v, 0, None), ContextBudget(v + 1, 0, None);
    assert a.Reserve() <= b.Reserve() <= a.Reserve() + 1;
    assert 0 <= a.Allowance() <= b.Allowance();
    assert a.Allowance() / AVG_MESSAGE_TOKENS <= b.Allowance() / AVG_MESSAGE_TOKENS;
    assert a.Allowance() / 8 <= b.Allowance() / 8;
    assert ProfileFor(v).compactTrigger / 3 <= ProfileFor(v + 1).compactTrigger / 3;
  }

  /** One turn's logs stay within half the prompt exactly when the allowance is at least 512 tokens:
      below that the 1024-byte floor is the larger share. */
  lemma LogsLeaveRoomIff(w: int)
    requires w > 0
    ensures var p := ProfileFor(w);
            2 * ((p.maxLogBytes + 3) / 4) <= p.budget.Allowance() <==> p.budget.Allowance() >= 512
  {
    AllowanceBounds(w);
  }
}
