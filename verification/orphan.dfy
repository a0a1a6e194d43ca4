/** No execution result without its script: what compaction may count on in the histories Runs leave
    (run.go, history.go, compact.go). */
module Orphan {
  import opened Text
  import opened Messages
  import opened Compact
  import Summarize
  import opened Store
  import opened History
  import opened Run
  import opened Trace
  import opened Session
  import opened Conversation
  import opened Checkpoints

  /** Every result row directly follows its script's row. */
  predicate Paired(rows: seq<RunStep>) {
    forall i | 0 <= i < |rows| :: rows[i].kind == ExecuteJsResult ==> i > 0 && rows[i - 1].kind == ExecuteJs
  }

  /** The same once a window has cut the front off. */
  predicate PairedAfterFirst(rows: seq<RunStep>) {
    forall i | 0 < i < |rows| :: rows[i].kind == ExecuteJsResult ==> rows[i - 1].kind == ExecuteJs
  }

  /** No user message or checkpoint reads like an execution result. */
  predicate Unmistakable(rows: seq<RunStep>) {
    forall i | 0 <= i < |rows| ::
      rows[i].kind == User || rows[i].kind == Summary ==> !(RESULT_PREFIX <= rows[i].content)
  }

  /** A row the model will read as an execution result. */
  predicate ReadsAsResult(step: RunStep) { StepToTurn(step).Some? && IsExecutionResult(StepToTurn(step).value) }

  /** Rows i and j are both replayed, read as results, and nothing between them is replayed. */
  predicate Adjoin(rows: seq<RunStep>, from: Option<int>, i: nat, j: nat) {
    && i < j < |rows| && Kept(rows[i], from) && Kept(rows[j], from)
    && ReadsAsResult(rows[i]) && ReadsAsResult(rows[j])
    && forall k | i < k < j :: !Kept(rows[k], from)
  }

  /** No two results in a row among the entries from number `after` on. */
  predicate Apart(es: seq<Entry>, after: nat) {
    forall t | after < t < |es| :: !(IsExecutionResult(es[t - 1].msg) && IsExecutionResult(es[t].msg))
  }

  /** No two rows adjoin, but for a first one with fewer than `after` replayed rows before it. */
  ghost predicate RowsApart(rows: seq<RunStep>, from: Option<int>, after: nat) {
    forall i: nat, j: nat | Adjoin(rows, from, i, j) :: |Replay(rows[..i], from)| < after
  }

  /** The last replayed row, if any. */
  lemma {:induction false} LastKept(rows: seq<RunStep>, from: Option<int>) returns (i: nat)
    requires Replay(rows, from) != []
    ensures var es := Replay(rows, from);
            && i < |rows| && Kept(rows[i], from) && (forall k | i < k < |rows| :: !Kept(rows[k], from))
            && |Replay(rows[..i], from)| == |es| - 1 && es[|es| - 1].msg == StepToTurn(rows[i]).value
  {
    hide StepToTurn, Replay;
    if rows == [] { ReplayNothing(from); }
    var n := |rows| - 1;
    assert rows == rows[..n] + [rows[n]];
    ReplaySnoc(rows[..n], rows[n], from);
    if Kept(rows[n], from) {
      i := n;
    } else {
      i := LastKept(rows[..n], from);
      assert rows[..n][..i] == rows[..i];
    }
  }

  /** Two results stand in a row among the entries exactly when two rows adjoin. */
  lemma {:induction false} ApartIff(rows: seq<RunStep>, from: Option<int>, after: nat)
    ensures Apart(Replay(rows, from), after) <==> RowsApart(rows, from, after)
    decreases |rows|
  {
    if rows == [] {
      ReplayNothing(from);
    } else {
      var n := |rows| - 1;
      var front, row := rows[..n], rows[n];
      assert rows == front + [row];
      hide *;
      ApartIff(front, from, after);
      ApartSnoc(front, row, from, after);
      RowsApartSnoc(front, row, from, after);
    }
  }

  /** Whether the next row would adjoin the last replayed one. */
  predicate Joins(front: seq<RunStep>, row: RunStep, from: Option<int>, after: nat) {
    var es := Replay(front, from);
    |es| > after && Kept(row, from) && ReadsAsResult(row) && IsExecutionResult(es[|es| - 1].msg)
  }

  lemma ApartSnoc(front: seq<RunStep>, row: RunStep, from: Option<int>, after: nat)
    ensures Apart(Replay(front + [row], from), after) <==>
            Apart(Replay(front, from), after) && !Joins(front, row, from, after)
  {
    hide StepToTurn, Replay, IsExecutionResult;
    ReplaySnoc(front, row, from);
    var es := Replay(front, from);
    if Kept(row, from) {
      var e := Entry(StepToTurn(row).value, row.index);
      assert Replay(front + [row], from) == es + [e];
      assert (es + [e])[|es|] == e;
      assert forall t | 0 <= t < |es| :: (es + [e])[t] == es[t];
      EntriesSnoc(es, e, after);
    } else {
      assert es + [] == es;
    }
  }

  lemma EntriesSnoc(es: seq<Entry>, e: Entry, after: nat)
    ensures Apart(es + [e], after) <==>
            Apart(es, after) && !(|es| > after && IsExecutionResult(es[|es| - 1].msg) && IsExecutionResult(e.msg))
  {
    hide IsExecutionResult;
    var all := es + [e];
    assert forall t | 0 <= t < |es| :: all[t] == es[t];
    if Apart(all, after) {
      forall t | after < t < |es| ensures !(IsExecutionResult(es[t - 1].msg) && IsExecutionResult(es[t].msg)) {
        assert all[t] == es[t] && all[t - 1] == es[t - 1];
      }
    } else {
      var t :| after < t < |all| && IsExecutionResult(all[t - 1].msg) && IsExecutionResult(all[t].msg);
      if t < |es| { assert es[t] == all[t] && es[t - 1] == all[t - 1]; }
    }
    assert all[|es|] == e;
  }

  lemma RowsApartSnoc(front: seq<RunStep>, row: RunStep, from: Option<int>, after: nat)
    ensures RowsApart(front + [row], from, after) <==> RowsApart(front, from, after) && !Joins(front, row, from, after)
  {
    hide StepToTurn, Replay, IsExecutionResult, Kept;
    var all, n := front + [row], |front|;
    assert forall i | 0 <= i < n :: all[i] == front[i] && all[..i] == front[..i];
    assert all[n] == row && all[..n] == front;
    if RowsApart(all, from, after) {
      forall i: nat, j: nat | Adjoin(front, from, i, j) ensures |Replay(front[..i], from)| < after {
        assert Adjoin(all, from, i, j);
      }
      if Replay(front, from) != [] {
        var i := LastKept(front, from);
        KeptPlays(front[i], from);
        assert Kept(row, from) && ReadsAsResult(row) && ReadsAsResult(front[i]) ==> Adjoin(all, from, i, n);
      }
    }
    if RowsApart(front, from, after) && !Joins(front, row, from, after) {
      forall i: nat, j: nat | Adjoin(all, from, i, j) ensures |Replay(all[..i], from)| < after {
        if j < n {
          assert Adjoin(front, from, i, j);
        } else {
          KeptPlays(front[i], from);
          EndsAt(front, from, i);
        }
      }
    }
  }

  /** Where nothing after row i is replayed, row i gives the last entry. */
  lemma EndsAt(rows: seq<RunStep>, from: Option<int>, i: nat)
    requires i < |rows| && Kept(rows[i], from) && forall k | i < k < |rows| :: !Kept(rows[k], from)
    ensures var es := Replay(rows, from);
            es != [] && |Replay(rows[..i], from)| == |es| - 1 && es[|es| - 1].msg == StepToTurn(rows[i]).value
  {
    hide StepToTurn, Replay, Kept;
    assert rows == rows[..i + 1] + rows[i + 1..] && rows[..i + 1] == rows[..i] + [rows[i]];
    ReplayAppend(rows[..i + 1], rows[i + 1..], from);
    ReplaySnoc(rows[..i], rows[i], from);
    NoneKept(rows[i + 1..], from);
    KeptPlays(rows[i], from);
  }

  lemma KeptPlays(row: RunStep, from: Option<int>)
    requires Kept(row, from)
    ensures StepToTurn(row).Some? && Played(row, from) == [Entry(StepToTurn(row).value, row.index)]
  {}

  lemma {:induction false} NoneKept(rows: seq<RunStep>, from: Option<int>)
    requires forall k | 0 <= k < |rows| :: !Kept(rows[k], from)
    ensures Replay(rows, from) == []
  {
    hide Kept;
    if rows != [] { NoneKept(rows[1..], from); }
  }

  /** Every cut of this history leaves each retained result its script. */
  ghost predicate EveryCutSafe(history: seq<Message>) {
    forall desired: int ::
      var split := SafeSplitPoint(history, desired); 0 < split < |history| ==> !IsExecutionResult(history[split])
  }

  /** For every trace, whatever Runs and stores left it: all cuts of the history a Run rehydrates are
      safe exactly when no two loaded rows adjoin, save for the two that open a history without a
      checkpoint. */
  lemma EveryCutSafeIff(rows: seq<RunStep>, window: int)
    ensures var loaded := Loaded(rows, window);
            EveryCutSafe(Msgs(Rehydrated(rows, window))) <==>
            RowsApart(loaded, FromOf(loaded), if LastCheckpoint(loaded).Some? then 0 else 1)
  {
    var loaded := Loaded(rows, window);
    var es := Rehydrated(rows, window);
    var h, shown := HeadOf(loaded), Replay(loaded, FromOf(loaded));
    assert es == Rebuilt(loaded) && |h| == if LastCheckpoint(loaded).Some? then 1 else 0;
    hide *;
    RebuiltParts(loaded);
    ApartIff(loaded, FromOf(loaded), 1 - |h|);
    ApartBehind(h, shown);
    CutsApart(es);
  }

  lemma ApartBehind(h: seq<Entry>, shown: seq<Entry>)
    requires |h| <= 1
    ensures Apart(h + shown, 1) <==> Apart(shown, 1 - |h|)
  {
    hide IsExecutionResult;
    var es := h + shown;
    assert forall t | 0 <= t < |shown| :: es[|h| + t] == shown[t];
    if Apart(es, 1) {
      forall t | 1 - |h| < t < |shown|
          ensures !(IsExecutionResult(shown[t - 1].msg) && IsExecutionResult(shown[t].msg)) {
        var u := |h| + t;
        assert es[u] == shown[t] && es[u - 1] == shown[t - 1];
      }
    }
    if Apart(shown, 1 - |h|) {
      forall u | 1 < u < |es| ensures !(IsExecutionResult(es[u - 1].msg) && IsExecutionResult(es[u].msg)) {
        var t := u - |h|;
        assert es[u] == shown[t] && es[u - 1] == shown[t - 1];
      }
    }
  }

  lemma CutsApart(es: seq<Entry>)
    ensures EveryCutSafe(Msgs(es)) <==> Apart(es, 1)
  {
    hide IsExecutionResult;
    var h := Msgs(es);
    forall desired: int
      ensures var split := SafeSplitPoint(h, desired);
              (0 < split < |h| ==> !IsExecutionResult(h[split])) <==>
              (1 < desired < |h| ==> !(IsExecutionResult(h[desired - 1]) && IsExecutionResult(h[desired])))
    {
      TailOpensWithResultIff(h, desired);
    }
    hide SafeSplitPoint;
    if EveryCutSafe(h) {
      forall t | 1 < t < |es| ensures !(IsExecutionResult(es[t - 1].msg) && IsExecutionResult(es[t].msg)) {
        var split := SafeSplitPoint(h, t);
      }
    }
    if Apart(es, 1) {
      forall desired: int
        ensures var split := SafeSplitPoint(h, desired); 0 < split < |h| ==> !IsExecutionResult(h[split])
      {
        assert 1 < desired < |h| ==> h[desired] == es[desired].msg;
      }
    }
  }

  predicate Increasing(rows: seq<RunStep>) {
    forall i, j | 0 <= i < j < |rows| :: rows[i].index < rows[j].index
  }

  /** No two execution results in a row. */
  predicate Alternates(es: seq<Entry>) { Apart(es, 0) }

  /** No two entries of the whole history, the summary included, are results in a row exactly when no
      two loaded rows adjoin and a summary that reads as one is not followed by a result. */
  lemma RehydratedAlternatesIff(rows: seq<RunStep>, window: int)
    ensures var loaded := Loaded(rows, window);
            var h, shown := HeadOf(loaded), Replay(loaded, FromOf(loaded));
            Alternates(Rehydrated(rows, window)) <==>
            RowsApart(loaded, FromOf(loaded), 0)
            && (h != [] && shown != [] ==> !(IsExecutionResult(h[0].msg) && IsExecutionResult(shown[0].msg)))
  {
    var loaded := Loaded(rows, window);
    var h, shown := HeadOf(loaded), Replay(loaded, FromOf(loaded));
    assert Rehydrated(rows, window) == Rebuilt(loaded) && |h| <= 1;
    hide Rehydrated, Loaded, Rebuilt, HeadOf, FromOf, Replay, RowsApart, IsExecutionResult;
    RebuiltParts(loaded);
    ApartIff(loaded, FromOf(loaded), 0);
    if h == [] {
      assert h + shown == shown;
    } else {
      ApartBehind(h, shown);
      assert h == [h[0]];
      FirstPair(h[0], shown);
    }
  }

  lemma FirstPair(e: Entry, shown: seq<Entry>)
    ensures Apart([e] + shown, 0) <==>
            Apart([e] + shown, 1) && (shown != [] ==> !(IsExecutionResult(e.msg) && IsExecutionResult(shown[0].msg)))
  {
    hide IsExecutionResult;
    var es := [e] + shown;
    assert es[0] == e && (shown != [] ==> es[1] == shown[0]);
    if Apart(es, 1) && (shown != [] ==> !(IsExecutionResult(e.msg) && IsExecutionResult(shown[0].msg))) {
      forall t | 0 < t < |es| ensures !(IsExecutionResult(es[t - 1].msg) && IsExecutionResult(es[t].msg)) {
        if t == 1 { assert es[t - 1] == e; }
      }
    }
  }

  lemma ResultKind(row: RunStep)
    requires Unmistakable([row]) && ReadsAsResult(row)
    ensures row.kind == ExecuteJsResult
  {
    assert [row][0] == row;
  }

  /** Rows in which every result follows its script's row never adjoin, whatever the window cut off, as
      long as nothing is filtered or the indices increase. */
  lemma PairedApart(rows: seq<RunStep>, from: Option<int>)
    requires PairedAfterFirst(rows) && Unmistakable(rows) && (from == None || Increasing(rows))
    ensures RowsApart(rows, from, 0)
  {
    hide Kept, ReadsAsResult;
    forall i: nat, j: nat ensures !Adjoin(rows, from, i, j) {
      if i < j < |rows| && Kept(rows[i], from) && ReadsAsResult(rows[i]) && ReadsAsResult(rows[j]) {
        ScriptBetween(rows, from, i, j);
      }
    }
  }

  lemma ScriptBetween(rows: seq<RunStep>, from: Option<int>, i: nat, j: nat)
    requires PairedAfterFirst(rows) && Unmistakable(rows) && (from == None || Increasing(rows))
    requires i < j < |rows| && Kept(rows[i], from) && ReadsAsResult(rows[i]) && ReadsAsResult(rows[j])
    ensures i < j - 1 && Kept(rows[j - 1], from)
  {
    assert Unmistakable([rows[i]]) && Unmistakable([rows[j]]);
    ResultKind(rows[i]);
    ResultKind(rows[j]);
    assert rows[j - 1].kind == ExecuteJs;
  }

  // ---- over whole sessions ----

  lemma PairedConcat(rows: seq<RunStep>, added: seq<RunStep>)
    requires Paired(rows) && Paired(added)
    ensures Paired(rows + added)
  {}

  lemma AddedPaired(cfg: Config, sid: string, rows: seq<RunStep>, call: Call)
    requires Sound(call) && cfg.historyWindow > 0
    ensures Paired(Added(cfg, sid, rows, call))
  {
    hide *;
    var prior := Prior(cfg, call.env, rows);
    var added := Added(cfg, sid, rows, call);
    var ds := RunOf(cfg, rows, call).drafts;
    AddedRows(cfg, sid, rows, call);
    AddedIs(cfg, sid, rows, call);
    TraceOpens(cfg, call.env, prior, call.message);
    TraceKinds(cfg, call.env, prior, call.message);
    var h := |Seed(cfg, call.env, prior, call.message).drafts|;
    KindsPaired(added, sid, cfg, Least(|rows|, cfg.historyWindow), ds, h, h + 2 * |RunOf(cfg, rows, call).scripts|);
  }

  lemma KindsPaired(added: seq<RunStep>, sid: string, cfg: Config, start: int, ds: seq<Draft>, h: nat, end: nat)
    requires Numbered(added, sid, cfg, start, ds) && 1 <= h
    requires forall i | 0 <= i < |ds| ::
               && (ds[i].kind == ExecuteJs <==> h <= i < end && (i - h) % 2 == 0)
               && (ds[i].kind == ExecuteJsResult <==> h <= i < end && (i - h) % 2 == 1)
    ensures Paired(added)
  {
    hide ToInt32;
    assert forall i | 0 <= i < |added| :: added[i].kind == ds[i].kind;
  }

  lemma {:induction false} PairedAfter(cfg: Config, sid: string, calls: seq<Call>)
    requires AllSound(calls) && cfg.historyWindow > 0
    ensures Paired(After(cfg, sid, calls))
  {
    hide Added, Paired;
    if calls == [] {
      assert Paired([]) by { NothingPaired(); }
    } else {
      var front, call := calls[..|calls| - 1], calls[|calls| - 1];
      PairedAfter(cfg, sid, front);
      AddedPaired(cfg, sid, After(cfg, sid, front), call);
      PairedConcat(After(cfg, sid, front), Added(cfg, sid, After(cfg, sid, front), call));
    }
  }

  lemma NothingPaired()
    ensures Paired([]) && Unmistakable([])
  {}

  ghost predicate Unlabelled(calls: seq<Call>) {
    forall i | 0 <= i < |calls| :: !(RESULT_PREFIX <= calls[i].message)
  }

  lemma AddedUnmistakable(cfg: Config, sid: string, rows: seq<RunStep>, call: Call, trigger: int, keep: int)
    requires Sound(call) && cfg.historyWindow > 0 && NoRedactor(cfg)
    requires 0 <= keep < trigger && Summarizes(call.env, trigger, keep) && !(RESULT_PREFIX <= call.message)
    ensures Unmistakable(Added(cfg, sid, rows, call))
  {
    var prior := Prior(cfg, call.env, rows);
    var head := Seed(cfg, call.env, prior, call.message).drafts;
    AddedRows(cfg, sid, rows, call);
    AddedIs(cfg, sid, rows, call);
    TraceKinds(cfg, call.env, prior, call.message);
    TraceOpens(cfg, call.env, prior, call.message);
    SeedUnmistakable(cfg, call.env, rows, call.message, trigger, keep);
    hide *;
    NumberedUnmistakable(Added(cfg, sid, rows, call), sid, cfg, Least(|rows|, cfg.historyWindow),
        RunOf(cfg, rows, call).drafts, |head|);
  }

  lemma SeedUnmistakable(cfg: Config, env: Env, rows: seq<RunStep>, message: string, trigger: int, keep: int)
    requires env.loadOk && cfg.historyWindow > 0 && 0 <= keep < trigger && Summarizes(env, trigger, keep)
    ensures var head := Seed(cfg, env, Prior(cfg, env, rows), message).drafts;
            |head| == 2 ==> !(RESULT_PREFIX <= head[1].content)
  {
    var es := Rehydrated(rows, cfg.historyWindow);
    SeedCheckpoint(cfg, env, rows, message);
    if env.buildOk && env.compactor.Some? {
      SummaryNotLabelled(trigger, keep, Msgs(es), env.compactor.value(Msgs(es)));
    }
    hide Rehydrated, Seed, Prior, Outcome, Msgs, StepsOf, RetainFromStep, Adopted, Summarizes;
  }

  lemma SummaryNotLabelled(trigger: int, keep: int, h: seq<Message>, r: CompactResult)
    requires Outcome(trigger, keep, h, r)
    ensures !(RESULT_PREFIX <= r.summary)
  {
    var split := SafeSplitPoint(h, |h| - keep);
    if !(|h| <= trigger || split <= 0) && !r.failed {
      var text :| Summarize.Tidy(text) && r.summary == SummaryContent(split, text);
      SummaryContentBytes(split, text);
    }
  }

  lemma NumberedUnmistakable(added: seq<RunStep>, sid: string, cfg: Config, start: int, ds: seq<Draft>, h: nat)
    requires Numbered(added, sid, cfg, start, ds) && NoRedactor(cfg) && 1 <= h <= 2 && h <= |ds|
    requires forall i | 0 <= i < |ds| :: (ds[i].kind == User <==> i == 0) && (ds[i].kind == Summary <==> 0 < i < h)
    requires !(RESULT_PREFIX <= ds[0].content) && (h == 2 ==> !(RESULT_PREFIX <= ds[1].content))
    ensures Unmistakable(added)
  {
    hide ToInt32;
    forall i | 0 <= i < |added| && (added[i].kind == User || added[i].kind == Summary)
        ensures !(RESULT_PREFIX <= added[i].content) {
      assert added[i] == Row(sid, cfg.redact, start + i, ds[i]);
    }
  }

  lemma UnmistakableConcat(rows: seq<RunStep>, added: seq<RunStep>)
    requires Unmistakable(rows) && Unmistakable(added)
    ensures Unmistakable(rows + added)
  {}

  lemma {:induction false} UnmistakableAfter(cfg: Config, sid: string, calls: seq<Call>, trigger: int, keep: int)
    requires AllSound(calls) && Unlabelled(calls) && cfg.historyWindow > 0 && NoRedactor(cfg)
    requires 0 <= keep < trigger && AllSummarize(calls, trigger, keep)
    ensures Unmistakable(After(cfg, sid, calls))
    decreases |calls|
  {
    hide Added, Unmistakable, Summarizes, NoRedactor;
    if calls == [] {
      NothingPaired();
    } else {
      var front, call := calls[..|calls| - 1], calls[|calls| - 1];
      UnmistakableAfter(cfg, sid, front, trigger, keep);
      AddedUnmistakable(cfg, sid, After(cfg, sid, front), call, trigger, keep);
      UnmistakableConcat(After(cfg, sid, front), Added(cfg, sid, After(cfg, sid, front), call));
    }
  }

  lemma LoadedPaired(rows: seq<RunStep>, window: int)
    requires Paired(rows) && Unmistakable(rows)
    ensures PairedAfterFirst(Loaded(rows, window)) && Unmistakable(Loaded(rows, window))
    ensures Faithful(rows) ==> Increasing(Loaded(rows, window))
  {}

  /** Over any sequence of Runs whose user messages do not carry the result label, no compaction ever
      retains an execution result whose script it folded away, wherever it cuts: as long as the
      store does not fail and the session's indices are its rows' positions, or no checkpoint is loaded. */
  lemma NoOrphanedOutput(cfg: Config, sid: string, calls: seq<Call>, trigger: int, keep: int, desired: int)
    requires AllSound(calls) && Unlabelled(calls) && cfg.historyWindow > 0 && NoRedactor(cfg)
    requires 0 <= keep < trigger && AllSummarize(calls, trigger, keep)
    requires Faithful(After(cfg, sid, calls))
             || LastCheckpoint(Loaded(After(cfg, sid, calls), cfg.historyWindow)) == None
    ensures var history := Msgs(Rehydrated(After(cfg, sid, calls), cfg.historyWindow));
            var split := SafeSplitPoint(history, desired);
            0 < split < |history| ==> !IsExecutionResult(history[split])
  {
    var rows := After(cfg, sid, calls);
    var loaded := Loaded(rows, cfg.historyWindow);
    assert LastCheckpoint(loaded) == None ==> FromOf(loaded) == None;
    assert forall from, b: nat | RowsApart(loaded, from, 0) :: RowsApart(loaded, from, b);
    hide Paired, Unmistakable, PairedAfterFirst, Increasing, RowsApart, Rehydrated, SafeSplitPoint, IsExecutionResult,
         Faithful, AllSound, Unlabelled, NoRedactor, AllSummarize, LastCheckpoint, Loaded, After;
    PairedAfter(cfg, sid, calls);
    UnmistakableAfter(cfg, sid, calls, trigger, keep);
    LoadedPaired(rows, cfg.historyWindow);
    PairedApart(loaded, FromOf(loaded));
    EveryCutSafeIff(rows, cfg.historyWindow);
  }

  /** Over any calls and whatever the store did: exactly when no two rows loaded next adjoin. */
  lemma OrphansIff(cfg: Config, sid: string, calls: seq<Call>)
    ensures var loaded := Loaded(After(cfg, sid, calls), cfg.historyWindow);
            EveryCutSafe(Msgs(Rehydrated(After(cfg, sid, calls), cfg.historyWindow))) <==>
            RowsApart(loaded, FromOf(loaded), if LastCheckpoint(loaded).Some? then 0 else 1)
  {
    hide *;
    EveryCutSafeIff(After(cfg, sid, calls), cfg.historyWindow);
  }

  // ---- which calls make two results adjoin ----

  /** This Run's question, as persisted, reads as an execution result. */
  predicate Labelled(cfg: Config, call: Call) { RESULT_PREFIX <= cfg.redact(call.message) }

  /** What this Run leaves to be replayed ends with something that reads as an execution result: it was
      not completed, and it ran a script or its question is labelled. */
  predicate EndsOnResult(cfg: Config, rows: seq<RunStep>, call: Call) {
    RunOf(cfg, rows, call).status != Completed && (RunOf(cfg, rows, call).scripts != [] || Labelled(cfg, call))
  }

  /** Call k asks a labelled question right after a Run that ended on a result, and of the rows loaded
      from position x on at least two are replayed before it. */
  predicate AsksOnResult(cfg: Config, sid: string, calls: seq<Call>, x: nat, k: nat) {
    && 0 < k < |calls|
    && Labelled(cfg, calls[k]) && EndsOnResult(cfg, After(cfg, sid, calls[..k - 1]), calls[k - 1])
    && x <= |After(cfg, sid, calls[..k])| && |Replay(After(cfg, sid, calls[..k])[x..], None)| > 1
  }

  /** The kinds of a Run's rows, when it has h opening ones, n scripts, and was completed or not. */
  ghost predicate RunKinds(added: seq<RunStep>, h: nat, n: nat, completed: bool) {
    && 1 <= h <= 2 && h + 2 * n <= |added| <= h + 2 * n + 1 && (completed ==> |added| == h + 2 * n + 1)
    && forall i | 0 <= i < |added| ::
         && (added[i].kind == User <==> i == 0)
         && (added[i].kind == Summary <==> 0 < i < h)
         && (added[i].kind == ExecuteJs <==> h <= i < h + 2 * n && (i - h) % 2 == 0)
         && (added[i].kind == ExecuteJsResult <==> h <= i < h + 2 * n && (i - h) % 2 == 1)
         && (added[i].kind == Response <==> i == h + 2 * n && completed)
  }

  lemma AddedKinds(cfg: Config, sid: string, rows: seq<RunStep>, call: Call) returns (h: nat)
    requires Sound(call) && cfg.historyWindow > 0
    ensures var added, p := Added(cfg, sid, rows, call), RunOf(cfg, rows, call);
            && RunKinds(added, h, |p.scripts|, p.status == Completed)
            && added[0].content == cfg.redact(call.message)
  {
    hide *;
    var prior := Prior(cfg, call.env, rows);
    h := |Seed(cfg, call.env, prior, call.message).drafts|;
    AddedRows(cfg, sid, rows, call);
    AddedIs(cfg, sid, rows, call);
    TraceOpens(cfg, call.env, prior, call.message);
    TraceKinds(cfg, call.env, prior, call.message);
    KindsNumbered(Added(cfg, sid, rows, call), sid, cfg, Least(|rows|, cfg.historyWindow), RunOf(cfg, rows, call), h,
        call.message);
  }

  lemma KindsNumbered(added: seq<RunStep>, sid: string, cfg: Config, start: int, p: Progress, h: nat, message: string)
    requires Numbered(added, sid, cfg, start, p.drafts) && 1 <= h <= 2
             && h + 2 * |p.scripts| <= |p.drafts| <= h + 2 * |p.scripts| + 1
    requires forall i | 0 <= i < |p.drafts| ::
               && (p.drafts[i].kind == User <==> i == 0)
               && (p.drafts[i].kind == Summary <==> 0 < i < h)
               && (p.drafts[i].kind == ExecuteJs <==> h <= i < h + 2 * |p.scripts| && (i - h) % 2 == 0)
               && (p.drafts[i].kind == ExecuteJsResult <==> h <= i < h + 2 * |p.scripts| && (i - h) % 2 == 1)
               && (p.drafts[i].kind == Response <==> i == h + 2 * |p.scripts| && p.status == Completed)
    requires p.status == Completed ==> |p.drafts| == h + 2 * |p.scripts| + 1
    requires p.drafts[0] == Plain(User, message)
    ensures RunKinds(added, h, |p.scripts|, p.status == Completed) && added[0].content == cfg.redact(message)
  {
    hide ToInt32;
    assert forall i | 0 <= i < |added| :: added[i].kind == p.drafts[i].kind;
  }

  /** Scripts and their results alternate, so no two results adjoin within one Run, wherever it is cut. */
  lemma OneRunApart(added: seq<RunStep>, y: nat, h: nat, n: nat, completed: bool)
    requires RunKinds(added, h, n, completed) && y <= |added|
    ensures Apart(Replay(added[y..], None), 0)
  {
    var rows := added[y..];
    forall i: nat, j: nat ensures !Adjoin(rows, None, i, j) {
      if i < j < |rows| && ReadsAsResult(rows[i]) && ReadsAsResult(rows[j]) {
        assert rows[j] == added[y + j] && rows[j - 1] == added[y + j - 1];
        assert rows[j].kind == ExecuteJsResult && rows[j - 1].kind == ExecuteJs;
        assert Kept(rows[j - 1], None) && !ReadsAsResult(rows[j - 1]);
      }
    }
    hide Adjoin;
    ApartIff(rows, None, 0);
  }

  /** What a Run leaves begins with its question and ends as EndsOnResult says. */
  lemma RunEdges(added: seq<RunStep>, h: nat, n: nat, completed: bool)
    requires RunKinds(added, h, n, completed)
    ensures var es, labelled := Replay(added, None), RESULT_PREFIX <= added[0].content;
            && es != [] && (IsExecutionResult(es[0].msg) <==> labelled)
            && (IsExecutionResult(es[|es| - 1].msg) <==> !completed && (n > 0 || labelled))
  {
    var last := if completed then |added| - 1 else if n > 0 then h + 2 * n - 1 else 0;
    assert forall k | last < k < |added| :: !Kept(added[k], None);
    assert Kept(added[last], None) && Kept(added[0], None);
    assert ReadsAsResult(added[last]) <==> !completed && (n > 0 || RESULT_PREFIX <= added[0].content) by {
      assert RESULT_PREFIX <= RESULT_PREFIX + "\n" + added[last].content;
    }
    KeptPlays(added[0], None);
    hide RunKinds, Kept;
    EndsAt(added, None, last);
    assert Replay(added, None) == Played(added[0], None) + Replay(added[1..], None);
    hide Replay, Played;
  }

  lemma EndOfSuffix(rows: seq<RunStep>, y: nat)
    requires y <= |rows| && Replay(rows[y..], None) != []
    ensures var es, tail := Replay(rows, None), Replay(rows[y..], None); es != [] && es[|es| - 1] == tail[|tail| - 1]
  {
    hide Replay;
    assert rows == rows[..y] + rows[y..];
    ReplayAppend(rows[..y], rows[y..], None);
  }

  lemma ApartAppend(a: seq<Entry>, b: seq<Entry>)
    requires b != [] && Apart(b, 0)
    ensures Apart(a + b, 1) <==>
            Apart(a, 1) && !(|a| > 1 && IsExecutionResult(a[|a| - 1].msg) && IsExecutionResult(b[0].msg))
  {
    hide IsExecutionResult;
    var es := a + b;
    assert forall t | 0 <= t < |a| :: es[t] == a[t];
    assert forall t | 0 <= t < |b| :: es[|a| + t] == b[t];
    if Apart(es, 1) {
      forall t | 1 < t < |a| ensures !(IsExecutionResult(a[t - 1].msg) && IsExecutionResult(a[t].msg)) {
        assert es[t] == a[t] && es[t - 1] == a[t - 1];
      }
      if |a| > 1 { assert es[|a|] == b[0] && es[|a| - 1] == a[|a| - 1]; }
    } else {
      var t :| 1 < t < |es| && IsExecutionResult(es[t - 1].msg) && IsExecutionResult(es[t].msg);
      if t < |a| {
        assert a[t] == es[t] && a[t - 1] == es[t - 1];
      } else if t > |a| {
        assert false;
      }
    }
  }

  /** One more Run: its rows clash with those before exactly when its question does. */
  lemma ApartRun(cfg: Config, sid: string, rows: seq<RunStep>, call: Call, x: nat)
    requires Sound(call) && cfg.historyWindow > 0
    ensures var added := Added(cfg, sid, rows, call);
            && (x <= |rows| ==>
                  (Apart(Replay((rows + added)[x..], None), 1) <==>
                   && Apart(Replay(rows[x..], None), 1)
                   && !(|Replay(rows[x..], None)| > 1 && Labelled(cfg, call) && EndsInResult(rows))))
            && (|rows| < x <= |rows + added| ==> Apart(Replay((rows + added)[x..], None), 1))
  {
    var added := Added(cfg, sid, rows, call);
    var p := RunOf(cfg, rows, call);
    hide Added, RunOf, Replay, RunKinds, Apart, IsExecutionResult, Sound, Labelled, EndsOnResult;
    var h := AddedKinds(cfg, sid, rows, call);
    RunEnds(cfg, sid, rows, call);
    if x <= |rows| {
      OneRunApart(added, 0, h, |p.scripts|, p.status == Completed);
      assert added[0..] == added && (rows + added)[x..] == rows[x..] + added;
      ReplayAppend(rows[x..], added, None);
      ApartAppend(Replay(rows[x..], None), Replay(added, None));
      if Replay(rows[x..], None) != [] { EndOfSuffix(rows, x); }
    } else if x <= |rows + added| {
      assert (rows + added)[x..] == added[x - |rows|..];
      OneRunApart(added, x - |rows|, h, |p.scripts|, p.status == Completed);
      ApartLess(Replay(added[x - |rows|..], None));
    }
  }

  lemma ApartLess(es: seq<Entry>)
    requires Apart(es, 0)
    ensures Apart(es, 1)
  {
    hide IsExecutionResult;
  }

  /** The last replayed row reads as a result. */
  predicate EndsInResult(rows: seq<RunStep>) {
    var es := Replay(rows, None); es != [] && IsExecutionResult(es[|es| - 1].msg)
  }

  lemma EndsInResultIff(cfg: Config, sid: string, calls: seq<Call>, call: Call)
    requires Sound(call) && cfg.historyWindow > 0
    ensures EndsInResult(After(cfg, sid, calls + [call])) <==> EndsOnResult(cfg, After(cfg, sid, calls), call)
  {
    var rows := After(cfg, sid, calls);
    hide *;
    AfterOne(cfg, sid, calls, call);
    RunEnds(cfg, sid, rows, call);
    EndsBehind(rows, Added(cfg, sid, rows, call));
  }

  lemma RunEnds(cfg: Config, sid: string, rows: seq<RunStep>, call: Call)
    requires Sound(call) && cfg.historyWindow > 0
    ensures var es := Replay(Added(cfg, sid, rows, call), None);
            && es != [] && (IsExecutionResult(es[0].msg) <==> Labelled(cfg, call))
            && (IsExecutionResult(es[|es| - 1].msg) <==> EndsOnResult(cfg, rows, call))
  {
    var p := RunOf(cfg, rows, call);
    hide Added, RunOf, Replay, RunKinds, IsExecutionResult, Sound;
    var h := AddedKinds(cfg, sid, rows, call);
    RunEdges(Added(cfg, sid, rows, call), h, |p.scripts|, p.status == Completed);
  }

  lemma LastSound(calls: seq<Call>)
    requires AllSound(calls) && calls != []
    ensures var n := |calls| - 1; AllSound(calls[..n]) && Sound(calls[n]) && calls == calls[..n] + [calls[n]]
  {
    hide Sound;
  }

  lemma EndsBehind(rows: seq<RunStep>, added: seq<RunStep>)
    requires Replay(added, None) != []
    ensures var es := Replay(added, None); EndsInResult(rows + added) <==> IsExecutionResult(es[|es| - 1].msg)
  {
    hide Replay, IsExecutionResult;
    ReplayAppend(rows, added, None);
  }

  lemma {:induction false} ApartCalls(cfg: Config, sid: string, calls: seq<Call>, x: nat)
    requires AllSound(calls) && cfg.historyWindow > 0 && x <= |After(cfg, sid, calls)|
    ensures Apart(Replay(After(cfg, sid, calls)[x..], None), 1) <==>
            forall k: nat :: !AsksOnResult(cfg, sid, calls, x, k)
    decreases |calls|
  {
    hide *;
    if calls == [] {
      NothingReplayed(cfg, sid, x);
    } else {
      var n := |calls| - 1;
      var front, call := calls[..n], calls[n];
      var rows := After(cfg, sid, front);
      LastSound(calls);
      AfterOne(cfg, sid, front, call);
      ApartRun(cfg, sid, rows, call, x);
      AsksEarlier(cfg, sid, front, call, x);
      if x <= |rows| {
        ApartCalls(cfg, sid, front, x);
        AsksLast(cfg, sid, front, call, x);
      } else {
        NoneAsks(cfg, sid, front, call, x);
      }
    }
  }

  lemma NothingReplayed(cfg: Config, sid: string, x: nat)
    requires x <= |After(cfg, sid, [])|
    ensures Apart(Replay(After(cfg, sid, [])[x..], None), 1)
    ensures forall k: nat :: !AsksOnResult(cfg, sid, [], x, k)
  {
    assert After(cfg, sid, [])[x..] == [];
  }

  lemma AsksEarlier(cfg: Config, sid: string, front: seq<Call>, call: Call, x: nat)
    ensures forall k: nat | k < |front| ::
              AsksOnResult(cfg, sid, front + [call], x, k) <==> AsksOnResult(cfg, sid, front, x, k)
    ensures forall k: nat | k > |front| :: !AsksOnResult(cfg, sid, front + [call], x, k)
    ensures forall k: nat | k >= |front| :: !AsksOnResult(cfg, sid, front, x, k)
  {
    var calls := front + [call];
    hide EndsOnResult, Labelled, Replay, After;
    forall k: nat | 0 < k < |front|
      ensures AsksOnResult(cfg, sid, calls, x, k) <==> AsksOnResult(cfg, sid, front, x, k)
    {
      assert calls[..k] == front[..k] && calls[..k - 1] == front[..k - 1];
    }
  }

  lemma AsksLast(cfg: Config, sid: string, front: seq<Call>, call: Call, x: nat)
    requires AllSound(front) && cfg.historyWindow > 0 && x <= |After(cfg, sid, front)|
    ensures var rows := After(cfg, sid, front);
            AsksOnResult(cfg, sid, front + [call], x, |front|) <==>
            |Replay(rows[x..], None)| > 1 && Labelled(cfg, call) && EndsInResult(rows)
  {
    var calls, n := front + [call], |front|;
    hide EndsOnResult, Labelled, After, EndsInResult, AllSound;
    assert calls[..n] == front;
    if n > 0 {
      hide Replay;
      assert calls[..n - 1] == front[..n - 1] && calls[n - 1] == front[n - 1];
      LastSound(front);
      EndsInResultIff(cfg, sid, front[..n - 1], front[n - 1]);
    } else {
      NothingBefore(cfg, sid);
    }
  }

  lemma NothingBefore(cfg: Config, sid: string)
    ensures After(cfg, sid, []) == [] && !EndsInResult([])
  {}

  lemma NoneAsks(cfg: Config, sid: string, front: seq<Call>, call: Call, x: nat)
    requires x > |After(cfg, sid, front)|
    ensures forall k: nat :: !AsksOnResult(cfg, sid, front + [call], x, k)
  {
    var calls := front + [call];
    hide EndsOnResult, Labelled, Replay, After;
    forall k: nat | 0 < k < |calls| ensures !AsksOnResult(cfg, sid, calls, x, k) {
      assert calls[..k] == front[..k] && front == front[..k] + front[k..];
      AfterMore(cfg, sid, front[..k], front[k..]);
    }
  }

  /** With a store that never fails and no checkpoint loaded, whatever the Redactor: all cuts are safe
      exactly when no loaded question that carries the label was asked right after a Run that ended on
      a result, the two opening messages aside. */
  lemma OrphansOfCallsIff(cfg: Config, sid: string, calls: seq<Call>)
    requires AllSound(calls) && cfg.historyWindow > 0
    requires LastCheckpoint(Loaded(After(cfg, sid, calls), cfg.historyWindow)) == None
    ensures EveryCutSafe(Msgs(Rehydrated(After(cfg, sid, calls), cfg.historyWindow))) <==>
            forall k: nat ::
              !AsksOnResult(cfg, sid, calls, Dropped(|After(cfg, sid, calls)|, cfg.historyWindow), k)
  {
    var rows := After(cfg, sid, calls);
    var loaded := Loaded(rows, cfg.historyWindow);
    assert FromOf(loaded) == None && HeadOf(loaded) == [];
    hide *;
    LoadedFrom(rows, cfg.historyWindow);
    LoadedIs(rows, cfg.historyWindow);
    OrphansIff(cfg, sid, calls);
    ApartIff(loaded, None, 1);
    ApartCalls(cfg, sid, calls, Dropped(|rows|, cfg.historyWindow));
  }

  lemma LoadedIs(rows: seq<RunStep>, window: int)
    requires window > 0
    ensures Loaded(rows, window) == rows[Dropped(|rows|, window)..]
  {}

  /** A user message carrying the label defeats the step back: the tail opens with the real result
      before it, its script folded away. */
  lemma LabelledMessageOrphans(question: Message, script: Message, output: string, claim: string)
    ensures var history :=
              [question, script, Message("user", RESULT_PREFIX + output), Message("user", RESULT_PREFIX + claim)];
            var split := SafeSplitPoint(history, |history| - 1);
            0 < split < |history| && IsExecutionResult(history[split]) && history[split - 1] == script
  {}
}
