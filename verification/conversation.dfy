/** Whole sessions: the conversation carried from Run to Run, and what compaction costs over all of them. */
module Conversation {
  import opened Text
  import opened Messages
  import opened Compact
  import opened Summarize
  import opened Store
  import opened History
  import opened Run
  import opened Trace
  import opened Session
  import opened Checkpoints
  import opened Replays

  lemma {:induction false} LastCheckpointExtends(rows: seq<RunStep>, added: seq<RunStep>)
    requires NoUsable(added)
    ensures LastCheckpoint(rows + added) == LastCheckpoint(rows)
  {
    hide Usable;
    if added == [] {
      assert rows + added == rows;
    } else {
      var n := |added| - 1;
      assert (rows + added)[..|rows| + n] == rows + added[..n];
      LastCheckpointExtends(rows, added[..n]);
    }
  }

  /** Without a new checkpoint, rehydrating only adds the new steps. */
  lemma Extended(rows: seq<RunStep>, added: seq<RunStep>)
    requires Faithful(rows + added) && WellMarked(rows) && NoUsable(added)
    ensures Rebuilt(rows + added) == Rebuilt(rows) + Replay(added, None)
  {
    var all := rows + added;
    var y := StartOf(rows, 0);
    hide *;
    Slices(rows, added, y);
    FaithfulPrefix(all, |rows|);
    StartSame(rows, added);
    RebuiltByPosition(rows, 0);
    RebuiltByPosition(all, 0);
    SplitReplay(all, y, |rows|);
    Reassociate(HeadOf(rows), Replay(rows[y..], None), Replay(added, None));
  }

  lemma Slices<T>(a: seq<T>, b: seq<T>, y: nat)
    requires y <= |a|
    ensures (a + b)[0..] == a + b && a[0..] == a && (a + b)[..|a|] == a && (a + b)[|a|..] == b
    ensures (a + b)[y..|a|] == a[y..]
  {}

  lemma Reassociate<T>(a: seq<T>, b: seq<T>, c: seq<T>)
    ensures a + (b + c) == a + b + c
  {}

  lemma StartSame(rows: seq<RunStep>, added: seq<RunStep>)
    requires Faithful(rows) && WellMarked(rows) && NoUsable(added)
    ensures StartOf(rows + added, 0) == StartOf(rows, 0) && HeadOf(rows + added) == HeadOf(rows)
  {
    assert (rows + added)[0..] == rows + added && rows[0..] == rows;
    LastCheckpointExtends(rows, added);
    if HeadOf(rows) != [] { HeadStep(rows, 0); }
    hide LastCheckpoint, NoUsable, Faithful, WellMarked;
  }

  /** The entries a compaction that retained from `r` leaves verbatim. */
  function Retained(es: seq<Entry>, r: int): seq<Entry>
    requires r > 0
  {
    es[if r < |es| then r else |es|..]
  }

  /** What a Run makes of the history it was given, seen by the next one: the same history, or the
      checkpoint and what its compaction retained, then the Run's own steps. */
  lemma NextHistory(cfg: Config, sid: string, rows: seq<RunStep>, call: Call)
    requires Sound(call) && cfg.historyWindow > 0 && Faithful(rows) && WellMarked(rows)
    requires |rows| + |Added(cfg, sid, rows, call)| <= cfg.historyWindow < TWO_31
    ensures var added := Added(cfg, sid, rows, call);
            var es := Rehydrated(rows, cfg.historyWindow);
            if |added| > 1 && Usable(added[1])
            then
              && call.env.buildOk && call.env.compactor.Some?
              && var r := call.env.compactor.value(Msgs(es));
              && Adopted(r, |es|) && r.retainedFrom > 0 && added[1].content == cfg.redact(r.summary)
              && Rehydrated(rows + added, cfg.historyWindow) ==
                 [Entry(Message("user", added[1].content), |rows| + 1)] + Retained(es, r.retainedFrom)
                     + Replay(added, None)
            else Rehydrated(rows + added, cfg.historyWindow) == es + Replay(added, None)
  {
    var added := Added(cfg, sid, rows, call);
    var all := rows + added;
    AllFaithful(cfg, sid, rows, call);
    AddedCheckpoint(cfg, sid, rows, call);
    if |added| > 1 && Usable(added[1]) {
      NextAfterCheckpoint(cfg, sid, rows, call);
    } else {
      var head := Seed(cfg, call.env, Prior(cfg, call.env, rows), call.message).drafts;
      NoneUsable(added, |head|);
      hide *;
      LoadedFrom(rows, cfg.historyWindow);
      LoadedFrom(all, cfg.historyWindow);
      NothingDropped(rows, cfg.historyWindow);
      NothingDropped(all, cfg.historyWindow);
      Extended(rows, added);
    }
  }

  /** The checkpoint a Run wrote, traced back to its compaction. */
  lemma CheckpointSource(cfg: Config, sid: string, rows: seq<RunStep>, call: Call)
    requires Sound(call) && cfg.historyWindow > 0
    requires var added := Added(cfg, sid, rows, call); |added| > 1 && Usable(added[1])
    ensures var added := Added(cfg, sid, rows, call);
            var es := Rehydrated(rows, cfg.historyWindow);
            && call.env.buildOk && call.env.compactor.Some?
            && var r := call.env.compactor.value(Msgs(es));
            && Adopted(r, |es|) && r.retainedFrom > 0 && es != [] && added[1].content == cfg.redact(r.summary)
            && RetainFromStep(r.retainedFrom, StepsOf(es)) == Some(added[1].toolArgs.retainFromStep)
            && StepToTurn(added[0]).Some? && NoUsable(added[2..])
  {
    var added := Added(cfg, sid, rows, call);
    var head := Seed(cfg, call.env, Prior(cfg, call.env, rows), call.message).drafts;
    AddedCheckpoint(cfg, sid, rows, call);
    SeedCheckpoint(cfg, call.env, rows, call.message);
    hide Added, Seed, Rehydrated, Msgs, StepsOf, Prior, ToInt32, Least, Usable;
    if |head| < |added| { FirstNotUsable(added, |head|); }
  }

  lemma FirstNotUsable(added: seq<RunStep>, h: nat)
    requires h < |added| && NoUsable(added[h..])
    ensures !Usable(added[h])
  {
    hide Usable;
    assert added[h..][0] == added[h];
  }

  lemma SameMarker(k: int, stepOf: seq<int>)
    requires k > 0 && stepOf != []
    ensures RetainFromStep(if k < |stepOf| then k else |stepOf|, stepOf) == RetainFromStep(k, stepOf)
  {}

  lemma NextAfterCheckpoint(cfg: Config, sid: string, rows: seq<RunStep>, call: Call)
    requires Sound(call) && cfg.historyWindow > 0 && WellMarked(rows)
    requires var added := Added(cfg, sid, rows, call);
             && |rows| + |added| <= cfg.historyWindow < TWO_31 && Faithful(rows + added)
             && |added| > 1 && Usable(added[1])
    ensures var added := Added(cfg, sid, rows, call);
            var es := Rehydrated(rows, cfg.historyWindow);
            && call.env.buildOk && call.env.compactor.Some?
            && var r := call.env.compactor.value(Msgs(es));
            && Adopted(r, |es|) && r.retainedFrom > 0 && added[1].content == cfg.redact(r.summary)
            && Rehydrated(rows + added, cfg.historyWindow) ==
               [Entry(Message("user", added[1].content), |rows| + 1)] + Retained(es, r.retainedFrom)
                   + Replay(added, None)
  {
    hide Added, Rehydrated, Faithful, WellMarked, Usable, NoUsable, StepToTurn, Replay, RetainFromStep, Sound, Msgs,
         StepsOf, ToInt32, Least, AnyReplayed;
    CheckpointSource(cfg, sid, rows, call);
    var added := Added(cfg, sid, rows, call);
    var all := rows + added;
    assert all[..|rows|] == rows && all[|rows|..] == added && all[|rows| + 2..] == added[2..];
    var es := Rehydrated(rows, cfg.historyWindow);
    var k := call.env.compactor.value(Msgs(es)).retainedFrom;
    SameMarker(k, StepsOf(es));
    CheckpointFaithfulIff(rows, all, cfg.historyWindow, if k < |es| then k else |es|);
  }

  lemma NothingDropped(rows: seq<RunStep>, window: int)
    requires 0 < window && |rows| <= window
    ensures rows[Dropped(|rows|, window)..] == rows
  {}

  lemma AllFaithful(cfg: Config, sid: string, rows: seq<RunStep>, call: Call)
    requires Sound(call) && cfg.historyWindow > 0 && Faithful(rows)
    requires |rows| + |Added(cfg, sid, rows, call)| <= cfg.historyWindow < TWO_31
    ensures Faithful(rows + Added(cfg, sid, rows, call))
  {
    hide Added, Faithful;
    FaithfulStep(cfg, sid, rows, call);
  }

  lemma UserUnusable(row: RunStep)
    requires row.kind == User
    ensures !Usable(row)
  {
    hide IsBlank;
  }

  lemma NoneUsable(added: seq<RunStep>, h: nat)
    requires 1 <= h <= 2 && h <= |added| && NoUsable(added[h..]) && added[0].kind == User
    requires |added| > 1 ==> !Usable(added[1])
    ensures NoUsable(added)
  {
    hide Usable;
    UserUnusable(added[0]);
    forall i | 0 <= i < |added| ensures !Usable(added[i]) {
      if i >= h { assert added[i] == added[h..][i - h]; }
    }
  }

  // ---- the conversation goes on where it stood ----

  /** The loop's compactor, where it has one, behaves like a SummarizingCompactor with these bounds. */
  ghost predicate Summarizes(env: Env, trigger: int, keep: int) {
    env.compactor.Some? ==> forall h: seq<Message> :: Outcome(trigger, keep, h, env.compactor.value(h))
  }

  /** r folded all of es but its last messages into a summary worth keeping. */
  predicate Folded(trigger: int, keep: int, es: seq<Entry>, r: CompactResult) {
    && 0 < r.retainedFrom <= |es| && |es| > trigger && |es| - r.retainedFrom <= keep + 1
    && r.messages == [Message("user", r.summary)] + Msgs(Retained(es, r.retainedFrom))
    && r.summary != "" && !IsBlank(r.summary)
  }

  ghost predicate AllSummarize(calls: seq<Call>, trigger: int, keep: int) {
    forall i | 0 <= i < |calls| :: Summarizes(calls[i].env, trigger, keep)
  }

  /** What such a compaction hands on is either the history or the summary and the messages retained. */
  lemma HandedOn(trigger: int, keep: int, es: seq<Entry>, r: CompactResult)
    requires 0 <= keep < trigger && Outcome(trigger, keep, Msgs(es), r) && Adopted(r, |es|)
    ensures if r.retainedFrom > 0 then Folded(trigger, keep, es, r) else r.messages == Msgs(es) && r.summary == ""
  {
    hide SummaryContent, Tidy, IsBlank;
    var history := Msgs(es);
    var split := SafeSplitPoint(history, |history| - keep);
    if |history| > trigger && split > 0 {
      SplitBounds(trigger, keep, history);
      var text :| Tidy(text) && r.summary == SummaryContent(split, text);
      SummaryContentBytes(split, text);
      assert Msgs(es[split..]) == history[split..];
    }
  }

  /** Without a Redactor and within the window, what the next Run rehydrates is the conversation this
      one had: the history its compaction left, the user's message, every reply cut down to its
      script with the script's output, and the answer. */
  lemma ConversationContinues(cfg: Config, sid: string, rows: seq<RunStep>, call: Call, trigger: int, keep: int)
    requires Sound(call) && call.env.buildOk && cfg.historyWindow > 0 && Faithful(rows) && WellMarked(rows)
    requires |rows| + |Added(cfg, sid, rows, call)| <= cfg.historyWindow < TWO_31
    requires NoRedactor(cfg) && 0 <= keep < trigger && Summarizes(call.env, trigger, keep)
    ensures var p := RunOf(cfg, rows, call);
            var base := Seed(cfg, call.env, Prior(cfg, call.env, rows), call.message).live;
            && Msgs(Rehydrated(rows + Added(cfg, sid, rows, call), cfg.historyWindow)) ==
                base + ScriptTurns(p.scripts) + Closing(p)
            && Follows(p, base)
  {
    AddedIs(cfg, sid, rows, call);
    var prior := Prior(cfg, call.env, rows);
    ReplayRetellsTheRun(sid, cfg, call.env, prior, call.message);
    var hist := BaseIsReplayed(cfg, sid, rows, call, trigger, keep);
    hide *;
    var p := RunOf(cfg, rows, call);
    SplitUser(hist, Message("user", call.message), ScriptTurns(p.scripts), Closing(p));
  }

  lemma SplitUser<T>(hist: seq<T>, u: T, a: seq<T>, b: seq<T>)
    ensures hist + ([u] + a + b) == hist + [u] + a + b
  {}

  /** The history a Run starts its turns from, and the checkpoint that goes with it. */
  lemma SeedLive(cfg: Config, env: Env, rows: seq<RunStep>, message: string, trigger: int, keep: int)
    requires env.loadOk && env.buildOk && cfg.historyWindow > 0
    requires 0 <= keep < trigger && Summarizes(env, trigger, keep)
    ensures var p := Seed(cfg, env, Prior(cfg, env, rows), message);
            var es := Rehydrated(rows, cfg.historyWindow);
            if |p.drafts| == 1 then p.live == Msgs(es) + [Message("user", message)]
            else
              && |p.drafts| == 2 && env.compactor.Some?
              && var r := env.compactor.value(Msgs(es));
              && Folded(trigger, keep, es, r)
              && p.live == r.messages + [Message("user", message)]
              && p.drafts[1].kind == Summary && p.drafts[1].content == r.summary && p.drafts[1].toolArgs.Marker?
  {
    var es := Rehydrated(rows, cfg.historyWindow);
    SeedCheckpoint(cfg, env, rows, message);
    if env.compactor.Some? && Adopted(env.compactor.value(Msgs(es)), |es|) {
      HandedOn(trigger, keep, es, env.compactor.value(Msgs(es)));
      hide *;
      FoldedCheckpoint(trigger, keep, es, env.compactor.value(Msgs(es)));
    }
  }

  lemma FoldedCheckpoint(trigger: int, keep: int, es: seq<Entry>, r: CompactResult)
    ensures r.summary == "" ==> CheckpointDrafts(r, StepsOf(es)) == []
    ensures r.retainedFrom <= 0 ==> CheckpointDrafts(r, StepsOf(es)) == []
    ensures Folded(trigger, keep, es, r) ==>
              var ds := CheckpointDrafts(r, StepsOf(es));
              |ds| == 1 && ds[0].kind == Summary && ds[0].content == r.summary && ds[0].toolArgs.Marker?
  {
    hide Msgs, IsBlank, ToInt32, Retained;
  }

  /** The history a Run starts its turns from is the part of the next rehydration before its own steps. */
  lemma BaseIsReplayed(cfg: Config, sid: string, rows: seq<RunStep>, call: Call, trigger: int, keep: int)
    returns (hist: seq<Message>)
    requires Sound(call) && call.env.buildOk && cfg.historyWindow > 0 && Faithful(rows) && WellMarked(rows)
    requires |rows| + |Added(cfg, sid, rows, call)| <= cfg.historyWindow < TWO_31
    requires NoRedactor(cfg) && 0 <= keep < trigger && Summarizes(call.env, trigger, keep)
    ensures var added := Added(cfg, sid, rows, call);
            && Seed(cfg, call.env, Prior(cfg, call.env, rows), call.message).live ==
                hist + [Message("user", call.message)]
            && Msgs(Rehydrated(rows + added, cfg.historyWindow)) == hist + Msgs(Replay(added, None))
  {
    var added := Added(cfg, sid, rows, call);
    var es := Rehydrated(rows, cfg.historyWindow);
    var head := Seed(cfg, call.env, Prior(cfg, call.env, rows), call.message).drafts;
    assert call.env.loadOk;
    hide Sound, Added, Rehydrated, Seed, Prior, Faithful, WellMarked, Summarizes, Usable, Folded, Msgs, Replay,
        Retained;
    SeedLive(cfg, call.env, rows, call.message, trigger, keep);
    NextHistory(cfg, sid, rows, call);
    CheckpointUsable(cfg, sid, rows, call);
    if |head| == 1 {
      MsgsAppend(es, Replay(added, None));
      hist := Msgs(es);
    } else {
      var r := call.env.compactor.value(Msgs(es));
      FoldedMeans(trigger, keep, es, r);
      assert r.messages == [Message("user", r.summary)] + Msgs(Retained(es, r.retainedFrom));
      HeadMsgs(Entry(Message("user", added[1].content), |rows| + 1), Retained(es, r.retainedFrom), Replay(added, None));
      hist := r.messages;
    }
  }

  lemma FoldedMeans(trigger: int, keep: int, es: seq<Entry>, r: CompactResult)
    requires Folded(trigger, keep, es, r)
    ensures r.retainedFrom > 0 && !IsBlank(r.summary)
            && r.messages == [Message("user", r.summary)] + Msgs(Retained(es, r.retainedFrom))
  {}

  /** The checkpoint a Run writes is usable exactly when its text is not blank as persisted. */
  lemma CheckpointUsable(cfg: Config, sid: string, rows: seq<RunStep>, call: Call)
    requires Sound(call) && cfg.historyWindow > 0
    ensures var added := Added(cfg, sid, rows, call);
            var head := Seed(cfg, call.env, Prior(cfg, call.env, rows), call.message).drafts;
            && 1 <= |head| <= 2 && |head| <= |added|
            && (|added| > 1 && Usable(added[1]) <==>
                |head| == 2 && head[1].kind == Summary && head[1].toolArgs.Marker?
                    && !IsBlank(cfg.redact(head[1].content)))
  {
    var added := Added(cfg, sid, rows, call);
    var head := Seed(cfg, call.env, Prior(cfg, call.env, rows), call.message).drafts;
    AddedCheckpoint(cfg, sid, rows, call);
    if |head| < |added| { FirstNotUsable(added, |head|); }
    hide Added, Seed, Prior, IsBlank, NoUsable, Least, ToInt32;
  }

  lemma HeadMsgs(e: Entry, a: seq<Entry>, b: seq<Entry>)
    ensures Msgs([e] + a + b) == [e.msg] + Msgs(a) + Msgs(b)
  {}

  // ---- a checkpoint, however much later ----

  /** The Run on these rows writes a checkpoint that later Runs can use. */
  predicate WritesCheckpoint(cfg: Config, sid: string, rows: seq<RunStep>, call: Call) {
    var added := Added(cfg, sid, rows, call);
    |added| > 1 && Usable(added[1])
  }

  /** What the compaction of this history retains, where it folds any of it. */
  function RetainedBy(env: Env, es: seq<Entry>): seq<Entry> {
    if env.compactor.Some? && env.compactor.value(Msgs(es)).retainedFrom > 0
    then Retained(es, env.compactor.value(Msgs(es)).retainedFrom)
    else []
  }

  /** The summary, what its compaction retained, and everything since. */
  function Expected(cfg: Config, env: Env, rows: seq<RunStep>, cp: RunStep, later: seq<RunStep>): seq<Entry> {
    [Entry(Message("user", cp.content), |rows| + 1)] + RetainedBy(env, Rehydrated(rows, cfg.historyWindow))
        + Replay(later, None)
  }

  /** Some replayable row from position m on has left the window. */
  predicate Lost(all: seq<RunStep>, m: int, window: int)
    requires window > 0
  {
    0 <= m < Dropped(|all|, window) && AnyReplayed(all[m..Dropped(|all|, window)])
  }

  /** After any further Runs that wrote no checkpoint of their own, rehydrating gives the summary, the
      messages its compaction retained and every step since, exactly when no replayable row from the
      retained one on has left the window; otherwise it gives fewer messages. */
  lemma CheckpointFaithful(cfg: Config, sid: string, calls: seq<Call>, call: Call, more: seq<Call>)
    requires AllSound(calls) && Sound(call) && cfg.historyWindow > 0
    requires var all := After(cfg, sid, calls + [call] + more);
             Faithful(all) && |all| < TWO_31 && |After(cfg, sid, calls + [call])| <= |all|
             && NoUsable(all[|After(cfg, sid, calls + [call])|..])
    requires WritesCheckpoint(cfg, sid, After(cfg, sid, calls), call)
    ensures var rows := After(cfg, sid, calls);
            var all := After(cfg, sid, calls + [call] + more);
            |rows| + 2 <= |all|
            && var want := Expected(cfg, call.env, rows, all[|rows| + 1], all[|rows|..]);
            && (Rehydrated(all, cfg.historyWindow) == want <==>
                !Lost(all, MarkerOf(all[|rows| + 1]), cfg.historyWindow))
            && (Rehydrated(all, cfg.historyWindow) != want ==> |Rehydrated(all, cfg.historyWindow)| < |want|)
  {
    var rows := After(cfg, sid, calls);
    var all := After(cfg, sid, calls + [call] + more);
    AfterOne(cfg, sid, calls, call);
    AfterMore(cfg, sid, calls + [call], more);
    assert After(cfg, sid, calls + [call]) == rows + Added(cfg, sid, rows, call);
    hide *;
    SessionFaithful(cfg, sid, calls, Added(cfg, sid, rows, call), all);
    CheckpointFaithfulRows(cfg, sid, rows, call, all);
  }

  lemma SessionFaithful(cfg: Config, sid: string, calls: seq<Call>, added: seq<RunStep>, all: seq<RunStep>)
    requires AllSound(calls) && cfg.historyWindow > 0 && After(cfg, sid, calls) + added <= all && Faithful(all)
             && |all| < TWO_31
    ensures Faithful(After(cfg, sid, calls)) && WellMarked(After(cfg, sid, calls))
  {
    var rows := After(cfg, sid, calls);
    assert all[..|rows|] == rows;
    hide *;
    FaithfulPrefix(all, |rows|);
    WellMarkedAfter(cfg, sid, calls);
  }

  lemma CheckpointFaithfulRows(cfg: Config, sid: string, rows: seq<RunStep>, call: Call, all: seq<RunStep>)
    requires Sound(call) && cfg.historyWindow > 0 && WellMarked(rows) && Faithful(all) && |all| < TWO_31
    requires WritesCheckpoint(cfg, sid, rows, call) && rows + Added(cfg, sid, rows, call) <= all
    requires NoUsable(all[|rows + Added(cfg, sid, rows, call)|..])
    ensures |rows| + 2 <= |all|
    ensures var want := Expected(cfg, call.env, rows, all[|rows| + 1], all[|rows|..]);
            && (Rehydrated(all, cfg.historyWindow) == want <==>
                !Lost(all, MarkerOf(all[|rows| + 1]), cfg.historyWindow))
            && (Rehydrated(all, cfg.historyWindow) != want ==> |Rehydrated(all, cfg.historyWindow)| < |want|)
  {
    var added := Added(cfg, sid, rows, call);
    var es := Rehydrated(rows, cfg.historyWindow);
    assert |added| > 1 && Usable(added[1]);
    CheckpointSource(cfg, sid, rows, call);
    var k := call.env.compactor.value(Msgs(es)).retainedFrom;
    var r := if k < |es| then k else |es|;
    assert RetainedBy(call.env, es) == es[r..];
    SessionPrefix(rows, added, all);
    var cp := all[|rows| + 1];
    assert cp.toolArgs.Marker? && MarkerOf(cp) == cp.toolArgs.retainFromStep;
    hide *;
    SameMarker(k, StepsOf(es));
    CheckpointFaithfulIff(rows, all, cfg.historyWindow, r);
    WantedIs(cfg, call.env, rows, r, cp, all[|rows|..]);
    LostIs(all, MarkerOf(cp), cfg.historyWindow);
  }

  lemma LostIs(all: seq<RunStep>, m: int, window: int)
    requires window > 0 && 0 <= m
    ensures var x := Dropped(|all|, window); Lost(all, m, window) <==> !(m >= x || !AnyReplayed(all[m..x]))
  {}

  lemma WantedIs(cfg: Config, env: Env, rows: seq<RunStep>, r: nat, c: RunStep, later: seq<RunStep>)
    requires var es := Rehydrated(rows, cfg.historyWindow); r <= |es| && RetainedBy(env, es) == es[r..]
    ensures Wanted(rows, Rehydrated(rows, cfg.historyWindow), r, c, later) == Expected(cfg, env, rows, c, later)
  {
    hide RetainedBy, Rehydrated, Replay;
  }

  lemma SessionPrefix(rows: seq<RunStep>, added: seq<RunStep>, all: seq<RunStep>)
    requires |added| > 1 && rows + added <= all && NoUsable(added[2..]) && NoUsable(all[|rows + added|..])
    ensures |rows| + 2 <= |all| && all[..|rows|] == rows && all[|rows|] == added[0] && all[|rows| + 1] == added[1]
    ensures NoUsable(all[|rows| + 2..])
  {
    hide Usable;
    assert all == rows + added + all[|rows + added|..];
    assert all[|rows| + 2..] == added[2..] + all[|rows + added|..];
  }

  // ---- what compaction costs over a session ----

  lemma {:induction false} SummariesConcat(a: seq<RunStep>, b: seq<RunStep>)
    ensures Summaries(a + b) == Summaries(a) + Summaries(b)
  {
    hide Usable;
    if a == [] {
      assert a + b == b;
    } else {
      assert (a + b)[1..] == a[1..] + b;
      SummariesConcat(a[1..], b);
    }
  }

  lemma {:induction false} NoSummaries(rows: seq<RunStep>)
    requires NoUsable(rows)
    ensures Summaries(rows) == 0
  {
    hide Usable;
    if rows != [] {
      assert !Usable(rows[0]);
      assert forall i | 0 <= i < |rows| - 1 :: rows[1..][i] == rows[i + 1];
      NoSummaries(rows[1..]);
    }
  }

  /** A Run persists one checkpoint at most, as its second step. */
  lemma AddedSummaries(cfg: Config, sid: string, rows: seq<RunStep>, call: Call)
    requires Sound(call) && cfg.historyWindow > 0
    ensures var added := Added(cfg, sid, rows, call);
            Summaries(added) == if |added| > 1 && Usable(added[1]) then 1 else 0
  {
    var added := Added(cfg, sid, rows, call);
    var head := Seed(cfg, call.env, Prior(cfg, call.env, rows), call.message).drafts;
    AddedCheckpoint(cfg, sid, rows, call);
    CheckpointUsable(cfg, sid, rows, call);
    assert added[0].kind == User;
    hide Added, Seed, Prior, Usable, Least, ToInt32, Sound;
    SummariesOf(added, |head|);
  }

  lemma SummariesOf(added: seq<RunStep>, h: nat)
    requires 1 <= h <= 2 && h <= |added| && added[0].kind == User && NoUsable(added[h..])
    requires h == 1 && |added| > 1 ==> !Usable(added[1])
    ensures Summaries(added) == if |added| > 1 && Usable(added[1]) then 1 else 0
  {
    NoSummaries(added[h..]);
    if h == 2 { assert added[1..][1..] == added[2..]; }
  }

  /** Every checkpoint has paid for itself: at all times, the replayable steps so far are at least the
      messages the next Run replays plus trigger - keep - 1 for each checkpoint. */
  lemma WindowAmortised(cfg: Config, sid: string, calls: seq<Call>, trigger: int, keep: int)
    requires AllSound(calls) && 0 < cfg.historyWindow < TWO_31
    requires |After(cfg, sid, calls)| <= cfg.historyWindow
    requires 0 <= keep && keep + 2 <= trigger && AllSummarize(calls, trigger, keep)
    ensures var rows := After(cfg, sid, calls);
            Summaries(rows) * (trigger - keep - 1) + |Rehydrated(rows, cfg.historyWindow)| <= |Replay(rows, None)|
  {
    PaidAfter(cfg, sid, calls, trigger, keep);
  }

  predicate Paid(cfg: Config, rows: seq<RunStep>, d: int) {
    Summaries(rows) * d + |Rehydrated(rows, cfg.historyWindow)| <= |Replay(rows, None)|
  }

  lemma {:induction false} PaidAfter(cfg: Config, sid: string, calls: seq<Call>, trigger: int, keep: int)
    requires AllSound(calls) && 0 < cfg.historyWindow < TWO_31
    requires |After(cfg, sid, calls)| <= cfg.historyWindow
    requires 0 <= keep && keep + 2 <= trigger && AllSummarize(calls, trigger, keep)
    ensures Paid(cfg, After(cfg, sid, calls), trigger - keep - 1)
    decreases |calls|
  {
    if calls == [] {
      NothingYet(cfg, trigger - keep - 1);
    } else {
      var front, call := calls[..|calls| - 1], calls[|calls| - 1];
      var rows := After(cfg, sid, front);
      assert After(cfg, sid, calls) == rows + Added(cfg, sid, rows, call);
      assert Sound(call) && AllSound(front) && Summarizes(call.env, trigger, keep)
          && AllSummarize(front, trigger, keep);
      hide *;
      PaidAfter(cfg, sid, front, trigger, keep);
      FaithfulWithin(cfg, sid, front);
      WellMarkedAfter(cfg, sid, front);
      AmortisedStep(cfg, sid, rows, call, trigger, keep);
    }
  }

  lemma NothingYet(cfg: Config, d: int)
    ensures Paid(cfg, [], d)
  {
    EmptyHistory(cfg.historyWindow);
    hide Rehydrated, Replay;
    assert Summaries([]) * d == 0;
  }

  lemma AmortisedStep(cfg: Config, sid: string, rows: seq<RunStep>, call: Call, trigger: int, keep: int)
    requires Sound(call) && cfg.historyWindow > 0 && Faithful(rows) && WellMarked(rows)
    requires |rows| + |Added(cfg, sid, rows, call)| <= cfg.historyWindow < TWO_31
    requires 0 <= keep && keep + 2 <= trigger && Summarizes(call.env, trigger, keep)
    requires Paid(cfg, rows, trigger - keep - 1)
    ensures Paid(cfg, rows + Added(cfg, sid, rows, call), trigger - keep - 1)
  {
    var added := Added(cfg, sid, rows, call);
    hide Added, Rehydrated, Summaries, Usable, Replay, Faithful, WellMarked, Sound, Summarizes, Retained, Adopted, Msgs;
    SummariesConcat(rows, added);
    ReplayAppend(rows, added, None);
    AddedSummaries(cfg, sid, rows, call);
    NextHistory(cfg, sid, rows, call);
    if |added| > 1 && Usable(added[1]) {
      CheckpointFolds(cfg, call.env, rows, trigger, keep);
      OneMore(Summaries(rows), trigger - keep - 1);
    }
  }

  lemma OneMore(n: int, d: int)
    ensures (n + 1) * d == n * d + d
  {}

  /** A compaction that resumes somewhere folds a history longer than the trigger down to keep + 2 messages at most. */
  lemma CheckpointFolds(cfg: Config, env: Env, rows: seq<RunStep>, trigger: int, keep: int)
    requires 0 <= keep < trigger && env.compactor.Some? && Summarizes(env, trigger, keep)
    requires var es := Rehydrated(rows, cfg.historyWindow); var r := env.compactor.value(Msgs(es));
             Adopted(r, |es|) && r.retainedFrom > 0
    ensures var es := Rehydrated(rows, cfg.historyWindow);
            |es| > trigger && |Retained(es, env.compactor.value(Msgs(es)).retainedFrom)| <= keep + 1
  {
    var es := Rehydrated(rows, cfg.historyWindow);
    hide Rehydrated, Msgs, Outcome;
    HandedOn(trigger, keep, es, env.compactor.value(Msgs(es)));
  }

  lemma {:induction false} ReplayNoLonger(rows: seq<RunStep>)
    ensures |Replay(rows, None)| <= |rows|
  {
    hide StepToTurn;
    if rows != [] { ReplayNoLonger(rows[1..]); }
  }

  // ---- once a session has outgrown its window ----

  /** After a Run that wrote a checkpoint with marker m: the next rehydration replays all the Run's own
      turns exactly when m does not exceed the index its question was given, and otherwise at least the
      question is missing. Indices that are positions keep m below it; in an outgrown session every Run
      numbers its steps from the window again. */
  lemma QuestionReplayedIff(cfg: Config, sid: string, rows: seq<RunStep>, call: Call)
    requires Sound(call) && Modest(cfg) && WritesCheckpoint(cfg, sid, rows, call)
    requires |Added(cfg, sid, rows, call)| <= cfg.historyWindow
    ensures var added := Added(cfg, sid, rows, call);
            var m, x := MarkerOf(added[1]), Dropped(|rows + added|, cfg.historyWindow);
            && x <= |rows|
            && var before := [Entry(Message("user", added[1].content), added[1].index)] + Replay(rows[x..], Some(m));
            && (Rehydrated(rows + added, cfg.historyWindow) == before + Replay(added, None) <==>
                m <= Least(|rows|, cfg.historyWindow))
            && (m > Least(|rows|, cfg.historyWindow) ==>
                  |Rehydrated(rows + added, cfg.historyWindow)| < |before + Replay(added, None)|)
  {
    var added := Added(cfg, sid, rows, call);
    CheckpointSource(cfg, sid, rows, call);
    var m, x := MarkerOf(added[1]), Dropped(|rows + added|, cfg.historyWindow);
    assert Usable(added[1]) && m == added[1].toolArgs.retainFromStep && x <= |rows| && 0 < cfg.historyWindow;
    hide *;
    LoadedFrom(rows + added, cfg.historyWindow);
    RebuiltAt(rows[x..], added, m);
    DropOf(rows, added, x);
    OwnRows(cfg, sid, rows, call, m);
    SameBehind([Entry(Message("user", added[1].content), added[1].index)] + Replay(rows[x..], Some(m)),
               Replay(added, Some(m)), Replay(added, None));
  }

  lemma SameBehind<T>(a: seq<T>, b: seq<T>, c: seq<T>)
    ensures a + b == a + c <==> b == c
  {
    assert (a + b)[|a|..] == b && (a + c)[|a|..] == c;
  }

  /** A marker keeps all of a Run's own turns exactly when it keeps its first row, the question. */
  lemma OwnRows(cfg: Config, sid: string, rows: seq<RunStep>, call: Call, m: int)
    requires Sound(call) && Modest(cfg)
    ensures var added := Added(cfg, sid, rows, call);
            && (Replay(added, Some(m)) == Replay(added, None) <==> m <= Least(|rows|, cfg.historyWindow))
            && (m > Least(|rows|, cfg.historyWindow) ==> |Replay(added, Some(m))| < |Replay(added, None)|)
  {
    var added := Added(cfg, sid, rows, call);
    var start := Least(|rows|, cfg.historyWindow);
    OwnIndices(cfg, sid, rows, call);
    assert added[0..] == added;
    hide *;
    FilterIff(added, 0, m);
    OwnKept(added, start, m);
    FilterShorter(added, m);
  }

  lemma OwnIndices(cfg: Config, sid: string, rows: seq<RunStep>, call: Call)
    requires Sound(call) && Modest(cfg)
    ensures var added := Added(cfg, sid, rows, call);
            && added != [] && Plays(added[0])
            && forall i | 0 <= i < |added| :: added[i].index == Least(|rows|, cfg.historyWindow) + i
  {
    hide Added, RunOf, Whole, Prior, Written;
    AddedRows(cfg, sid, rows, call);
    AddedIs(cfg, sid, rows, call);
    StreamsBounded(cfg, call.env, Prior(cfg, call.env, rows), call.message);
    AddedCheckpoint(cfg, sid, rows, call);
  }

  lemma OwnKept(added: seq<RunStep>, start: int, m: int)
    requires added != [] && Plays(added[0]) && forall i | 0 <= i < |added| :: added[i].index == start + i
    ensures (forall i | 0 <= i < |added| :: Plays(added[i]) ==> (added[i].index >= m <==> i >= 0)) <==> m <= start
  {
    hide Plays;
  }

  lemma FilterShorter(rows: seq<RunStep>, m: int)
    ensures Replay(rows, Some(m)) != Replay(rows, None) ==> |Replay(rows, Some(m))| < |Replay(rows, None)|
  {
    hide Picked, Replay, Plays;
    ReplayIsPicked(rows, Some(m));
    ReplayIsPicked(rows, None);
    WithinPicks(rows, FromMask(rows, Some(m)), FromMask(rows, None));
    if Same(rows, FromMask(rows, Some(m)), FromMask(rows, None)) {
      SamePicks(rows, FromMask(rows, Some(m)), FromMask(rows, None));
    }
  }

  /** So a Run in an outgrown session that folds everything loses its own question. */
  lemma FoldingAllForgetsTheQuestion(cfg: Config, sid: string, rows: seq<RunStep>, call: Call)
    requires Sound(call) && 0 < cfg.historyWindow < |rows| && WritesCheckpoint(cfg, sid, rows, call)
    requires var es := Rehydrated(rows, cfg.historyWindow);
             && call.env.compactor.Some? && es != [] && call.env.compactor.value(Msgs(es)).retainedFrom >= |es|
             && cfg.historyWindow <= es[|es| - 1].step < TWO_31 - 1
    ensures MarkerOf(Added(cfg, sid, rows, call)[1]) > Least(|rows|, cfg.historyWindow)
  {
    hide Added, Rehydrated, Msgs, StepsOf, RetainFromStep, Sound, Least, NoUsable, StepToTurn, IsBlank, ToInt32;
    var es := Rehydrated(rows, cfg.historyWindow);
    CheckpointSource(cfg, sid, rows, call);
    assert Added(cfg, sid, rows, call)[1].toolArgs.Marker?;
    hide *;
    OnePast(cfg, rows, es, call.env.compactor.value(Msgs(es)).retainedFrom, Added(cfg, sid, rows, call)[1]);
  }

  lemma OnePast(cfg: Config, rows: seq<RunStep>, es: seq<Entry>, k: int, cp: RunStep)
    requires es != [] && k >= |es| && cfg.historyWindow < |rows| && cfg.historyWindow <= es[|es| - 1].step < TWO_31 - 1
    requires cp.toolArgs.Marker? && 0 < cfg.historyWindow
             && RetainFromStep(k, StepsOf(es)) == Some(cp.toolArgs.retainFromStep)
    ensures MarkerOf(cp) > Least(|rows|, cfg.historyWindow)
  {}

  lemma DropOf<T>(a: seq<T>, b: seq<T>, x: nat)
    requires x <= |a|
    ensures (a + b)[x..] == a[x..] + b
  {}

  lemma RebuiltAt(before: seq<RunStep>, added: seq<RunStep>, m: int)
    requires |added| > 1 && Usable(added[1]) && NoUsable(added[2..]) && m == added[1].toolArgs.retainFromStep
    ensures Rebuilt(before + added) ==
            [Entry(Message("user", added[1].content), added[1].index)] + Replay(before, Some(m))
                + Replay(added, Some(m))
  {
    var all := before + added;
    assert all[|before| + 1] == added[1] && all[|before| + 2..] == added[2..];
    hide Replay, NoUsable;
    LastCheckpointOf(all, |before| + 1);
    hide LastCheckpoint, Usable;
    ReplayAppend(before, added, Some(m));
    Reassociate([Entry(Message("user", added[1].content), added[1].index)], Replay(before, Some(m)),
        Replay(added, Some(m)));
  }
}
